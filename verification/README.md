# auto-receipt-ai: the order-text core in Dafny

The service turns a free-text order into a receipt. This project models the
deterministic part of that pipeline, all of it in `main.py`:

- **The product resolver** `fuzzy_find_product` (module `Catalog`). It maps
  product text to a catalog id. The catalog is the ordered `product_map`.
  - Tier one: the first name that is in the lowercased text, or that the text
    is in.
  - Tier two: the first name that holds any whitespace-separated word of the
    text.
  - Otherwise: the fallback id `"1"`.
- **The address splitter** `extract_address_parts` (module `Address`). It
  splits a one-line US address into street address, city, state code and ZIP.
  It tries three regular expressions with `re.match`, in order, and strips the
  groups. Template three turns a full state name into its code through
  `STATE_ABBR`. When nothing matches, the whole text becomes the street
  address and the other three parts are empty.
- **The time-zone lookup** of `generate_receipt` (module `Timezone`):
  `STATE_TIMEZONES.get(state, "America/New_York")`.

Two supporting modules hold shared pieces:

- `Prelude`: `Option` and "first index satisfying a predicate", the shape of
  a Python `for` loop with an early `return`.
- `Text`: ASCII character classes and the Python string operations the core
  uses: `strip`, `lower`, `split()` and substring `in`.

A regular expression is modelled twice:

- **Declaratively.** `Address.IsCut` says where the four groups fall in one
  way the pattern can match a prefix of the text.
- **Operationally.** `Address.Match` is a deterministic scanner. Lazy group 1
  ends at the first comma that lets the rest match. After that comma the
  scanner places whitespace in one fixed way of its own. Without a `#`, it
  gives the `\s*` before the city nothing. In the third pattern it gives the
  `\s*` before the state name nothing. So its group boundaries can differ from
  Python's `m.group()` by whitespace at the edges of a group.

`Address.MatchIsLeftmostCut` connects the two. The scanner succeeds exactly
when some match exists, and it picks the leftmost end of group 1, which is
what the lazy `+?` does. Every way of matching with that group 1 gives the
same stripped parts, so the scanner's own whitespace placement yields the
same four parts as the regex engine's, whichever split the engine chooses.

Behaviour of `main.py` worth knowing:

- Template three maps an unknown state name to `""`, not to the raw name
  (`Address.StateOf`).
- `"openswim pro grey"` resolves to id `"2"` through the token tier (`pro` is
  in the first name). The catalog spelling `"openswim pro gray"` resolves to
  `"6"`.
- An exact catalog name does not always get its own id: `"Opencomm USB-C 2025"`
  contains the earlier name `"Opencomm USB-C"`, so it resolves to `"8"`, not
  `"12"`.
- The second address pattern can never decide a result. Each of its matches is
  also a match of the first pattern, which is tried before it
  (`Address.PlainTemplateNeverDecides`).

## Model

| member | source | states |
|---|---|---|
| Prelude.FirstIndex | main.py:64-66 | the position found satisfies the test, no earlier one does, and none is found exactly when no element satisfies it |
| Catalog.ProductMap | main.py:20-33 | the catalog has twelve entries, in insertion order |
| Catalog.Resolve | main.py:61-70 | the id of the first name passing tier one; with no such name, the id of the first passing tier two; with neither, "1"; the result is always a catalog id or "1" |
| Catalog.ContainmentHit | main.py:63-65 | tier one's test: the lowered name is in the lowered text or the lowered text is in the lowered name |
| Catalog.TokenHit | main.py:63-68 | tier two's test: some word of the lowered text's `split()` is in the lowered name |
| Catalog.FuzzyFindProduct | main.py:61-70 | the resolver over `product_map`: its answer is the id of a catalog entry or the fallback "1" |
| Catalog.TierOneDecides | main.py:64-66 | once a name passes tier one and no earlier name does, its id is the result, whatever tier two would say |
| Catalog.FallbackIsNotACatalogId | main.py:70 | no catalog entry has the id "1" |
| Catalog.FallbackOnlyWhenBothTiersFail | main.py:64-70 | over the shipped catalog the result is "1" exactly when both tiers fail |
| Catalog.ResolveIgnoresCase | main.py:63-68 | texts equal after lowercasing resolve to the same id |
| Catalog.EmptyTextPicksFirstEntry | main.py:65 | the empty text is in every name, so it resolves to the first entry |
| Catalog.NameResolvesToItselfOrEarlier | main.py:64-66 | a catalog name resolves through tier one to its own entry or to an earlier one |
| Catalog.EarlierContainedNameWins | main.py:64-66 | "Opencomm USB-C 2025" resolves to "8", not to its own id "12" |
| Catalog.OpencommEntries | main.py:27-31 | the seventh and eleventh entries are "Opencomm USB-C" (id 8) and "Opencomm USB-C 2025" (id 12) |
| Catalog.CatalogSpellingResolvesToOwnId | main.py:25 | "openswim pro gray" resolves to "6" through tier one |
| Catalog.VariantSpellingFallsToTokenTier | main.py:67-69 | "openswim pro grey" passes no name in tier one and resolves to "2" through tier two |
| Text.Strip | main.py:105-107 | the result is no longer than the input and neither starts nor ends with whitespace |
| Text.LStripIsSuffix | main.py:105-107 | what `lstrip` leaves is a suffix of its input |
| Text.RStripIsPrefix | main.py:105-107 | what `rstrip` leaves is a prefix of its input |
| Text.StripIgnoresPadding | main.py:105-107 | whitespace on either side of a string does not change its strip |
| Text.StripOfClean | main.py:105-107 | a string with no whitespace at either end is its own strip |
| Text.LowerChar | main.py:63 | lowercasing turns A-Z into a-z and leaves every other character alone |
| Text.Lower | main.py:63 | `str.lower` keeps the length and leaves no capital letter |
| Text.ContainsIffOccurs | main.py:65 | the `in` test holds exactly when the needle occupies some slice of the haystack |
| Text.Contains | main.py:65 | Python's substring `in`, scanning from each start; a needle longer than the haystack is never in it |
| Text.Words | main.py:68 | `split()` yields non-empty words without whitespace |
| Text.WordsCoverText | main.py:68 | the words, joined, are exactly the non-whitespace characters of the text, in order |
| Text.SkipWhile | main.py:103 | a greedy run: every character up to the result is in the class, and the next one is not |
| Address.StateAbbr | main.py:35-46 | every code in the state table is two capital letters |
| Address.StateNamesAreLookedUpExactly | main.py:129 | "Texas" gives TX and "New York" NY; "texas" and "TX" give nothing |
| Address.StateAndZip | main.py:103 | what it finds matches `\s*([A-Z]{2})\s*(\d{5})` (or the state-name form) from the given position |
| Address.IsCut | main.py:103-123 | one way a pattern can match a prefix: group 1 is non-empty without newlines and ends at a comma, then `\s*#?` (or `\s*`), group 2 of word characters and spaces, a comma, `\s*`, group 3, `\s*` and five digits |
| Address.Matches | main.py:103-123 | `re.match` with the pattern succeeds: some such way exists |
| Address.PartsOf | main.py:105-108 | the parts read off a match: groups 1-3 stripped, group 3 passed through the state lookup, group 4 as is; street and city carry no outer whitespace and the ZIP has five characters |
| Address.CitySpan | main.py:103 | the city group found follows `\s*#?`, holds only word characters and spaces, and ends where that run ends |
| Address.TailAtSound | main.py:103 | what the scanner finds at a comma is a way for the pattern to match there |
| Address.SearchFrom | main.py:103 | a match found by the lazy search is a real match, at or after the starting position |
| Address.Match | main.py:103 | a match reported is a way for the pattern to match a prefix |
| Address.TailAtComplete | main.py:103 | whenever the pattern can match with group 1 ending at a comma, the scanner finds a match there whose groups differ only by whitespace |
| Address.PaddedPartsAgree | main.py:105-108 | groups that differ only by surrounding whitespace give the same stripped parts |
| Address.CutsAtOneCommaAgree | main.py:103-108 | every way of matching with group 1 ending at the same comma gives the same parts |
| Address.SearchFindsLeftmost | main.py:103 | the search reaches every match ahead of it, or stops at an earlier one |
| Address.MatchIsLeftmostCut | main.py:103 | the scanner succeeds exactly when the pattern matches; its group 1 is the shortest possible; all matches with that group 1 give its parts |
| Address.StateOf | main.py:127-129 | a code passes through; a full name gives its code when the table has it and "" otherwise |
| Address.StateIsCodeOrEmpty | main.py:103-131 | the reported state is two capital letters or empty; with a `[A-Z]{2}` pattern it is exactly the two capitals the pattern matched |
| Address.CodePatternGivesCode | main.py:103-110 | when the first pattern matches, the split reports a two-letter state, never an empty one |
| Address.CityHasNoComma | main.py:106 | the reported city holds no comma |
| Address.PartsAreWellFormed | main.py:103-131 | a match gives a five-digit ZIP, a code-or-empty state and a comma-free city |
| Address.ExtractAddressParts | main.py:100-134 | an empty ZIP occurs only in the fallback (text, "", "", ""); otherwise the parts are well formed |
| Address.PlainMatchIsUnitMatch | main.py:113 | every match of the second pattern is a match of the first with the same parts |
| Address.PlainTemplateNeverDecides | main.py:112-120 | the second pattern matches only where the first does, so it never decides |
| Address.ExtractFollowsFirstMatchingTemplate | main.py:100-134 | the parts come from the leftmost match of the first pattern, else of the third, else from the fallback |
| Address.FallbackOnlyWhenNothingMatches | main.py:133-134 | the ZIP is empty exactly when neither the first nor the third pattern matches |
| Address.SplitStateFailsOnlyWhenEmpty | main.py:165-166 | the receipt step's state test fails for a split address only when its state is empty |
| Address.EmptyAddressGivesEmptyParts | main.py:133-134 | the empty address gives four empty strings |
| Address.MatchIgnoresTrailingText | main.py:103 | text appended after a match changes neither the match position nor the parts |
| Address.ExtractIgnoresTrailingText | main.py:103-110 | once the first pattern matches, trailing text does not change the split |
| Address.FormatAddress | main.py:112 | the length of "street, city, state 12345" is the parts' lengths plus five |
| Address.FormattedIsLeftmost | main.py:103 | in a formatted address the match ending at the street is the one `re.match` takes |
| Address.NamedStateMissesCodePattern | main.py:103 | with the state written out, the first pattern does not match |
| Address.SplitFormattedAddress | main.py:102-110 | splitting "street, city, ST 12345" gives back exactly those four parts |
| Address.SplitFormattedNamedAddress | main.py:122-131 | splitting "street, city, Statename 12345" gives back street, city and ZIP, and the state's code or "" for an unknown name |
| Timezone.StateTimezone | main.py:48-59 | only two-character codes have a zone, and it is one of the four zones |
| Timezone.TimezoneCodesAreStateCodes | main.py:48-59 | every code in the zone table is a code the state table produces |
| Timezone.TimezoneFor | main.py:141 | a listed code gets its zone and anything else, "" included, gets America/New_York |
| Timezone.ReceiptTimezone | main.py:137-141 | the receipt's zone is one of the four zones |
| Timezone.TimezoneExamples | main.py:141 | TX is on Chicago time and AZ on Phoenix time; "" and "tx" fall back to New York |
| Timezone.UnsplitAddressUsesDefaultZone | main.py:133-141 | an address no pattern matches is stamped in New York time |
| Timezone.NonDefaultZoneNeedsListedState | main.py:137-141 | a zone other than the default needs a listed state from a successful split |
| Timezone.CodedAddressZone | main.py:137-141 | "street, city, ST 12345" is stamped in the zone of ST |
| Timezone.NamedAddressZone | main.py:137-141 | with the state written out, the zone is that of its code, or New York time for an unknown name |

## Left out

- `gpt_parse_order` (main.py:72-98) calls a remote language model. Its output,
  the order's address and product text, is simply an input to this model.
- The browser automation in `generate_receipt` (main.py:145-181) is I/O
  against a web page and is left out, and so is the `render` endpoint
  (main.py:183-188). The one exception is the state test at main.py:165-166,
  which `Address.SplitStateFailsOnlyWhenEmpty` relates to the splitter.
- The current time and its formatting into a file name (main.py:142-143) come
  from the clock and `pytz`. Only the zone-name lookup feeding them is
  modelled.
- The API-key check and client setup (main.py:13-18) are environment
  configuration. The `print` calls (main.py:97, 101, 109, 119, 130, 133) only
  produce output.
- Python applies Unicode tables to `\s`, `\w`, `\d`, `str.lower`,
  `str.split` and `str.strip`. The model uses their ASCII restriction.
  - Whitespace is tab through carriage return, 0x1C-0x1F and space.
  - Other characters are neither letters, digits nor whitespace.
  - The trademark sign in "Garmin Index™ BPM" passes through lowercasing
    unchanged, as in Python.
- Text.Strip: its contract states the shape of the result only. Its meaning,
  the input with its outer whitespace removed, is pinned down by
  `Text.LStripIsSuffix`, `Text.RStripIsPrefix`, `Text.StripIgnoresPadding`
  and `Text.StripOfClean`.
- Address.FormatAddress: states only the length. The round trips in
  `Address.SplitFormattedAddress` and `Address.SplitFormattedNamedAddress`
  say what the formatted text means.
- Catalog.ProductMap: states only the entry count. The entries are written
  out once in `Catalog.EntryAt`. The worked examples pin the ones they use
  (`Catalog.OpencommEntries`).
