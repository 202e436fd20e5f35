/** Address splitting: a one-line US address to (street address, city, state
    code, ZIP code), by three regular expressions tried in order and a
    fallback that keeps the whole text as the street address. */
module Address {
  import opened Prelude
  import opened Text

  /** The four strings the splitter returns. */
  datatype AddressParts = AddressParts(address1: string, city: string, state: string, zip: string)

  // ---------------------------------------------------------------------------
  // State names
  // ---------------------------------------------------------------------------

  /** The full-name-to-code table for the fifty states; `None` for anything
      else, including the codes themselves and names in another case. */
  function StateAbbr(name: string): (code: Option<string>)
    ensures code.Some? ==> |code.value| == 2 && IsUpper(code.value[0]) && IsUpper(code.value[1])
  {
    match name
    case "Alabama" => Some("AL")
    case "Alaska" => Some("AK")
    case "Arizona" => Some("AZ")
    case "Arkansas" => Some("AR")
    case "California" => Some("CA")
    case "Colorado" => Some("CO")
    case "Connecticut" => Some("CT")
    case "Delaware" => Some("DE")
    case "Florida" => Some("FL")
    case "Georgia" => Some("GA")
    case "Hawaii" => Some("HI")
    case "Idaho" => Some("ID")
    case "Illinois" => Some("IL")
    case "Indiana" => Some("IN")
    case "Iowa" => Some("IA")
    case "Kansas" => Some("KS")
    case "Kentucky" => Some("KY")
    case "Louisiana" => Some("LA")
    case "Maine" => Some("ME")
    case "Maryland" => Some("MD")
    case "Massachusetts" => Some("MA")
    case "Michigan" => Some("MI")
    case "Minnesota" => Some("MN")
    case "Mississippi" => Some("MS")
    case "Missouri" => Some("MO")
    case "Montana" => Some("MT")
    case "Nebraska" => Some("NE")
    case "Nevada" => Some("NV")
    case "New Hampshire" => Some("NH")
    case "New Jersey" => Some("NJ")
    case "New Mexico" => Some("NM")
    case "New York" => Some("NY")
    case "North Carolina" => Some("NC")
    case "North Dakota" => Some("ND")
    case "Ohio" => Some("OH")
    case "Oklahoma" => Some("OK")
    case "Oregon" => Some("OR")
    case "Pennsylvania" => Some("PA")
    case "Rhode Island" => Some("RI")
    case "South Carolina" => Some("SC")
    case "South Dakota" => Some("SD")
    case "Tennessee" => Some("TN")
    case "Texas" => Some("TX")
    case "Utah" => Some("UT")
    case "Vermont" => Some("VT")
    case "Virginia" => Some("VA")
    case "Washington" => Some("WA")
    case "West Virginia" => Some("WV")
    case "Wisconsin" => Some("WI")
    case "Wyoming" => Some("WY")
    case _ => None
  }

  /** The lookup is exact: a name must be spelled with the table's
      capitals, and a code is not a name. */
  lemma StateNamesAreLookedUpExactly()
    ensures StateAbbr("Texas") == Some("TX")
    ensures StateAbbr("New York") == Some("NY")
    ensures StateAbbr("texas") == None
    ensures StateAbbr("TX") == None
  {
  }

  // ---------------------------------------------------------------------------
  // The three patterns
  // ---------------------------------------------------------------------------

  /** What the third group of a pattern accepts: `[A-Z]{2}`, or a run of
      `[A-Za-z\s]+` that is then looked up as a full state name. */
  datatype StateField = StateCode | StateName

  /** A pattern of the shape
        `(.+?),\s*#?([\w\s]+),\s*([A-Z]{2})\s*(\d{5})`,
      with or without the `#?` before the city, and with one of the two
      state groups. */
  datatype Template = Template(unitMarker: bool, state: StateField)

  /** `(.+?),\s*#?([\w\s]+),\s*([A-Z]{2})\s*(\d{5})` */
  const UnitTemplate := Template(true, StateCode)

  /** `(.+?),\s*([\w\s]+),\s*([A-Z]{2})\s*(\d{5})` */
  const PlainTemplate := Template(false, StateCode)

  /** `(.+?),\s*#?([\w\s]+),\s*([A-Za-z\s]+)\s*(\d{5})` */
  const StateNameTemplate := Template(true, StateName)

  /** Where the pieces of one way of matching a pattern fall in the input:
      the comma closing group 1 (which is `s[..comma1]`), group 2 at
      `s[cityStart..comma2]`, group 3 at `s[stateStart..stateEnd]` and group 4
      at `s[zipStart..zipStart + 5]`. */
  datatype Cut = Cut(comma1: nat, cityStart: nat, comma2: nat, stateStart: nat, stateEnd: nat, zipStart: nat)

  predicate Ordered(s: string, c: Cut) {
    && 0 < c.comma1 < c.cityStart < c.comma2 < c.stateStart <= c.stateEnd <= c.zipStart
    && c.zipStart + 5 <= |s|
  }

  /** `\s*#?` (or just `\s*`) between the first comma and the city. */
  predicate CityLead(t: Template, s: string, lo: nat, hi: nat)
    requires lo <= hi <= |s|
  {
    || AllIn(s, lo, hi, IsSpace)
    || (t.unitMarker && lo < hi && s[hi - 1] == '#' && AllIn(s, lo, hi - 1, IsSpace))
  }

  /** Group 3 of pattern `t` matches exactly `s[lo..hi]`. */
  predicate StateGroup(t: Template, s: string, lo: nat, hi: nat)
    requires lo <= hi <= |s|
  {
    match t.state
    case StateCode => hi == lo + 2 && IsUpper(s[lo]) && IsUpper(s[lo + 1])
    case StateName => lo < hi && AllIn(s, lo, hi, IsLetterOrSpace)
  }

  /** Everything from the first comma on matches pattern `t` with its pieces
      at `c`. */
  predicate IsTail(t: Template, s: string, c: Cut) {
    && Ordered(s, c)
    && s[c.comma1] == ','
    && CityLead(t, s, c.comma1 + 1, c.cityStart)
    && AllIn(s, c.cityStart, c.comma2, IsWordOrSpace)
    && s[c.comma2] == ','
    && AllIn(s, c.comma2 + 1, c.stateStart, IsSpace)
    && StateGroup(t, s, c.stateStart, c.stateEnd)
    && AllIn(s, c.stateEnd, c.zipStart, IsSpace)
    && AllIn(s, c.zipStart, c.zipStart + 5, IsDigit)
  }

  /** `re.match(t, s)` can succeed with its pieces at `c`: group 1 is a
      non-empty run of non-newline characters from the start, and the rest
      of the pattern matches from there. Only a prefix of `s` is used. */
  predicate IsCut(t: Template, s: string, c: Cut) {
    IsTail(t, s, c) && AllIn(s, 0, c.comma1, NotNewline)
  }

  /** Pattern `t` matches some prefix of `s`. */
  ghost predicate Matches(t: Template, s: string) {
    exists c :: IsCut(t, s, c)
  }

  // ---------------------------------------------------------------------------
  // The matcher
  // ---------------------------------------------------------------------------

  /** The state and ZIP groups from `from` on: `\s*([A-Z]{2})\s*(\d{5})` or
      `\s*([A-Za-z\s]+)\s*(\d{5})`. Every quantifier there is greedy and,
      once it has failed, no shorter choice can succeed, so one pass decides. */
  function StateAndZip(t: Template, s: string, from: nat): (r: Option<(nat, nat, nat)>)
    requires from <= |s|
    ensures r.Some? ==> var (a, b, z) := r.value;
      && from <= a <= b <= z && z + 5 <= |s|
      && AllIn(s, from, a, IsSpace)
      && StateGroup(t, s, a, b)
      && AllIn(s, b, z, IsSpace)
      && AllIn(s, z, z + 5, IsDigit)
  {
    match t.state
    case StateCode =>
      var a := SkipWhile(s, from, IsSpace);
      if a + 2 <= |s| && IsUpper(s[a]) && IsUpper(s[a + 1]) then
        var z := SkipWhile(s, a + 2, IsSpace);
        if z + 5 <= |s| && AllIn(s, z, z + 5, IsDigit) then Some((a, a + 2, z)) else None
      else None
    case StateName =>
      var z := SkipWhile(s, from, IsLetterOrSpace);
      if from < z && z + 5 <= |s| && AllIn(s, z, z + 5, IsDigit) then Some((from, z, z)) else None
  }

  /** `\s*#?([\w\s]+)` (or `\s*([\w\s]+)`) after the comma `s[i]`: where
      the city group starts and where its greedy run of word characters and
      spaces stops. The `#` is taken when the pattern allows it and it is the
      first character after the spaces; otherwise the city starts right after
      the comma, spaces included, which `strip` removes later. */
  function CitySpan(t: Template, s: string, i: nat): (r: (nat, nat))
    requires i < |s|
    ensures i < r.0 <= r.1 <= |s|
    ensures CityLead(t, s, i + 1, r.0) && AllIn(s, r.0, r.1, IsWordOrSpace)
    ensures r.1 < |s| ==> !IsWordOrSpace(s[r.1])
  {
    var lead := SkipWhile(s, i + 1, IsSpace);
    var cityStart := if t.unitMarker && lead < |s| && s[lead] == '#' then lead + 1 else i + 1;
    (cityStart, SkipWhile(s, cityStart, IsWordOrSpace))
  }

  /** Tries the part of pattern `t` after group 1 with group 1 ending at the
      comma `s[i]`. */
  function TailAt(t: Template, s: string, i: nat): (r: Option<Cut>)
    requires i < |s|
  {
    if i == 0 || s[i] != ',' then None
    else
      var city := CitySpan(t, s, i);
      if city.1 == city.0 || city.1 == |s| || s[city.1] != ',' then None
      else
        match StateAndZip(t, s, city.1 + 1)
        case None => None
        case Some(r) => Some(Cut(i, city.0, city.1, r.0, r.1, r.2))
  }

  /** What `TailAt` finds is a way for the pattern to match after the comma
      `s[i]`. */
  lemma TailAtSound(t: Template, s: string, i: nat)
    requires i < |s| && TailAt(t, s, i).Some?
    ensures IsTail(t, s, TailAt(t, s, i).value) && TailAt(t, s, i).value.comma1 == i
  {
  }

  /** The lazy `(.+?)`: tries each end of group 1 from position `i` on,
      shortest first, and stops at the first newline. */
  function SearchFrom(t: Template, s: string, i: nat): (r: Option<Cut>)
    requires 1 <= i <= |s| + 1 && AllIn(s, 0, i - 1, NotNewline)
    ensures r.Some? ==> IsCut(t, s, r.value) && i <= r.value.comma1
    decreases |s| - i
  {
    if i >= |s| || s[i - 1] == '\n' then None
    else
      match TailAt(t, s, i)
      case Some(c) => TailAtSound(t, s, i); Some(c)
      case None => SearchFrom(t, s, i + 1)
  }

  /** `re.match(t, s)`, reporting where the pieces fall. */
  function Match(t: Template, s: string): (r: Option<Cut>)
    ensures r.Some? ==> IsCut(t, s, r.value)
  {
    SearchFrom(t, s, 1)
  }

  // ---------------------------------------------------------------------------
  // The matcher finds the match the regex engine finds
  // ---------------------------------------------------------------------------

  /** Match `d` has the same commas and ZIP as match `c`, and its city and
      state groups are those of `c` widened by whitespace only. */
  predicate Padded(s: string, d: Cut, c: Cut) {
    && Ordered(s, d) && Ordered(s, c)
    && d.comma1 == c.comma1 && d.comma2 == c.comma2 && d.zipStart == c.zipStart
    && d.cityStart <= c.cityStart && AllIn(s, d.cityStart, c.cityStart, IsSpace)
    && d.stateStart <= c.stateStart && AllIn(s, d.stateStart, c.stateStart, IsSpace)
    && c.stateEnd <= d.stateEnd && AllIn(s, c.stateEnd, d.stateEnd, IsSpace)
  }

  /** Widening groups by whitespace does not change what `strip` leaves. */
  lemma PaddedPartsAgree(t: Template, s: string, d: Cut, c: Cut)
    requires Padded(s, d, c)
    ensures PartsOf(t, s, d) == PartsOf(t, s, c)
  {
    var city, state := c.comma2, d.stateEnd;
    StripSlicePadding(s, d.cityStart, c.cityStart, city, city);
    StripSlicePadding(s, d.stateStart, c.stateStart, c.stateEnd, state);
    PartsOfSameStrips(t, s, d, c);
  }

  /** Two cuts sharing the first comma and the ZIP, whose city and state
      groups strip alike, give the same parts. */
  lemma PartsOfSameStrips(t: Template, s: string, d: Cut, c: Cut)
    requires Ordered(s, d) && Ordered(s, c)
    requires d.comma1 == c.comma1 && d.zipStart == c.zipStart
    requires Strip(s[d.cityStart..d.comma2]) == Strip(s[c.cityStart..c.comma2])
    requires Strip(s[d.stateStart..d.stateEnd]) == Strip(s[c.stateStart..c.stateEnd])
    ensures PartsOf(t, s, d) == PartsOf(t, s, c)
  {
  }

  /** With `[A-Z]{2}` as group 3 there is one way to match the state and ZIP
      groups, and `StateAndZip` finds it. */
  lemma StateCodeComplete(t: Template, s: string, c: Cut)
    requires IsTail(t, s, c) && t.state == StateCode
    ensures StateAndZip(t, s, c.comma2 + 1) == Some((c.stateStart, c.stateEnd, c.zipStart))
  {
    var from := c.comma2 + 1;
    SkipWhileStopsAt(s, from, c.stateStart, IsSpace);
    SkipWhileStopsAt(s, c.stateEnd, c.zipStart, IsSpace);
  }

  /** With `[A-Za-z\s]+` as group 3 the engine may hand the spaces around the
      name to group 3 or to the `\s*` beside it; `StateAndZip` puts them all
      into group 3. */
  lemma StateNameComplete(t: Template, s: string, c: Cut)
    requires IsTail(t, s, c) && t.state == StateName
    ensures StateAndZip(t, s, c.comma2 + 1) == Some((c.comma2 + 1, c.zipStart, c.zipStart))
  {
    var from := c.comma2 + 1;
    assert AllIn(s, from, c.zipStart, IsLetterOrSpace);
    SkipWhileStopsAt(s, from, c.zipStart, IsLetterOrSpace);
  }

  /** When the spaces after the first comma are all of `\s*#?` the engine
      used, the city run starts right after the comma. */
  lemma CitySpanAfterSpaces(t: Template, s: string, c: Cut)
    requires IsTail(t, s, c) && AllIn(s, c.comma1 + 1, c.cityStart, IsSpace)
    ensures CitySpan(t, s, c.comma1) == (c.comma1 + 1, c.comma2)
  {
    var from := c.comma1 + 1;
    var lead := SkipWhile(s, from, IsSpace);
    assert !IsSpace(s[c.comma2]);
    assert lead <= c.comma2;
    assert s[lead] != '#';
    assert AllIn(s, from, c.comma2, IsWordOrSpace);
    SkipWhileStopsAt(s, from, c.comma2, IsWordOrSpace);
  }

  /** When the engine used a `#` after the spaces, so does `CitySpan`. */
  lemma CitySpanAfterMarker(t: Template, s: string, c: Cut)
    requires IsTail(t, s, c) && !AllIn(s, c.comma1 + 1, c.cityStart, IsSpace)
    ensures CitySpan(t, s, c.comma1) == (c.cityStart, c.comma2)
  {
    var from := c.comma1 + 1;
    var hash := c.cityStart - 1;
    SkipWhileStopsAt(s, from, hash, IsSpace);
    SkipWhileStopsAt(s, c.cityStart, c.comma2, IsWordOrSpace);
  }

  /** `CitySpan` finds the second comma of every match at comma `s[c.comma1]`
      and a city group that is the engine's widened by whitespace. */
  lemma CitySpanComplete(t: Template, s: string, c: Cut)
    requires IsTail(t, s, c)
    ensures var r := CitySpan(t, s, c.comma1);
      && r.1 == c.comma2
      && r.0 <= c.cityStart && AllIn(s, r.0, c.cityStart, IsSpace)
  {
    if AllIn(s, c.comma1 + 1, c.cityStart, IsSpace) {
      CitySpanAfterSpaces(t, s, c);
    } else {
      CitySpanAfterMarker(t, s, c);
    }
  }

  /** `StateAndZip` finds the ZIP of every match whose second comma is
      `s[c.comma2]`, and a state group that is the engine's widened by
      whitespace. */
  lemma StateAndZipComplete(t: Template, s: string, c: Cut)
    requires IsTail(t, s, c)
    ensures var r := StateAndZip(t, s, c.comma2 + 1);
      && r.Some? && r.value.2 == c.zipStart
      && r.value.0 <= c.stateStart && AllIn(s, r.value.0, c.stateStart, IsSpace)
      && c.stateEnd <= r.value.1 && AllIn(s, c.stateEnd, r.value.1, IsSpace)
  {
    if t.state == StateCode {
      StateCodeComplete(t, s, c);
    } else {
      StateNameComplete(t, s, c);
    }
  }

  /** Whichever way the engine splits the whitespace around the groups,
      `TailAt` finds a match at the same comma with the same second comma
      and ZIP, whose groups differ only by that whitespace. */
  lemma TailAtComplete(t: Template, s: string, c: Cut)
    requires IsTail(t, s, c)
    ensures TailAt(t, s, c.comma1).Some?
    ensures Padded(s, TailAt(t, s, c.comma1).value, c)
  {
    CitySpanComplete(t, s, c);
    StateAndZipComplete(t, s, c);
    var city := CitySpan(t, s, c.comma1);
    var r := StateAndZip(t, s, c.comma2 + 1).value;
    TailAtFrom(t, s, c.comma1, city.0, city.1, r);
  }

  /** `TailAt` succeeds once both commas and the state and ZIP groups are
      found. */
  lemma TailAtFrom(t: Template, s: string, i: nat, lo: nat, hi: nat, r: (nat, nat, nat))
    requires 0 < i < |s| && s[i] == ','
    requires CitySpan(t, s, i) == (lo, hi) && lo < hi < |s| && s[hi] == ','
    requires StateAndZip(t, s, hi + 1) == Some(r)
    ensures TailAt(t, s, i) == Some(Cut(i, lo, hi, r.0, r.1, r.2))
  {
  }

  /** All the ways a pattern can match with group 1 ending at one comma give
      the same parts, so the engine's backtracking order does not matter
      once that comma is fixed. */
  lemma CutsAtOneCommaAgree(t: Template, s: string, c1: Cut, c2: Cut)
    requires IsTail(t, s, c1) && IsTail(t, s, c2) && c1.comma1 == c2.comma1
    ensures PartsOf(t, s, c1) == PartsOf(t, s, c2)
  {
    TailAtComplete(t, s, c1);
    TailAtComplete(t, s, c2);
    PaddedPartsAgree(t, s, TailAt(t, s, c1.comma1).value, c1);
    PaddedPartsAgree(t, s, TailAt(t, s, c2.comma1).value, c2);
  }

  /** The search reaches every match whose first comma lies ahead of it, or
      stops at an earlier one. */
  lemma {:induction false} SearchFindsLeftmost(t: Template, s: string, i: nat, c: Cut)
    requires 1 <= i <= |s| + 1 && AllIn(s, 0, i - 1, NotNewline)
    requires IsCut(t, s, c) && i <= c.comma1
    ensures SearchFrom(t, s, i).Some? && SearchFrom(t, s, i).value.comma1 <= c.comma1
    decreases |s| - i
  {
    assert s[i - 1] != '\n';
    if i == c.comma1 {
      TailAtComplete(t, s, c);
    } else if TailAt(t, s, i).None? {
      SearchFindsLeftmost(t, s, i + 1, c);
    }
  }

  /** A match has the first comma furthest left of all ways of matching. */
  ghost predicate Leftmost(t: Template, s: string, c: Cut) {
    IsCut(t, s, c) && forall d :: IsCut(t, s, d) ==> c.comma1 <= d.comma1
  }

  /** `Match` agrees with `re.match`: it succeeds exactly when the pattern
      matches some prefix, group 1 is then the shortest possible (the lazy
      `+?`), and every way of matching with that group 1 gives the parts it
      gives. */
  lemma MatchIsLeftmostCut(t: Template, s: string)
    ensures Match(t, s).Some? <==> Matches(t, s)
    ensures Match(t, s).Some? ==> Leftmost(t, s, Match(t, s).value)
    ensures forall c :: Leftmost(t, s, c) ==> PartsOf(t, s, c) == PartsOf(t, s, Match(t, s).value)
  {
    forall c | IsCut(t, s, c)
      ensures Match(t, s).Some? && Match(t, s).value.comma1 <= c.comma1
    {
      SearchFindsLeftmost(t, s, 1, c);
    }
    forall c | Leftmost(t, s, c)
      ensures PartsOf(t, s, c) == PartsOf(t, s, Match(t, s).value)
    {
      CutsAtOneCommaAgree(t, s, c, Match(t, s).value);
    }
  }

  // ---------------------------------------------------------------------------
  // Extraction
  // ---------------------------------------------------------------------------

  /** Group 3 as the splitter reports it: the code itself, or the code of
      the full state name, or the empty string for a name it does not know. */
  function StateOf(t: Template, raw: string): (state: string)
    ensures t.state == StateCode ==> state == raw
    ensures t.state == StateName ==> (StateAbbr(raw).Some? <==> state != "")
    ensures t.state == StateName && StateAbbr(raw).Some? ==> state == StateAbbr(raw).value
  {
    match t.state
    case StateCode => raw
    case StateName =>
      match StateAbbr(raw)
      case Some(code) => code
      case None => ""
  }

  /** The four stripped groups of a match (the ZIP group is never stripped). */
  function PartsOf(t: Template, s: string, c: Cut): (p: AddressParts)
    requires Ordered(s, c)
    ensures Unpadded(p.address1) && Unpadded(p.city) && |p.zip| == 5
  {
    AddressParts(
      Strip(s[..c.comma1]),
      Strip(s[c.cityStart..c.comma2]),
      StateOf(t, Strip(s[c.stateStart..c.stateEnd])),
      s[c.zipStart..c.zipStart + 5])
  }

  /** The shape every successful match gives: a ZIP of five digits, a state
      that is a two-letter code or empty, and a city without a comma. */
  predicate WellFormed(p: AddressParts) {
    && |p.zip| == 5 && (forall k :: 0 <= k < 5 ==> IsDigit(p.zip[k]))
    && (p.state == "" || (|p.state| == 2 && IsUpper(p.state[0]) && IsUpper(p.state[1])))
    && ',' !in p.city
  }

  /** The state group as reported is a two-letter code or empty. */
  lemma StateIsCodeOrEmpty(t: Template, s: string, c: Cut)
    requires IsTail(t, s, c)
    ensures var state := PartsOf(t, s, c).state;
      state == "" || (|state| == 2 && IsUpper(state[0]) && IsUpper(state[1]))
    ensures t.state == StateCode ==> PartsOf(t, s, c).state == s[c.stateStart..c.stateEnd]
  {
    if t.state == StateCode {
      var raw := s[c.stateStart..c.stateEnd];
      assert |raw| == 2 && IsUpper(raw[0]) && IsUpper(raw[1]);
      StripOfClean(raw);
    }
  }

  /** When the first pattern matches, the state reported is the two capitals
      it matched, never empty. */
  lemma CodePatternGivesCode(s: string)
    ensures Matches(UnitTemplate, s) ==> |ExtractAddressParts(s).state| == 2
  {
    if Matches(UnitTemplate, s) {
      MatchIsLeftmostCut(UnitTemplate, s);
      StateIsCodeOrEmpty(UnitTemplate, s, Match(UnitTemplate, s).value);
    }
  }

  /** The city group holds no comma. */
  lemma CityHasNoComma(t: Template, s: string, c: Cut)
    requires IsTail(t, s, c)
    ensures ',' !in PartsOf(t, s, c).city
  {
    forall k | c.cityStart <= k < c.comma2
      ensures s[k] != ','
    {
      assert IsWordOrSpace(s[k]);
    }
    assert ',' !in s[c.cityStart..c.comma2];
    StripKeepsChars(s[c.cityStart..c.comma2]);
  }

  /** The parts of a match are well formed. */
  lemma PartsAreWellFormed(t: Template, s: string, c: Cut)
    requires IsTail(t, s, c)
    ensures WellFormed(PartsOf(t, s, c))
  {
    StateIsCodeOrEmpty(t, s, c);
    CityHasNoComma(t, s, c);
    DigitsOfSlice(s, c.zipStart, PartsOf(t, s, c).zip);
  }

  /** The five characters from `lo` on, taken as a slice, are digits. */
  lemma DigitsOfSlice(s: string, lo: nat, zip: string)
    requires lo + 5 <= |s| && AllIn(s, lo, lo + 5, IsDigit) && zip == s[lo..lo + 5]
    ensures |zip| == 5 && forall k :: 0 <= k < 5 ==> IsDigit(zip[k])
  {
  }

  /** `extract_address_parts`: the first of the three patterns that matches
      decides; with none, the whole text is the street address. */
  function ExtractAddressParts(s: string): (p: AddressParts)
    ensures p.zip == "" ==> p == AddressParts(s, "", "", "")
    ensures p.zip != "" ==> WellFormed(p)
  {
    match Match(UnitTemplate, s)
    case Some(c) => PartsAreWellFormed(UnitTemplate, s, c); PartsOf(UnitTemplate, s, c)
    case None =>
      match Match(PlainTemplate, s)
      case Some(c) => PartsAreWellFormed(PlainTemplate, s, c); PartsOf(PlainTemplate, s, c)
      case None =>
        match Match(StateNameTemplate, s)
        case Some(c) => PartsAreWellFormed(StateNameTemplate, s, c); PartsOf(StateNameTemplate, s, c)
        case None => AddressParts(s, "", "", "")
  }

  // ---------------------------------------------------------------------------
  // Properties of extraction
  // ---------------------------------------------------------------------------

  /** Every match of the second pattern is a match of the first one, with
      `#?` matching nothing, and gives the same parts. */
  lemma PlainMatchIsUnitMatch(s: string, c: Cut)
    requires IsCut(PlainTemplate, s, c)
    ensures IsCut(UnitTemplate, s, c)
    ensures PartsOf(PlainTemplate, s, c) == PartsOf(UnitTemplate, s, c)
  {
  }

  /** The second pattern never decides: whenever it would be tried, the first
      one has already failed, and then the second fails too. */
  lemma PlainTemplateNeverDecides(s: string)
    ensures Matches(PlainTemplate, s) ==> Matches(UnitTemplate, s)
    ensures Match(UnitTemplate, s).None? ==> Match(PlainTemplate, s).None?
  {
    forall c | IsCut(PlainTemplate, s, c)
      ensures IsCut(UnitTemplate, s, c)
    {
      PlainMatchIsUnitMatch(s, c);
    }
    MatchIsLeftmostCut(UnitTemplate, s);
    MatchIsLeftmostCut(PlainTemplate, s);
  }

  /** `extract_address_parts` in terms of the patterns alone: the parts come
      from the leftmost match of the first pattern if there is one, else from
      the leftmost match of the third, else the text is the street address. */
  lemma ExtractFollowsFirstMatchingTemplate(s: string)
    ensures Matches(UnitTemplate, s) ==>
      forall c :: Leftmost(UnitTemplate, s, c) ==> ExtractAddressParts(s) == PartsOf(UnitTemplate, s, c)
    ensures !Matches(UnitTemplate, s) && Matches(StateNameTemplate, s) ==>
      forall c :: Leftmost(StateNameTemplate, s, c) ==> ExtractAddressParts(s) == PartsOf(StateNameTemplate, s, c)
    ensures !Matches(UnitTemplate, s) && !Matches(StateNameTemplate, s) ==>
      ExtractAddressParts(s) == AddressParts(s, "", "", "")
  {
    MatchIsLeftmostCut(UnitTemplate, s);
    PlainTemplateNeverDecides(s);
    MatchIsLeftmostCut(StateNameTemplate, s);
  }

  /** The fallback is taken exactly when neither the first nor the third
      pattern matches; it is the only outcome with an empty ZIP. */
  lemma FallbackOnlyWhenNothingMatches(s: string)
    ensures ExtractAddressParts(s).zip == "" <==> !Matches(UnitTemplate, s) && !Matches(StateNameTemplate, s)
  {
    MatchIsLeftmostCut(UnitTemplate, s);
    PlainTemplateNeverDecides(s);
    MatchIsLeftmostCut(StateNameTemplate, s);
  }

  /** The receipt step refuses a state that is empty or not two characters
      long; the state of a split address fails that test only when it is
      empty. */
  lemma SplitStateFailsOnlyWhenEmpty(s: string)
    ensures var state := ExtractAddressParts(s).state;
      (state == "" || |state| != 2) <==> state == ""
  {
  }

  /** An empty address splits into four empty strings. */
  lemma EmptyAddressGivesEmptyParts()
    ensures ExtractAddressParts("") == AddressParts("", "", "", "")
  {
    assert Match(UnitTemplate, "").None?;
    assert Match(PlainTemplate, "").None?;
    assert Match(StateNameTemplate, "").None?;
  }

  // ---------------------------------------------------------------------------
  // Text after the ZIP is ignored
  // ---------------------------------------------------------------------------

  /** Between the first comma and the end of the ZIP, the only comma of a
      match is the second one. */
  lemma NoOtherCommaInside(t: Template, s: string, c: Cut, k: nat)
    requires IsTail(t, s, c) && c.comma1 < k < c.zipStart + 5 && k != c.comma2
    ensures s[k] != ','
  {
    if k < c.cityStart - 1 {
      assert IsSpace(s[k]);
    } else if c.comma2 < k < c.stateStart || c.stateEnd <= k < c.zipStart {
      assert IsSpace(s[k]);
    } else if c.stateStart <= k < c.stateEnd {
      assert IsLetterOrSpace(s[k]);
    } else if c.zipStart <= k {
      assert IsDigit(s[k]);
    } else if c.cityStart <= k {
      assert IsWordOrSpace(s[k]);
    }
  }

  /** A match of `s` is a match of `s + x`. */
  lemma CutExtends(t: Template, s: string, x: string, c: Cut)
    requires IsCut(t, s, c)
    ensures IsCut(t, s + x, c)
  {
    assert forall k :: 0 <= k < |s| ==> (s + x)[k] == s[k];
  }

  lemma SliceOfExtended(s: string, x: string, lo: nat, hi: nat)
    requires lo <= hi <= |s|
    ensures (s + x)[lo..hi] == s[lo..hi]
  {
  }

  /** ... and gives the same parts there. */
  lemma PartsExtend(t: Template, s: string, x: string, c: Cut)
    requires Ordered(s, c)
    ensures Ordered(s + x, c) && PartsOf(t, s + x, c) == PartsOf(t, s, c)
  {
    SliceOfExtended(s, x, 0, c.comma1);
    SliceOfExtended(s, x, c.cityStart, c.comma2);
    SliceOfExtended(s, x, c.stateStart, c.stateEnd);
    SliceOfExtended(s, x, c.zipStart, c.zipStart + 5);
  }

  /** A match of `s + x` that ends inside `s` is a match of `s`. */
  lemma CutRestricts(t: Template, s: string, x: string, c: Cut)
    requires IsCut(t, s + x, c) && c.zipStart + 5 <= |s|
    ensures IsCut(t, s, c)
  {
    assert forall k :: 0 <= k < |s| ==> (s + x)[k] == s[k];
  }

  /** A match of `s + x` whose first comma comes before that of a match of `s`
      ends inside `s`: its tail would otherwise have to hold one of the two
      commas of the later match. */
  lemma EarlierCutEndsInside(t: Template, s: string, x: string, c: Cut, d: Cut)
    requires IsCut(t, s, c) && IsCut(t, s + x, d) && d.comma1 < c.comma1
    ensures d.zipStart + 5 <= |s|
  {
    var sx := s + x;
    assert sx[c.comma1] == ',' && sx[c.comma2] == ',';
    if c.comma1 < d.zipStart + 5 {
      if c.comma1 != d.comma2 {
        NoOtherCommaInside(t, sx, d, c.comma1);
      } else if c.comma2 < d.zipStart + 5 {
        NoOtherCommaInside(t, sx, d, c.comma2);
      }
    }
  }

  /** Appending text after a match changes neither where `re.match` matches
      nor the parts it gives. */
  lemma MatchIgnoresTrailingText(t: Template, s: string, x: string)
    requires Match(t, s).Some?
    ensures Match(t, s + x).Some?
    ensures PartsOf(t, s + x, Match(t, s + x).value) == PartsOf(t, s, Match(t, s).value)
  {
    var c := Match(t, s).value;
    CutExtends(t, s, x, c);
    MatchIsLeftmostCut(t, s + x);
    var d := Match(t, s + x).value;
    if d.comma1 < c.comma1 {
      EarlierCutEndsInside(t, s, x, c, d);
      CutRestricts(t, s, x, d);
      MatchIsLeftmostCut(t, s);
    } else {
      CutsAtOneCommaAgree(t, s + x, c, d);
      PartsExtend(t, s, x, c);
    }
  }

  /** Once the first pattern matches an address, whatever follows it (a
      country, a note) does not change the result. */
  lemma ExtractIgnoresTrailingText(s: string, x: string)
    requires Matches(UnitTemplate, s)
    ensures ExtractAddressParts(s + x) == ExtractAddressParts(s)
  {
    MatchIsLeftmostCut(UnitTemplate, s);
    MatchIgnoresTrailingText(UnitTemplate, s, x);
  }

  // ---------------------------------------------------------------------------
  // Formatting and splitting back
  // ---------------------------------------------------------------------------

  /** A street address with no comma or line break, a city of word
      characters and spaces and five digits, none with whitespace at either
      end, and a state field without a comma. */
  predicate CleanParts(p: AddressParts) {
    && |p.address1| > 0 && ',' !in p.address1 && '\n' !in p.address1 && Unpadded(p.address1)
    && |p.city| > 0 && AllIn(p.city, 0, |p.city|, IsWordOrSpace) && Unpadded(p.city)
    && |p.state| > 0 && ',' !in p.state
    && |p.zip| == 5 && AllIn(p.zip, 0, 5, IsDigit)
  }

  /** Clean parts with a two-letter state code: what the first pattern is
      written for. */
  predicate Splittable(p: AddressParts) {
    CleanParts(p) && |p.state| == 2 && IsUpper(p.state[0]) && IsUpper(p.state[1])
  }

  /** Clean parts with a state written out, as every name of the state table
      is: letters and spaces, starting and ending with a letter, the second
      character not a capital. */
  predicate SplittableByName(p: AddressParts) {
    && CleanParts(p) && |p.state| >= 2 && AllIn(p.state, 0, |p.state|, IsLetterOrSpace)
    && Unpadded(p.state) && !IsUpper(p.state[1])
  }

  /** The one-line form "street, city, state 12345". */
  function FormatAddress(p: AddressParts): (s: string)
    ensures |s| == |p.address1| + |p.city| + |p.state| + |p.zip| + 5
  {
    p.address1 + ", " + p.city + ", " + p.state + " " + p.zip
  }

  /** Where the groups fall in a formatted address when each group is
      exactly its part. */
  function FormattedCut(p: AddressParts): Cut {
    var n, m, k := |p.address1|, |p.city|, |p.state|;
    Cut(n, n + 2, n + 2 + m, n + 4 + m, n + 4 + m + k, n + 5 + m + k)
  }

  /** The pieces of a formatted address sit where `FormattedCut` says. */
  lemma FormattedPieces(p: AddressParts)
    requires CleanParts(p)
    ensures var s, c := FormatAddress(p), FormattedCut(p);
      && Ordered(s, c) && |s| == c.zipStart + 5
      && s[..c.comma1] == p.address1
      && s[c.comma1] == ',' && s[c.comma1 + 1] == ' '
      && s[c.cityStart..c.comma2] == p.city
      && s[c.comma2] == ',' && s[c.comma2 + 1] == ' '
      && s[c.stateStart..c.stateEnd] == p.state
      && s[c.stateEnd] == ' '
      && s[c.zipStart..c.zipStart + 5] == p.zip
  {
    var n, m, k := |p.address1|, |p.city|, |p.state|;
    var s := FormatAddress(p);
    var head := p.address1 + ", " + p.city + ", " + p.state + " ";
    assert s == head + p.zip;
    assert s[..n] == p.address1;
    assert s[n + 2..n + 2 + m] == p.city;
    assert s[n + 4 + m..n + 4 + m + k] == p.state;
    assert s[n + 5 + m + k..] == p.zip;
  }

  /** Parts laid out as "street, city, state 12345" at the positions of `c`
      make `c` a match of pattern `t` when group 3 of `t` accepts the state. */
  lemma PiecesMakeCut(t: Template, s: string, c: Cut, p: AddressParts)
    requires CleanParts(p) && Ordered(s, c)
    requires c.cityStart == c.comma1 + 2 && c.stateStart == c.comma2 + 2 && c.zipStart == c.stateEnd + 1
    requires s[..c.comma1] == p.address1
    requires s[c.comma1] == ',' && s[c.comma1 + 1] == ' '
    requires s[c.cityStart..c.comma2] == p.city
    requires s[c.comma2] == ',' && s[c.comma2 + 1] == ' '
    requires s[c.stateStart..c.stateEnd] == p.state && s[c.stateEnd] == ' '
    requires s[c.zipStart..c.zipStart + 5] == p.zip
    requires StateGroup(t, s, c.stateStart, c.stateEnd)
    ensures IsCut(t, s, c)
  {
    assert AllIn(p.address1, 0, |p.address1|, NotNewline);
    AllInOfSlice(s, 0, c.comma1, p.address1, NotNewline);
    AllInOfSlice(s, c.cityStart, c.comma2, p.city, IsWordOrSpace);
    AllInOfSlice(s, c.zipStart, c.zipStart + 5, p.zip, IsDigit);
  }

  /** A formatted address matches the first pattern at its first comma when
      its state is a code, ... */
  lemma FormattedIsCodeCut(p: AddressParts)
    requires Splittable(p)
    ensures IsCut(UnitTemplate, FormatAddress(p), FormattedCut(p))
  {
    var s, c := FormatAddress(p), FormattedCut(p);
    FormattedPieces(p);
    assert s[c.stateStart] == p.state[0] && s[c.stateStart + 1] == p.state[1];
    PiecesMakeCut(UnitTemplate, s, c, p);
  }

  /** ... and the third pattern there when its state is written out. */
  lemma FormattedIsNameCut(p: AddressParts)
    requires SplittableByName(p)
    ensures IsCut(StateNameTemplate, FormatAddress(p), FormattedCut(p))
  {
    var s, c := FormatAddress(p), FormattedCut(p);
    FormattedPieces(p);
    AllInOfSlice(s, c.stateStart, c.stateEnd, p.state, IsLetterOrSpace);
    PiecesMakeCut(StateNameTemplate, s, c, p);
  }

  /** The only commas of a formatted address are the two it was given. */
  lemma FormattedCommas(p: AddressParts, i: nat)
    requires CleanParts(p) && i < |FormatAddress(p)| && FormatAddress(p)[i] == ','
    ensures i == FormattedCut(p).comma1 || i == FormattedCut(p).comma2
  {
    var s, c := FormatAddress(p), FormattedCut(p);
    FormattedPieces(p);
  }

  /** Every match of a formatted address, with any pattern, ends group 1 and
      group 2 at the two commas it was given. */
  lemma FormattedCutsShareCommas(t: Template, p: AddressParts, d: Cut)
    requires CleanParts(p) && IsCut(t, FormatAddress(p), d)
    ensures d.comma1 == FormattedCut(p).comma1 && d.comma2 == FormattedCut(p).comma2
  {
    FormattedCommas(p, d.comma1);
    FormattedCommas(p, d.comma2);
  }

  /** The match at the street's end is the one `re.match` picks. */
  lemma FormattedIsLeftmost(t: Template, p: AddressParts)
    requires CleanParts(p) && IsCut(t, FormatAddress(p), FormattedCut(p))
    ensures Leftmost(t, FormatAddress(p), FormattedCut(p))
  {
    forall d | IsCut(t, FormatAddress(p), d)
      ensures FormattedCut(p).comma1 <= d.comma1
    {
      FormattedCutsShareCommas(t, p, d);
    }
  }

  /** A match of the first pattern in a formatted address takes the two
      characters that start the state as the code. */
  lemma CodeCutReadsStateStart(p: AddressParts, d: Cut)
    requires CleanParts(p) && !IsSpace(p.state[0]) && IsCut(UnitTemplate, FormatAddress(p), d)
    ensures |p.state| >= 2 && IsUpper(p.state[1])
  {
    var s, c := FormatAddress(p), FormattedCut(p);
    FormattedCutsShareCommas(UnitTemplate, p, d);
    FormattedPieces(p);
    assert s[c.stateStart] == p.state[0];
    CodeAfterOneSpace(s, d);
    assert s[c.stateStart + 1] == p.state[1];
  }

  /** When one space and then a non-space follow the second comma, the code
      group of the first pattern starts at that non-space. */
  lemma CodeAfterOneSpace(s: string, d: Cut)
    requires IsTail(UnitTemplate, s, d) && d.comma2 + 2 < |s|
    requires s[d.comma2 + 1] == ' ' && !IsSpace(s[d.comma2 + 2])
    ensures d.stateStart == d.comma2 + 2 && IsUpper(s[d.comma2 + 3])
  {
  }

  /** With the state written out, the first pattern finds no match. */
  lemma NamedStateMissesCodePattern(p: AddressParts)
    requires SplittableByName(p)
    ensures !Matches(UnitTemplate, FormatAddress(p))
  {
    forall d | IsCut(UnitTemplate, FormatAddress(p), d)
      ensures false
    {
      CodeCutReadsStateStart(p, d);
    }
  }

  /** The groups of the formatted match, stripped, are the parts themselves
      (the state field as the pattern's group 3 reports it). */
  lemma CleanGroupsAreParts(t: Template, s: string, c: Cut, p: AddressParts)
    requires Ordered(s, c) && Unpadded(p.address1) && Unpadded(p.city) && Unpadded(p.state)
    requires s[..c.comma1] == p.address1 && s[c.cityStart..c.comma2] == p.city
    requires s[c.stateStart..c.stateEnd] == p.state && s[c.zipStart..c.zipStart + 5] == p.zip
    ensures PartsOf(t, s, c) == AddressParts(p.address1, p.city, StateOf(t, p.state), p.zip)
  {
    StripOfClean(p.address1);
    StripOfClean(p.city);
    StripOfClean(p.state);
  }

  /** Splitting "street, ST 12345"-style text gives back its parts. */
  lemma SplitFormattedAddress(p: AddressParts)
    requires Splittable(p)
    ensures ExtractAddressParts(FormatAddress(p)) == p
  {
    var s, c := FormatAddress(p), FormattedCut(p);
    FormattedIsCodeCut(p);
    FormattedIsLeftmost(UnitTemplate, p);
    FormattedPieces(p);
    CleanGroupsAreParts(UnitTemplate, s, c, p);
    MatchIsLeftmostCut(UnitTemplate, s);
  }

  /** Splitting text with the state written out gives back the street, city
      and ZIP, and the state's code, or the empty string for a name the state
      table does not hold. */
  lemma SplitFormattedNamedAddress(p: AddressParts)
    requires SplittableByName(p)
    ensures var q := ExtractAddressParts(FormatAddress(p));
      && q.address1 == p.address1 && q.city == p.city && q.zip == p.zip
      && (StateAbbr(p.state).Some? ==> q.state == StateAbbr(p.state).value)
      && (StateAbbr(p.state).None? ==> q.state == "")
  {
    var s, c := FormatAddress(p), FormattedCut(p);
    FormattedIsNameCut(p);
    FormattedIsLeftmost(StateNameTemplate, p);
    NamedStateMissesCodePattern(p);
    FormattedPieces(p);
    CleanGroupsAreParts(StateNameTemplate, s, c, p);
    ExtractFollowsFirstMatchingTemplate(s);
  }
}
