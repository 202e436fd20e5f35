/** The product resolver: free product text to a catalog id, through two
    ordered matching tiers over an ordered catalog and a fixed fallback id. */
module Catalog {
  import opened Prelude
  import opened Text

  /** A catalog entry: (display name, catalog id). */
  type Entry = (string, string)

  /** Entry `j` of the product catalog, in dictionary insertion order,
      which decides ties. */
  function EntryAt(j: int): Entry
    requires 0 <= j < 12
  {
    match j
    case 0 => ("Openrun Pro 2 Black", "2")
    case 1 => ("Openrun Pro 2 Orange", "3")
    case 2 => ("Openrun Pro 2 Silver", "4")
    case 3 => ("Openrun Pro 2 Boston", "5")
    case 4 => ("Openswim Pro Gray", "6")
    case 5 => ("Openswim Pro Red", "7")
    case 6 => ("Opencomm USB-C", "8")
    case 7 => ("Opencomm USB-A", "9")
    case 8 => ("Garmin Index\U{2122} BPM", "10")
    case 9 => ("OpenDots One Black", "11")
    case 10 => ("Opencomm USB-C 2025", "12")
    case 11 => ("v15 Battery5", "13")
  }

  /** The product catalog. */
  function ProductMap(): (catalog: seq<Entry>)
    ensures |catalog| == 12
  {
    seq(12, EntryAt)
  }

  /** Returned when neither tier finds an entry. */
  const FallbackId: string := "1"

  // ---------------------------------------------------------------------------
  // The two tiers
  // ---------------------------------------------------------------------------

  /** Tier one: the lowercased name is in the lowercased text, or the other
      way round. */
  predicate ContainmentHit(name: string, text: string) {
    Contains(Lower(text), Lower(name)) || Contains(Lower(name), Lower(text))
  }

  /** Tier two: some whitespace-separated word of the lowercased text is in
      the lowercased name. */
  predicate TokenHit(name: string, text: string) {
    exists w :: w in Words(Lower(text)) && Contains(Lower(name), w)
  }

  /** Position `k` holds the first name of `catalog` that passes tier one. */
  predicate FirstContainment(catalog: seq<Entry>, text: string, k: nat) {
    && k < |catalog|
    && ContainmentHit(catalog[k].0, text)
    && forall j :: 0 <= j < k ==> !ContainmentHit(catalog[j].0, text)
  }

  predicate NoContainment(catalog: seq<Entry>, text: string) {
    forall j :: 0 <= j < |catalog| ==> !ContainmentHit(catalog[j].0, text)
  }

  /** Position `k` holds the first name of `catalog` that passes tier two. */
  predicate FirstToken(catalog: seq<Entry>, text: string, k: nat) {
    && k < |catalog|
    && TokenHit(catalog[k].0, text)
    && forall j :: 0 <= j < k ==> !TokenHit(catalog[j].0, text)
  }

  predicate NoToken(catalog: seq<Entry>, text: string) {
    forall j :: 0 <= j < |catalog| ==> !TokenHit(catalog[j].0, text)
  }

  // ---------------------------------------------------------------------------
  // The resolver
  // ---------------------------------------------------------------------------

  /** Resolves product text against `catalog`: the id of the first entry that
      passes tier one; failing that, of the first that passes tier two;
      failing both, the fallback id. It never fails. */
  function Resolve(catalog: seq<Entry>, text: string): (id: string)
    ensures forall k: nat :: FirstContainment(catalog, text, k) ==> id == catalog[k].1
    ensures forall k: nat :: NoContainment(catalog, text) && FirstToken(catalog, text, k) ==> id == catalog[k].1
    ensures NoContainment(catalog, text) && NoToken(catalog, text) ==> id == FallbackId
    ensures id == FallbackId || exists k :: 0 <= k < |catalog| && catalog[k].1 == id
  {
    var tierOne := FirstIndex(catalog, (e: Entry) => ContainmentHit(e.0, text));
    var tierTwo := FirstIndex(catalog, (e: Entry) => TokenHit(e.0, text));
    if tierOne.Some? then catalog[tierOne.value].1
    else if tierTwo.Some? then catalog[tierTwo.value].1
    else FallbackId
  }

  /** The resolver over the shipped catalog. */
  function FuzzyFindProduct(text: string): (id: string)
    ensures id == FallbackId || exists k :: 0 <= k < |ProductMap()| && ProductMap()[k].1 == id
  {
    Resolve(ProductMap(), text)
  }

  // ---------------------------------------------------------------------------
  // Properties
  // ---------------------------------------------------------------------------

  /** The fallback id is not the id of any catalog entry. */
  lemma FallbackIsNotACatalogId()
    ensures forall k :: 0 <= k < |ProductMap()| ==> ProductMap()[k].1 != FallbackId
  {
  }

  /** Over the shipped catalog the fallback id is returned exactly when both
      tiers fail, so it always signals an unresolved product. */
  lemma FallbackOnlyWhenBothTiersFail(text: string)
    ensures FuzzyFindProduct(text) == FallbackId
            <==> NoContainment(ProductMap(), text) && NoToken(ProductMap(), text)
  {
    FallbackIsNotACatalogId();
    var id := FuzzyFindProduct(text);
    if !NoContainment(ProductMap(), text) {
      var k := FirstIndex(ProductMap(), (e: Entry) => ContainmentHit(e.0, text)).value;
      assert FirstContainment(ProductMap(), text, k);
    } else if !NoToken(ProductMap(), text) {
      var k := FirstIndex(ProductMap(), (e: Entry) => TokenHit(e.0, text)).value;
      assert FirstToken(ProductMap(), text, k);
    }
  }

  /** The resolver only sees the lowercased text. */
  lemma ResolveIgnoresCase(catalog: seq<Entry>, text1: string, text2: string)
    requires Lower(text1) == Lower(text2)
    ensures Resolve(catalog, text1) == Resolve(catalog, text2)
  {
    var r1 := FirstIndex(catalog, (e: Entry) => ContainmentHit(e.0, text1));
    if r1.Some? {
      assert FirstContainment(catalog, text1, r1.value);
      assert FirstContainment(catalog, text2, r1.value);
    } else {
      assert NoContainment(catalog, text2);
      var t1 := FirstIndex(catalog, (e: Entry) => TokenHit(e.0, text1));
      if t1.Some? {
        assert FirstToken(catalog, text1, t1.value);
        assert FirstToken(catalog, text2, t1.value);
      } else {
        assert NoToken(catalog, text2);
      }
    }
  }

  /** The first name that passes tier one decides, whatever tier two would
      say. */
  lemma TierOneDecides(catalog: seq<Entry>, text: string, k: nat)
    requires k < |catalog| && ContainmentHit(catalog[k].0, text)
    requires forall j :: 0 <= j < k ==> !ContainmentHit(catalog[j].0, text)
    ensures Resolve(catalog, text) == catalog[k].1
  {
    assert FirstContainment(catalog, text, k);
  }

  /** The empty string is in every name, so empty text picks the first entry. */
  lemma EmptyTextPicksFirstEntry(catalog: seq<Entry>)
    requires |catalog| > 0
    ensures Resolve(catalog, "") == catalog[0].1
  {
    assert Contains(Lower(catalog[0].0), Lower(""));
    assert FirstContainment(catalog, "", 0);
  }

  /** A catalog name, in any case, resolves through tier one to its own entry
      or to an earlier one whose name it contains or is contained in. */
  lemma NameResolvesToItselfOrEarlier(catalog: seq<Entry>, k: nat)
    requires k < |catalog|
    ensures exists j :: 0 <= j <= k && FirstContainment(catalog, catalog[k].0, j)
                        && Resolve(catalog, catalog[k].0) == catalog[j].1
  {
    var text := catalog[k].0;
    assert Lower(text) <= Lower(text);
    assert ContainmentHit(catalog[k].0, text);
    var j := FirstIndex(catalog, (e: Entry) => ContainmentHit(e.0, text)).value;
    assert FirstContainment(catalog, text, j);
  }

  // ---------------------------------------------------------------------------
  // Worked examples over the shipped catalog
  // ---------------------------------------------------------------------------

  /** The first two Openrun names, lowercased, have no `w`. */
  lemma FirstOpenrunNamesLackW()
    ensures forall j :: 0 <= j < 2 ==> 'w' !in Lower(ProductMap()[j].0)
  {
    LowerLacksChar(ProductMap()[0].0, 'w');
    LowerLacksChar(ProductMap()[1].0, 'w');
  }

  /** Nor do the other two. */
  lemma OtherOpenrunNamesLackW()
    ensures forall j :: 2 <= j < 4 ==> 'w' !in Lower(ProductMap()[j].0)
  {
    LowerLacksChar(ProductMap()[2].0, 'w');
    LowerLacksChar(ProductMap()[3].0, 'w');
  }

  /** The Openrun names, lowercased, have no `w`. */
  lemma OpenrunNamesLackW()
    ensures forall j :: 0 <= j < 4 ==> 'w' !in Lower(ProductMap()[j].0)
  {
    FirstOpenrunNamesLackW();
    OtherOpenrunNamesLackW();
  }

  /** The Garmin and OpenDots names, lowercased, have no `w`. */
  lemma GarminAndOpenDotsNamesLackW()
    ensures forall j :: 8 <= j < 10 ==> 'w' !in Lower(ProductMap()[j].0)
  {
    LowerLacksChar(ProductMap()[8].0, 'w');
    LowerLacksChar(ProductMap()[9].0, 'w');
  }

  /** Three of the Openrun names, lowercased, have no `c`. */
  lemma OpenrunNamesLackC()
    ensures forall j :: 1 <= j < 4 ==> 'c' !in Lower(ProductMap()[j].0)
  {
    forall j | 1 <= j < 4
      ensures 'c' !in Lower(ProductMap()[j].0)
    {
      LowerLacksChar(ProductMap()[j].0, 'c');
    }
  }

  /** The letters of "Opencomm USB-C 2025" the examples rely on. */
  lemma UsbC2025Letters(text: string)
    requires text == "Opencomm USB-C 2025"
    ensures 'r' !in Lower(text) && 'w' !in Lower(text) && Lower(text)[4] == 'c'
  {
    UsbC2025LacksR(text);
    UsbC2025LacksW(text);
  }

  lemma UsbC2025LacksW(text: string)
    requires text == "Opencomm USB-C 2025"
    ensures 'w' !in Lower(text)
  {
    LowerLacksChar(text, 'w');
  }

  lemma UsbC2025LacksR(text: string)
    requires text == "Opencomm USB-C 2025"
    ensures 'r' !in Lower(text)
  {
    LowerLacksChar(text, 'r');
  }

  /** "Opencomm USB-C 2025" and the first six names are not in one another:
      the Openrun names hold an `r` and the Openswim names a `w`, which it
      lacks; it has the first name's length without being it, the next three
      names lack its `c`, and the last two are shorter. */
  lemma UsbC2025MissesEarlyNames(text: string)
    requires text == "Opencomm USB-C 2025"
    ensures forall j :: 0 <= j < 6 ==> !ContainmentHit(ProductMap()[j].0, text)
  {
    UsbC2025Letters(text);
    OpenrunNamesLackC();
    assert Lower(ProductMap()[0].0)[5] != Lower(text)[5];
    ContainsSameLength(Lower(ProductMap()[0].0), Lower(text));
    forall j | 0 <= j < 6
      ensures !ContainmentHit(ProductMap()[j].0, text)
    {
      if j < 4 {
        assert Lower(ProductMap()[j].0)[4] == 'r';
        NotContainedMissingChar(Lower(text), Lower(ProductMap()[j].0), 'r');
        if j > 0 {
          NotContainedMissingChar(Lower(ProductMap()[j].0), Lower(text), 'c');
        }
      } else {
        assert Lower(ProductMap()[j].0)[5] == 'w';
        NotContainedMissingChar(Lower(text), Lower(ProductMap()[j].0), 'w');
        LongerNotContained(Lower(ProductMap()[j].0), Lower(text));
      }
    }
  }

  /** Insertion order decides: the catalog name "Opencomm USB-C 2025" contains
      the earlier name "Opencomm USB-C", so it resolves to id 8 and never to
      its own id 12. */
  lemma EarlierContainedNameWins(text: string)
    requires text == "Opencomm USB-C 2025"
    ensures FuzzyFindProduct(text) == "8" != ProductMap()[10].1
  {
    var catalog := ProductMap();
    UsbC2025MissesEarlyNames(text);
    UsbC2025HoldsUsbC(text);
    TierOneDecides(catalog, text, 6);
    OpencommEntries();
  }

  /** The seventh entry is "Opencomm USB-C" with id 8, the eleventh
      "Opencomm USB-C 2025" with id 12. */
  lemma OpencommEntries()
    ensures ProductMap()[6] == ("Opencomm USB-C", "8")
    ensures ProductMap()[10] == ("Opencomm USB-C 2025", "12")
  {
  }

  /** "Opencomm USB-C" starts "Opencomm USB-C 2025", so tier one accepts it. */
  lemma UsbC2025HoldsUsbC(text: string)
    requires text == "Opencomm USB-C 2025"
    ensures ContainmentHit(ProductMap()[6].0, text)
  {
    LowerKeepsPrefix(ProductMap()[6].0, text);
  }

  /** "gray" is the catalog spelling: the Openrun names are longer than the
      text and lack its `w`, and the fifth name is the text itself. */
  lemma CatalogSpellingResolvesToOwnId(text: string)
    requires text == "openswim pro gray"
    ensures FuzzyFindProduct(text) == "6"
  {
    LowerOfLowercase(text);
    OpenrunNamesLackW();
    assert text[5] == 'w';
    forall j | 0 <= j < 4
      ensures !ContainmentHit(ProductMap()[j].0, text)
    {
      NotContainedMissingChar(Lower(ProductMap()[j].0), text, 'w');
      LongerNotContained(text, Lower(ProductMap()[j].0));
    }
    assert Lower(ProductMap()[4].0) == text;
    assert Contains(Lower(ProductMap()[4].0), text);
    assert FirstContainment(ProductMap(), text, 4);
  }

  /** No Openrun name, lowercased, is in "openswim pro grey": they are
      longer. */
  lemma GreyHoldsNoOpenrunName(text: string)
    requires text == "openswim pro grey"
    ensures forall j :: 0 <= j < 4 ==> !Contains(Lower(text), Lower(ProductMap()[j].0))
  {
    forall j | 0 <= j < 4
      ensures !Contains(Lower(text), Lower(ProductMap()[j].0))
    {
      LongerNotContained(Lower(text), Lower(ProductMap()[j].0));
    }
  }

  /** Neither Openswim name, lowercased, is in "openswim pro grey". */
  lemma GreyHoldsNoOpenswimName(text: string)
    requires text == "openswim pro grey"
    ensures forall j :: 4 <= j < 6 ==> !Contains(Lower(text), Lower(ProductMap()[j].0))
  {
    LowerOfLowercase(text);
    assert Lower(ProductMap()[4].0)[15] != text[15];
    ContainsSameLength(text, Lower(ProductMap()[4].0));
    assert Lower(ProductMap()[5].0)[15] == 'd';
    NotContainedMissingChar(text, Lower(ProductMap()[5].0), 'd');
  }

  /** None of the last six names, lowercased, is in "openswim pro grey". */
  lemma GreyHoldsNoLateName(text: string)
    requires text == "openswim pro grey"
    ensures forall j :: 6 <= j < 12 ==> !Contains(Lower(text), Lower(ProductMap()[j].0))
  {
    GreyHoldsNoOpencommOrGarmin(text);
    GreyHoldsNoOpenDotsOrBattery(text);
  }

  /** The Opencomm names hold a `c` and the Garmin name an `a`, which
      "openswim pro grey" lacks. */
  lemma GreyHoldsNoOpencommOrGarmin(text: string)
    requires text == "openswim pro grey"
    ensures forall j :: 6 <= j < 9 ==> !Contains(Lower(text), Lower(ProductMap()[j].0))
  {
    LowerOfLowercase(text);
    forall j | 6 <= j < 9
      ensures !Contains(text, Lower(ProductMap()[j].0))
    {
      var (c, k) := if j == 8 then ('a', 1) else ('c', 4);
      assert Lower(ProductMap()[j].0)[k] == c;
      NotContainedMissingChar(text, Lower(ProductMap()[j].0), c);
    }
  }

  /** The OpenDots and 2025 names are longer than "openswim pro grey", and
      the battery name holds a `v`, which it lacks. */
  lemma GreyHoldsNoOpenDotsOrBattery(text: string)
    requires text == "openswim pro grey"
    ensures forall j :: 9 <= j < 12 ==> !Contains(Lower(text), Lower(ProductMap()[j].0))
  {
    LowerOfLowercase(text);
    OpencommEntries();
    LastEntries();
    LongerNotContained(text, Lower(ProductMap()[9].0));
    LongerNotContained(text, Lower(ProductMap()[10].0));
    assert Lower(ProductMap()[11].0)[0] == 'v';
    NotContainedMissingChar(text, Lower(ProductMap()[11].0), 'v');
  }

  /** The tenth and twelfth names. */
  lemma LastEntries()
    ensures ProductMap()[9].0 == "OpenDots One Black"
    ensures ProductMap()[11].0 == "v15 Battery5"
  {
  }

  /** "openswim pro grey" is in no name, lowercased: the fifth has its length
      but one different letter, four are shorter, and the rest lack its `w`. */
  lemma GreyInNoName(text: string)
    requires text == "openswim pro grey"
    ensures forall j :: 0 <= j < 12 ==> !Contains(Lower(ProductMap()[j].0), Lower(text))
  {
    LowerOfLowercase(text);
    OpenrunNamesLackW();
    GarminAndOpenDotsNamesLackW();
    UsbC2025LacksW(ProductMap()[10].0);
    assert Lower(ProductMap()[4].0)[15] != text[15];
    ContainsSameLength(Lower(ProductMap()[4].0), text);
    assert text[5] == 'w';
    forall j | 0 <= j < 12 && j != 4
      ensures !Contains(Lower(ProductMap()[j].0), text)
    {
      if j == 5 || j == 6 || j == 7 || j == 11 {
        LongerNotContained(Lower(ProductMap()[j].0), text);
      } else {
        NotContainedMissingChar(Lower(ProductMap()[j].0), text, 'w');
      }
    }
  }

  /** "pro" occurs in the first name, lowercased. */
  lemma ProInFirstName()
    ensures Contains(Lower(ProductMap()[0].0), "pro")
  {
    assert OccursAt(Lower(ProductMap()[0].0), "pro", 8);
    ContainsIffOccurs(Lower(ProductMap()[0].0), "pro");
  }

  /** "pro", the second word of "openswim pro grey", is in the first name. */
  lemma GreyWordInFirstName(text: string)
    requires text == "openswim pro grey"
    ensures TokenHit(ProductMap()[0].0, text)
  {
    LowerOfLowercase(text);
    assert text == "openswim" + " " + "pro" + " " + "grey";
    WordsOfThree("openswim", "pro", "grey");
    assert "pro" in Words(Lower(text));
    ProInFirstName();
  }

  /** "grey" matches no name in tier one, so tier two takes the first name
      holding any of its words: "pro" is in the very first name, id 2. */
  lemma VariantSpellingFallsToTokenTier(text: string)
    requires text == "openswim pro grey"
    ensures FuzzyFindProduct(text) == "2"
  {
    GreyHoldsNoOpenrunName(text);
    GreyHoldsNoOpenswimName(text);
    GreyHoldsNoLateName(text);
    GreyInNoName(text);
    assert NoContainment(ProductMap(), text);
    GreyWordInFirstName(text);
    assert FirstToken(ProductMap(), text, 0);
  }
}
