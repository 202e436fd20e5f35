/** The time zone a receipt is stamped in, chosen from the state the address
    splitter reports. */
module Timezone {
  import opened Prelude
  import opened Address

  const Eastern: string := "America/New_York"
  const Central: string := "America/Chicago"
  const Pacific: string := "America/Los_Angeles"
  const Arizona: string := "America/Phoenix"

  /** The zone used for every state the table does not list. */
  const DefaultTimezone: string := Eastern

  /** The four zones the table and the default can produce. */
  predicate KnownZone(zone: string) {
    zone == Eastern || zone == Central || zone == Pacific || zone == Arizona
  }

  /** `STATE_TIMEZONES`: ten two-letter codes and their zones. */
  function StateTimezone(code: string): (zone: Option<string>)
    ensures zone.Some? ==> KnownZone(zone.value)
    ensures zone.Some? ==> |code| == 2
  {
    match code
    case "NY" => Some(Eastern)
    case "FL" => Some(Eastern)
    case "NJ" => Some(Eastern)
    case "GA" => Some(Eastern)
    case "OH" => Some(Eastern)
    case "IL" => Some(Central)
    case "TX" => Some(Central)
    case "CA" => Some(Pacific)
    case "WA" => Some(Pacific)
    case "AZ" => Some(Arizona)
    case _ => None
  }

  /** `STATE_TIMEZONES.get(state, "America/New_York")`: the listed zone, or
      Eastern time for any other string, the empty one included. */
  function TimezoneFor(state: string): (zone: string)
    ensures KnownZone(zone)
    ensures StateTimezone(state).Some? ==> zone == StateTimezone(state).value
    ensures StateTimezone(state).None? ==> zone == DefaultTimezone
  {
    match StateTimezone(state)
    case Some(z) => z
    case None => DefaultTimezone
  }

  /** The zone of the receipt for an address as the model of
      `generate_receipt` obtains it: split the address, then look up the
      state. */
  function ReceiptTimezone(address: string): (zone: string)
    ensures KnownZone(zone)
  {
    TimezoneFor(ExtractAddressParts(address).state)
  }

  /** Every code in the zone table is a code the state-name table produces,
      so a state the splitter converted from a full name finds its zone. */
  lemma TimezoneCodesAreStateCodes(code: string)
    requires StateTimezone(code).Some?
    ensures exists name :: StateAbbr(name) == Some(code)
  {
    var name :=
      match code
      case "NY" => "New York"
      case "FL" => "Florida"
      case "NJ" => "New Jersey"
      case "GA" => "Georgia"
      case "OH" => "Ohio"
      case "IL" => "Illinois"
      case "TX" => "Texas"
      case "CA" => "California"
      case "WA" => "Washington"
      case _ => "Arizona";
    assert StateAbbr(name) == Some(code);
  }

  /** Texas is on Central time; the empty state and a lower-case code fall
      back to Eastern time. */
  lemma TimezoneExamples()
    ensures TimezoneFor("TX") == Central
    ensures TimezoneFor("AZ") == Arizona
    ensures TimezoneFor("") == Eastern
    ensures TimezoneFor("tx") == Eastern
  {
  }

  /** An address no pattern matches has an empty state, so its receipt is
      stamped in Eastern time. */
  lemma UnsplitAddressUsesDefaultZone(address: string)
    requires !Matches(UnitTemplate, address) && !Matches(StateNameTemplate, address)
    ensures ReceiptTimezone(address) == DefaultTimezone
  {
    ExtractFollowsFirstMatchingTemplate(address);
  }

  /** The zone is not the default only when the splitter reported a state
      listed in the zone table. */
  lemma NonDefaultZoneNeedsListedState(address: string)
    ensures ReceiptTimezone(address) != DefaultTimezone ==>
      StateTimezone(ExtractAddressParts(address).state).Some? && ExtractAddressParts(address).zip != ""
  {
  }

  /** An address written "street, city, ST 12345" is stamped in the zone of
      its code. */
  lemma CodedAddressZone(p: AddressParts)
    requires Splittable(p)
    ensures ReceiptTimezone(FormatAddress(p)) == TimezoneFor(p.state)
  {
    SplitFormattedAddress(p);
  }

  /** An address with the state written out is stamped in the zone of the
      state's code, and in Eastern time when the name is not in the state
      table. */
  lemma NamedAddressZone(p: AddressParts)
    requires SplittableByName(p)
    ensures StateAbbr(p.state).Some? ==> ReceiptTimezone(FormatAddress(p)) == TimezoneFor(StateAbbr(p.state).value)
    ensures StateAbbr(p.state).None? ==> ReceiptTimezone(FormatAddress(p)) == DefaultTimezone
  {
    SplitFormattedNamedAddress(p);
  }
}
