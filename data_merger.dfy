/** The hotel reconciliation fold of src/utils/dataMerger.ts: every supplier
    record is normalised into a `Hotel`, then folded into a dictionary keyed by
    id, where a second record for an id is merged field by field. */
module DataMerger {
  import opened JsSemantics
  import opened Sequences
  import opened HotelInterfaces

  // ---------------------------------------------------------------------
  // Supplier records: the `any` values `mergeHotelData` receives. Every
  // field the code reads is here under its supplier key; a field that is
  // missing is None.
  // ---------------------------------------------------------------------

  datatype RawLocation = RawLocation(
    lat: Option<Num>,
    lng: Option<Num>,
    address: Option<string>,
    city: Option<string>,
    country: Option<string>)

  /** `amenities` is either a flat list or an object with `general`/`room` lists. */
  datatype RawAmenities =
    | AmenityList(items: seq<string>)
    | AmenityGroups(general: Option<seq<string>>, room: Option<seq<string>>)

  datatype RawImages = RawImages(
    rooms: Option<seq<Image>>,
    site: Option<seq<Image>>,
    amenities: Option<seq<Image>>)

  datatype RawHotel = RawHotel(
    id: Option<string>, Id: Option<string>, hotel_id: Option<string>,
    destination_id: Option<Num>, DestinationId: Option<Num>, destination: Option<Num>,
    name: Option<string>, Name: Option<string>, hotel_name: Option<string>,
    lat: Option<Num>, Latitude: Option<Num>,
    lng: Option<Num>, Longitude: Option<Num>,
    address: Option<string>, Address: Option<string>,
    City: Option<string>, Country: Option<string>, PostalCode: Option<string>,
    location: Option<RawLocation>,
    description: Option<string>, Description: Option<string>, details: Option<string>,
    amenities: Option<RawAmenities>, Facilities: Option<seq<string>>,
    images: Option<RawImages>,
    booking_conditions: Option<seq<string>>)

  // ---------------------------------------------------------------------
  // Normaliser (dataMerger.ts:8-54)
  // ---------------------------------------------------------------------

  /** `hotel.location`, read through `?.`: a missing object yields missing fields. */
  function LocationOf(raw: RawHotel): RawLocation {
    if raw.location.Some? then raw.location.value else RawLocation(None, None, None, None, None)
  }

  /** A location string or description after normalisation: null, or a
      non-empty trimmed string. */
  predicate NullOrTrimmed(s: Option<string>) {
    s.None? || (s.value != "" && IsTrimmed(s.value))
  }

  predicate AllTrimmed(xs: seq<string>) {
    forall i :: 0 <= i < |xs| ==> IsTrimmed(xs[i])
  }

  /** `Array.isArray(hotel.amenities?.general)` */
  predicate HasGeneralGroup(raw: RawHotel) {
    raw.amenities.Some? && raw.amenities.value.AmenityGroups? && raw.amenities.value.general.Some?
  }

  /** `Array.isArray(hotel.amenities?.room)` */
  predicate HasRoomGroup(raw: RawHotel) {
    raw.amenities.Some? && raw.amenities.value.AmenityGroups? && raw.amenities.value.room.Some?
  }

  /** `Array.isArray(hotel.amenities)` */
  predicate HasAmenityList(raw: RawHotel) {
    raw.amenities.Some? && raw.amenities.value.AmenityList?
  }

  /** The general amenity list: `amenities.general`, else `Facilities`, else a
      flat `amenities` list, else empty; every entry trimmed. */
  function GeneralAmenities(raw: RawHotel): (r: seq<string>)
    ensures AllTrimmed(r)
    ensures HasGeneralGroup(raw) ==> r == TrimAll(raw.amenities.value.general.value)
    ensures !HasGeneralGroup(raw) && raw.Facilities.Some? ==> r == TrimAll(raw.Facilities.value)
    ensures (!HasGeneralGroup(raw) && raw.Facilities.None? && HasAmenityList(raw)) ==>
      r == TrimAll(raw.amenities.value.items)
    ensures (!HasGeneralGroup(raw) && raw.Facilities.None? && !HasAmenityList(raw)) ==> r == []
  {
    if HasGeneralGroup(raw) then
      TrimAll(raw.amenities.value.general.value)
    else if raw.Facilities.Some? then
      TrimAll(raw.Facilities.value)
    else if HasAmenityList(raw) then
      TrimAll(raw.amenities.value.items)
    else []
  }

  /** The room amenity list: `amenities.room` trimmed, else empty. */
  function RoomAmenities(raw: RawHotel): (r: seq<string>)
    ensures AllTrimmed(r)
    ensures HasRoomGroup(raw) ==> r == TrimAll(raw.amenities.value.room.value)
    ensures !HasRoomGroup(raw) ==> r == []
  {
    if HasRoomGroup(raw) then
      TrimAll(raw.amenities.value.room.value)
    else []
  }

  /** `hotel.images`, read through `?.`. */
  function ImagesOf(raw: RawHotel): RawImages {
    if raw.images.Some? then raw.images.value else RawImages(None, None, None)
  }

  /** `list || []`: image lists are passed through as supplied. */
  function OrEmpty(list: Option<seq<Image>>): seq<Image> {
    if list.Some? then list.value else []
  }

  /** `hotel.id || hotel.Id || hotel.hotel_id`: the first truthy alias, else
      whatever `hotel_id` holds, even nothing. */
  function IdOf(raw: RawHotel): (r: Option<string>)
    ensures StrTruthy(raw.id) ==> r == raw.id
    ensures !StrTruthy(raw.id) && StrTruthy(raw.Id) ==> r == raw.Id
    ensures !StrTruthy(raw.id) && !StrTruthy(raw.Id) ==> r == raw.hotel_id
  {
    Or(Or(raw.id, raw.Id, StrTruthy), raw.hotel_id, StrTruthy)
  }

  /** `hotel.destination_id || hotel.DestinationId || hotel.destination`: 0 and
      NaN fall through like absence. */
  function DestinationOf(raw: RawHotel): (r: Option<Num>)
    ensures NumTruthy(raw.destination_id) ==> r == raw.destination_id
    ensures !NumTruthy(raw.destination_id) && NumTruthy(raw.DestinationId) ==> r == raw.DestinationId
    ensures !NumTruthy(raw.destination_id) && !NumTruthy(raw.DestinationId) ==> r == raw.destination
  {
    Or(Or(raw.destination_id, raw.DestinationId, NumTruthy), raw.destination, NumTruthy)
  }

  /** `hotel.name?.trim() || hotel.Name?.trim() || hotel.hotel_name?.trim()`:
      an alias of blanks falls through to the next one. */
  function NameOf(raw: RawHotel): (r: Option<string>)
    ensures r.Some? ==> IsTrimmed(r.value)
    ensures StrTruthy(TrimOpt(raw.name)) ==> r == TrimOpt(raw.name)
    ensures !StrTruthy(TrimOpt(raw.name)) && StrTruthy(TrimOpt(raw.Name)) ==> r == TrimOpt(raw.Name)
    ensures !StrTruthy(TrimOpt(raw.name)) && !StrTruthy(TrimOpt(raw.Name)) ==> r == TrimOpt(raw.hotel_name)
  {
    Or(Or(TrimOpt(raw.name), TrimOpt(raw.Name), StrTruthy), TrimOpt(raw.hotel_name), StrTruthy)
  }

  /** `hotel.lat || hotel.Latitude || hotel.location?.lat || null`: a zero
      latitude counts as missing. */
  function LatOf(raw: RawHotel): (r: Option<Num>)
    ensures r.None? || NumTruthy(r)
    ensures NumTruthy(raw.lat) ==> r == raw.lat
    ensures !NumTruthy(raw.lat) && NumTruthy(raw.Latitude) ==> r == raw.Latitude
    ensures (!NumTruthy(raw.lat) && !NumTruthy(raw.Latitude) && NumTruthy(LocationOf(raw).lat)) ==> r == LocationOf(raw).lat
    ensures (!NumTruthy(raw.lat) && !NumTruthy(raw.Latitude) && !NumTruthy(LocationOf(raw).lat)) ==> r.None?
  {
    Or(Or(Or(raw.lat, raw.Latitude, NumTruthy), LocationOf(raw).lat, NumTruthy),
       None, NumTruthy)
  }

  /** `hotel.lng || hotel.Longitude || hotel.location?.lng || null` */
  function LngOf(raw: RawHotel): (r: Option<Num>)
    ensures r.None? || NumTruthy(r)
    ensures NumTruthy(raw.lng) ==> r == raw.lng
    ensures !NumTruthy(raw.lng) && NumTruthy(raw.Longitude) ==> r == raw.Longitude
    ensures (!NumTruthy(raw.lng) && !NumTruthy(raw.Longitude) && NumTruthy(LocationOf(raw).lng)) ==> r == LocationOf(raw).lng
    ensures (!NumTruthy(raw.lng) && !NumTruthy(raw.Longitude) && !NumTruthy(LocationOf(raw).lng)) ==> r.None?
  {
    Or(Or(Or(raw.lng, raw.Longitude, NumTruthy), LocationOf(raw).lng, NumTruthy),
       None, NumTruthy)
  }

  /** `hotel.address?.trim() || hotel.Address?.trim() || hotel.location?.address?.trim() || null` */
  function AddressOf(raw: RawHotel): (r: Option<string>)
    ensures NullOrTrimmed(r)
    ensures StrTruthy(TrimOpt(raw.address)) ==> r == TrimOpt(raw.address)
    ensures !StrTruthy(TrimOpt(raw.address)) && StrTruthy(TrimOpt(raw.Address)) ==> r == TrimOpt(raw.Address)
    ensures (!StrTruthy(TrimOpt(raw.address)) && !StrTruthy(TrimOpt(raw.Address)) &&
             StrTruthy(TrimOpt(LocationOf(raw).address))) ==> r == TrimOpt(LocationOf(raw).address)
    ensures (!StrTruthy(TrimOpt(raw.address)) && !StrTruthy(TrimOpt(raw.Address)) &&
             !StrTruthy(TrimOpt(LocationOf(raw).address))) ==> r.None?
  {
    Or(Or(Or(TrimOpt(raw.address), TrimOpt(raw.Address), StrTruthy),
          TrimOpt(LocationOf(raw).address), StrTruthy),
       None, StrTruthy)
  }

  /** `hotel.City?.trim() || hotel.location?.city?.trim() || null` */
  function CityOf(raw: RawHotel): (r: Option<string>)
    ensures NullOrTrimmed(r)
    ensures StrTruthy(TrimOpt(raw.City)) ==> r == TrimOpt(raw.City)
    ensures !StrTruthy(TrimOpt(raw.City)) && StrTruthy(TrimOpt(LocationOf(raw).city)) ==>
      r == TrimOpt(LocationOf(raw).city)
    ensures !StrTruthy(TrimOpt(raw.City)) && !StrTruthy(TrimOpt(LocationOf(raw).city)) ==> r.None?
  {
    Or(Or(TrimOpt(raw.City), TrimOpt(LocationOf(raw).city), StrTruthy), None, StrTruthy)
  }

  /** `hotel.Country?.trim() || hotel.location?.country?.trim() || null` */
  function CountryOf(raw: RawHotel): (r: Option<string>)
    ensures NullOrTrimmed(r)
    ensures StrTruthy(TrimOpt(raw.Country)) ==> r == TrimOpt(raw.Country)
    ensures !StrTruthy(TrimOpt(raw.Country)) && StrTruthy(TrimOpt(LocationOf(raw).country)) ==>
      r == TrimOpt(LocationOf(raw).country)
    ensures !StrTruthy(TrimOpt(raw.Country)) && !StrTruthy(TrimOpt(LocationOf(raw).country)) ==> r.None?
  {
    Or(Or(TrimOpt(raw.Country), TrimOpt(LocationOf(raw).country), StrTruthy), None, StrTruthy)
  }

  /** `hotel.PostalCode?.trim() || null` */
  function PostalCodeOf(raw: RawHotel): (r: Option<string>)
    ensures NullOrTrimmed(r)
    ensures StrTruthy(TrimOpt(raw.PostalCode)) ==> r == TrimOpt(raw.PostalCode)
    ensures !StrTruthy(TrimOpt(raw.PostalCode)) ==> r.None?
  {
    Or(TrimOpt(raw.PostalCode), None, StrTruthy)
  }

  /** The first of `description`, `Description`, `details` that is non-empty
      after trimming, else null. */
  function DescriptionOf(raw: RawHotel): (r: Option<string>)
    ensures NullOrTrimmed(r)
    ensures StrTruthy(TrimOpt(raw.description)) ==> r == TrimOpt(raw.description)
    ensures !StrTruthy(TrimOpt(raw.description)) && StrTruthy(TrimOpt(raw.Description)) ==>
      r == TrimOpt(raw.Description)
    ensures (!StrTruthy(TrimOpt(raw.description)) && !StrTruthy(TrimOpt(raw.Description)) &&
             StrTruthy(TrimOpt(raw.details))) ==> r == TrimOpt(raw.details)
    ensures (!StrTruthy(TrimOpt(raw.description)) && !StrTruthy(TrimOpt(raw.Description)) &&
             !StrTruthy(TrimOpt(raw.details))) ==> r.None?
  {
    Or(Or(Or(TrimOpt(raw.description), TrimOpt(raw.Description), StrTruthy),
          TrimOpt(raw.details), StrTruthy),
       None, StrTruthy)
  }

  /** The `trimmedHotel` literal built from one supplier record. */
  function Normalize(raw: RawHotel): Hotel {
    Hotel(
      id := IdOf(raw),
      destinationId := DestinationOf(raw),
      name := NameOf(raw),
      location := Location(LatOf(raw), LngOf(raw), AddressOf(raw), CityOf(raw),
                           CountryOf(raw), PostalCodeOf(raw)),
      description := DescriptionOf(raw),
      amenities := Amenities(general := GeneralAmenities(raw), room := RoomAmenities(raw)),
      images := Images(
        rooms := OrEmpty(ImagesOf(raw).rooms),
        site := OrEmpty(ImagesOf(raw).site),
        amenities := OrEmpty(ImagesOf(raw).amenities)),
      bookingConditions :=
        if raw.booking_conditions.Some? then TrimAll(raw.booking_conditions.value) else [])
  }

  /** What a normalised record looks like: strings trimmed, empty strings and
      falsy coordinates turned into null, lists present even when the supplier
      sent none. */
  lemma NormalizedShape(raw: RawHotel)
    ensures var h := Normalize(raw);
      && (h.name.Some? ==> IsTrimmed(h.name.value))
      && (h.location.lat.None? || NumTruthy(h.location.lat))
      && (h.location.lng.None? || NumTruthy(h.location.lng))
      && NullOrTrimmed(h.location.address) && NullOrTrimmed(h.location.city)
      && NullOrTrimmed(h.location.country) && NullOrTrimmed(h.location.postalCode)
      && NullOrTrimmed(h.description)
      && AllTrimmed(h.amenities.general) && AllTrimmed(h.amenities.room)
      && AllTrimmed(h.bookingConditions)
  {
  }

  // ---------------------------------------------------------------------
  // normalizeAmenity (dataMerger.ts:148-154)
  // ---------------------------------------------------------------------

  /** No lower-case letter is directly followed by an upper-case one. */
  predicate NoCamelBoundary(s: string) {
    forall i :: 0 <= i < |s| - 1 ==> !(IsAsciiLower(s[i]) && IsAsciiUpper(s[i + 1]))
  }

  predicate NotSpace(c: char) { c != ' ' }

  /** `.replace(/([a-z])([A-Z])/g, "$1 $2")`: scanning left to right, each
      match consumes the pair and the scan resumes after it. */
  function SplitCamelCase(s: string): (r: string)
    ensures |s| > 0 ==> |r| > 0 && r[0] == s[0]
    ensures NoCamelBoundary(r)
    ensures NoAsciiUpper(s) ==> r == s
    ensures |s| <= 1 ==> r == s
    decreases |s|
  {
    if |s| >= 2 && IsAsciiLower(s[0]) && IsAsciiUpper(s[1]) then
      [s[0], ' ', s[1]] + SplitCamelCase(s[2..])
    else if s == [] then []
    else [s[0]] + SplitCamelCase(s[1..])
  }

  /** Only spaces are inserted: dropping the spaces from both sides gives the
      same string, so no letter is lost, added or moved. */
  lemma {:induction false} SplitCamelCaseKeepsLetters(s: string)
    ensures Filter(SplitCamelCase(s), NotSpace) == Filter(s, NotSpace)
    decreases |s|
  {
    if |s| >= 2 && IsAsciiLower(s[0]) && IsAsciiUpper(s[1]) {
      SplitCamelCaseKeepsLetters(s[2..]);
      SplitPairKeepsLetters(s, SplitCamelCase(s[2..]));
    } else if s != [] {
      SplitCamelCaseKeepsLetters(s[1..]);
      CopyKeepsLetters(s, SplitCamelCase(s[1..]));
    }
  }

  /** `a` ends in a lower-case letter and `b` starts with an upper-case one, so
      gluing them makes a camel-case boundary. */
  predicate JoinsCamel(a: string, b: string) {
    a != [] && b != [] && IsAsciiLower(a[|a| - 1]) && IsAsciiUpper(b[0])
  }

  /** Splitting a concatenation splits each part and puts one space where the
      two meet at a boundary; nothing else is inserted, dropped or moved. */
  lemma {:induction false} SplitCamelCaseAppend(a: string, b: string)
    ensures SplitCamelCase(a + b)
         == SplitCamelCase(a) + (if JoinsCamel(a, b) then " " else "") + SplitCamelCase(b)
    decreases |a|
  {
    if a == [] {
      assert a + b == b;
    } else if |a| == 1 {
      SplitOneThenRest(a[0], b);
      assert a == [a[0]];
    } else if IsAsciiLower(a[0]) && IsAsciiUpper(a[1]) {
      SplitCamelCaseAppend(a[2..], b);
      SplitPairThenRest(a, b);
    } else {
      SplitCamelCaseAppend(a[1..], b);
      SplitCopyThenRest(a, b);
    }
  }

  /** The one-character case of `SplitCamelCaseAppend`. */
  lemma SplitOneThenRest(c: char, b: string)
    ensures SplitCamelCase([c] + b)
         == [c] + (if JoinsCamel([c], b) then " " else "") + SplitCamelCase(b)
  {
    if b != [] {
      var cb := [c] + b;
      assert cb[0] == c && cb[1] == b[0];
      if JoinsCamel([c], b) {
        assert cb[2..] == b[1..];
        assert SplitCamelCase(b) == [b[0]] + SplitCamelCase(b[1..]);
      } else {
        assert cb[1..] == b;
      }
    } else {
      assert [c] + b == [c];
    }
  }

  /** The step of `SplitCamelCaseAppend` where `a` opens with a boundary pair. */
  lemma SplitPairThenRest(a: string, b: string)
    requires |a| >= 2 && IsAsciiLower(a[0]) && IsAsciiUpper(a[1])
    requires SplitCamelCase(a[2..] + b)
          == SplitCamelCase(a[2..]) + (if JoinsCamel(a[2..], b) then " " else "") + SplitCamelCase(b)
    ensures SplitCamelCase(a + b)
         == SplitCamelCase(a) + (if JoinsCamel(a, b) then " " else "") + SplitCamelCase(b)
  {
    DropAppend(a, b, 2);
    assert (a + b)[0] == a[0] && (a + b)[1] == a[1];
    if |a| > 2 {
      JoinsCamelDrop(a, b, 2);
    }
    SplitPairUnfold(a + b);
    SplitPairUnfold(a);
    var gap: string := if JoinsCamel(a, b) then " " else "";
    ConcatRegroup([a[0], ' ', a[1]], SplitCamelCase(a[2..]), gap, SplitCamelCase(b));
  }

  lemma SplitPairUnfold(s: string)
    requires |s| >= 2 && IsAsciiLower(s[0]) && IsAsciiUpper(s[1])
    ensures SplitCamelCase(s) == [s[0], ' ', s[1]] + SplitCamelCase(s[2..])
  {
  }

  /** The step of `SplitCamelCaseAppend` where `a`'s first character is copied. */
  lemma SplitCopyThenRest(a: string, b: string)
    requires |a| >= 2 && !(IsAsciiLower(a[0]) && IsAsciiUpper(a[1]))
    requires SplitCamelCase(a[1..] + b)
          == SplitCamelCase(a[1..]) + (if JoinsCamel(a[1..], b) then " " else "") + SplitCamelCase(b)
    ensures SplitCamelCase(a + b)
         == SplitCamelCase(a) + (if JoinsCamel(a, b) then " " else "") + SplitCamelCase(b)
  {
    DropAppend(a, b, 1);
    assert (a + b)[0] == a[0] && (a + b)[1] == a[1];
    JoinsCamelDrop(a, b, 1);
    SplitCopyUnfold(a + b);
    SplitCopyUnfold(a);
    var gap: string := if JoinsCamel(a, b) then " " else "";
    ConcatRegroup([a[0]], SplitCamelCase(a[1..]), gap, SplitCamelCase(b));
  }

  lemma SplitCopyUnfold(s: string)
    requires |s| >= 1 && !(|s| >= 2 && IsAsciiLower(s[0]) && IsAsciiUpper(s[1]))
    ensures SplitCamelCase(s) == [s[0]] + SplitCamelCase(s[1..])
  {
  }

  /** Dropping a non-empty prefix of `a` does not change how it meets `b`. */
  lemma JoinsCamelDrop(a: string, b: string, k: nat)
    requires k < |a|
    ensures JoinsCamel(a[k..], b) == JoinsCamel(a, b)
  {
    assert a[k..][|a| - k - 1] == a[|a| - 1];
  }


  lemma SplitPairKeepsLetters(s: string, rest: string)
    requires |s| >= 2 && s[0] != ' ' && s[1] != ' '
    requires Filter(rest, NotSpace) == Filter(s[2..], NotSpace)
    ensures Filter([s[0], ' ', s[1]] + rest, NotSpace) == Filter(s, NotSpace)
  {
    var a, b, tail := s[0], s[1], s[2..];
    var withB := [b] + rest;
    var withSpace := [' '] + withB;
    SplitPairShape(s, rest);
    FilterCons(a, withSpace, NotSpace);
    FilterCons(' ', withB, NotSpace);
    FilterCons(b, rest, NotSpace);
    FilterCons(b, tail, NotSpace);
    FilterCons(a, [b] + tail, NotSpace);
  }

  /** The two ways the pair step's input and output are taken apart. */
  lemma SplitPairShape(s: string, rest: string)
    requires |s| >= 2
    ensures s == [s[0]] + ([s[1]] + s[2..])
    ensures [s[0], ' ', s[1]] + rest == [s[0]] + ([' '] + ([s[1]] + rest))
  {
  }

  lemma CopyKeepsLetters(s: string, rest: string)
    requires |s| >= 1
    requires Filter(rest, NotSpace) == Filter(s[1..], NotSpace)
    ensures Filter([s[0]] + rest, NotSpace) == Filter(s, NotSpace)
  {
    HeadTail(s);
    FilterCons(s[0], rest, NotSpace);
    FilterCons(s[0], s[1..], NotSpace);
  }

  /** What `[\s-]` matches. */
  predicate IsSeparator(c: char) {
    IsWhitespace(c) || c == '-'
  }

  predicate NoDoubleHyphen(s: string) {
    forall i :: 0 <= i < |s| - 1 ==> !(s[i] == '-' && s[i + 1] == '-')
  }

  /** Drops the maximal run of separators at the front. */
  function SkipSeparators(s: string): (r: string)
    ensures |r| <= |s| && r == s[|s| - |r|..]
    ensures r != [] ==> !IsSeparator(r[0])
    decreases |s|
  {
    if s != [] && IsSeparator(s[0]) then SkipSeparators(s[1..]) else s
  }

  /** `.replace(/[\s-]+/g, "-")`: each maximal run of whitespace and hyphens
      becomes one hyphen. */
  function CollapseSeparators(s: string): (r: string)
    ensures NoWhitespace(r) && NoDoubleHyphen(r)
    ensures (r != [] && r[0] == '-') <==> (s != [] && IsSeparator(s[0]))
    decreases |s|
  {
    if s == [] then []
    else if IsSeparator(s[0]) then
      var tail := CollapseSeparators(SkipSeparators(s[1..]));
      assert tail == [] || tail[0] != '-';
      "-" + tail
    else
      var tail := CollapseSeparators(s[1..]);
      [s[0]] + tail
  }

  predicate NotSeparator(c: char) { !IsSeparator(c) }

  /** Skipping a run of separators loses nothing but separators. */
  lemma {:induction false} SkipSeparatorsKeepsText(s: string)
    ensures Filter(SkipSeparators(s), NotSeparator) == Filter(s, NotSeparator)
    decreases |s|
  {
    if s != [] && IsSeparator(s[0]) {
      SkipSeparatorsKeepsText(s[1..]);
      HeadTail(s);
      FilterCons(s[0], s[1..], NotSeparator);
    }
  }

  /** Only separators are dropped or inserted: with every whitespace character
      and hyphen removed, the input and the result are the same string. */
  lemma {:induction false} CollapseSeparatorsKeepsText(s: string)
    ensures Filter(CollapseSeparators(s), NotSeparator) == Filter(s, NotSeparator)
    decreases |s|
  {
    if s != [] {
      HeadTail(s);
      FilterCons(s[0], s[1..], NotSeparator);
      if IsSeparator(s[0]) {
        var rest := SkipSeparators(s[1..]);
        CollapseSeparatorsKeepsText(rest);
        SkipSeparatorsKeepsText(s[1..]);
        FilterCons('-', CollapseSeparators(rest), NotSeparator);
      } else {
        CollapseSeparatorsKeepsText(s[1..]);
        FilterCons(s[0], CollapseSeparators(s[1..]), NotSeparator);
      }
    }
  }

  predicate AllSeparators(s: string) {
    forall i :: 0 <= i < |s| ==> IsSeparator(s[i])
  }

  /** A run of separators is skipped entirely. */
  lemma {:induction false} SkipAll(s: string)
    requires AllSeparators(s)
    ensures SkipSeparators(s) == []
    decreases |s|
  {
    if s != [] {
      assert AllSeparators(s[1..]) by {
        forall i | 0 <= i < |s| - 1 ensures IsSeparator(s[1..][i]) {
          assert s[1..][i] == s[i + 1];
        }
      }
      SkipAll(s[1..]);
    }
  }

  /** Skipping past a run of separators into what follows it. */
  lemma {:induction false} SkipAllAppend(x: string, y: string)
    requires SkipSeparators(x) == []
    ensures SkipSeparators(x + y) == SkipSeparators(y)
    decreases |x|
  {
    if x == [] {
      assert x + y == y;
    } else {
      DropAppend(x, y, 1);
      assert (x + y)[0] == x[0];
      SkipAllAppend(x[1..], y);
    }
  }

  /** When skipping stops inside `x`, what follows `x` is kept whole. */
  lemma {:induction false} SkipAppend(x: string, y: string)
    requires SkipSeparators(x) != []
    ensures SkipSeparators(x + y) == SkipSeparators(x) + y
    decreases |x|
  {
    DropAppend(x, y, 1);
    assert (x + y)[0] == x[0];
    if IsSeparator(x[0]) {
      SkipAppend(x[1..], y);
    }
  }

  /** A string skipped entirely ends with a separator. */
  lemma {:induction false} SkipAllEndsInSeparator(s: string)
    requires s != [] && SkipSeparators(s) == []
    ensures IsSeparator(s[|s| - 1])
    decreases |s|
  {
    if |s| > 1 {
      SkipAllEndsInSeparator(s[1..]);
      assert s[1..][|s| - 2] == s[|s| - 1];
    }
  }

  /** A non-empty run made only of separators becomes a single hyphen. */
  lemma CollapseRun(s: string)
    requires s != [] && AllSeparators(s)
    ensures CollapseSeparators(s) == "-"
  {
    assert AllSeparators(s[1..]) by {
      forall i | 0 <= i < |s| - 1 ensures IsSeparator(s[1..][i]) {
        assert s[1..][i] == s[i + 1];
      }
    }
    SkipAll(s[1..]);
  }

  /** Collapsing works piece by piece when the cut does not fall inside a run
      of separators: each word keeps its characters and each run between
      words becomes one hyphen. */
  lemma {:induction false} CollapseAppend(x: string, y: string)
    requires x == [] || y == [] || !IsSeparator(x[|x| - 1]) || !IsSeparator(y[0])
    ensures CollapseSeparators(x + y) == CollapseSeparators(x) + CollapseSeparators(y)
    decreases |x|
  {
    if x == [] {
      assert x + y == y;
    } else if y == [] {
      assert x + y == x;
    } else if !IsSeparator(x[0]) {
      CollapseAppend(x[1..], y);
      CollapseWordThenRest(x, y);
    } else if SkipSeparators(x[1..]) == [] {
      assert !IsSeparator(y[0]) by {
        if |x| > 1 {
          SkipAllEndsInSeparator(x[1..]);
          assert x[1..][|x| - 2] == x[|x| - 1];
        }
      }
      CollapseRunThenWord(x, y);
    } else {
      var rest := SkipSeparators(x[1..]);
      assert rest[|rest| - 1] == x[|x| - 1];
      CollapseAppend(rest, y);
      CollapseRunThenRest(x, y);
    }
  }

  lemma CollapseCopyUnfold(s: string)
    requires s != [] && !IsSeparator(s[0])
    ensures CollapseSeparators(s) == [s[0]] + CollapseSeparators(s[1..])
  {
  }

  lemma CollapseRunUnfold(s: string, rest: string)
    requires s != [] && IsSeparator(s[0]) && SkipSeparators(s[1..]) == rest
    ensures CollapseSeparators(s) == "-" + CollapseSeparators(rest)
  {
  }

  lemma SkipNothing(s: string)
    requires s == [] || !IsSeparator(s[0])
    ensures SkipSeparators(s) == s
  {
  }

  /** The step of `CollapseAppend` where `x` opens with a word character. */
  lemma CollapseWordThenRest(x: string, y: string)
    requires x != [] && !IsSeparator(x[0])
    requires CollapseSeparators(x[1..] + y) == CollapseSeparators(x[1..]) + CollapseSeparators(y)
    ensures CollapseSeparators(x + y) == CollapseSeparators(x) + CollapseSeparators(y)
  {
    DropAppend(x, y, 1);
    assert (x + y)[0] == x[0];
    CollapseCopyUnfold(x + y);
    CollapseCopyUnfold(x);
    SplitAfterPrefix(CollapseSeparators(x + y), CollapseSeparators(x),
      [x[0]], CollapseSeparators(x[1..]), CollapseSeparators(y));
  }

  /** The step of `CollapseAppend` where `x` is one run of separators and `y`
      opens with a word character. */
  lemma CollapseRunThenWord(x: string, y: string)
    requires x != [] && y != [] && IsSeparator(x[0]) && SkipSeparators(x[1..]) == []
    requires !IsSeparator(y[0])
    ensures CollapseSeparators(x + y) == CollapseSeparators(x) + CollapseSeparators(y)
  {
    DropAppend(x, y, 1);
    assert (x + y)[0] == x[0];
    SkipAllAppend(x[1..], y);
    SkipNothing(y);
    CollapseRunUnfold(x + y, y);
    CollapseRunUnfold(x, []);
    assert CollapseSeparators([]) + CollapseSeparators(y) == CollapseSeparators(y);
    SplitAfterPrefix(CollapseSeparators(x + y), CollapseSeparators(x),
      "-", CollapseSeparators([]), CollapseSeparators(y));
  }

  /** The step of `CollapseAppend` where `x` opens with a run of separators
      followed by more words. */
  lemma CollapseRunThenRest(x: string, y: string)
    requires x != [] && IsSeparator(x[0]) && SkipSeparators(x[1..]) != []
    requires CollapseSeparators(SkipSeparators(x[1..]) + y)
          == CollapseSeparators(SkipSeparators(x[1..])) + CollapseSeparators(y)
    ensures CollapseSeparators(x + y) == CollapseSeparators(x) + CollapseSeparators(y)
  {
    var rest := SkipSeparators(x[1..]);
    DropAppend(x, y, 1);
    assert (x + y)[0] == x[0];
    SkipAppend(x[1..], y);
    CollapseRunUnfold(x + y, rest + y);
    CollapseRunUnfold(x, rest);
    SplitAfterPrefix(CollapseSeparators(x + y), CollapseSeparators(x),
      "-", CollapseSeparators(rest), CollapseSeparators(y));
  }

  /** Collapsing introduces only hyphens, so no upper-case letter appears. */
  lemma {:induction false} CollapseKeepsNoUpper(s: string)
    requires NoAsciiUpper(s)
    ensures NoAsciiUpper(CollapseSeparators(s))
    decreases |s|
  {
    if s != [] {
      if IsSeparator(s[0]) {
        var rest := SkipSeparators(s[1..]);
        assert forall i :: 0 <= i < |rest| ==> rest[i] == s[1..][|s| - 1 - |rest| + i];
        CollapseKeepsNoUpper(rest);
      } else {
        CollapseKeepsNoUpper(s[1..]);
      }
    }
  }

  /** A string with no whitespace and no "--" is left as it is. */
  lemma {:induction false} CollapseFixesClean(s: string)
    requires NoWhitespace(s) && NoDoubleHyphen(s)
    ensures CollapseSeparators(s) == s
    decreases |s|
  {
    if s != [] {
      if IsSeparator(s[0]) {
        if |s| > 1 {
          assert !IsSeparator(s[1]);
        }
        assert SkipSeparators(s[1..]) == s[1..];
      }
      CollapseFixesClean(s[1..]);
    }
  }

  /** `normalizeAmenity`: split camel case, lower-case, trim, collapse
      separators into single hyphens. */
  function NormalizeAmenity(amenity: string): (r: string)
    ensures NoAsciiUpper(r)
    ensures NoWhitespace(r)
    ensures NoDoubleHyphen(r)
  {
    var trimmed := Trim(ToLowerAscii(SplitCamelCase(amenity)));
    TrimIsSlice(ToLowerAscii(SplitCamelCase(amenity)));
    assert NoAsciiUpper(trimmed);
    CollapseKeepsNoUpper(trimmed);
    CollapseSeparators(trimmed)
  }

  /** A normalised amenity is a fixed point, so normalising twice is
      normalising once. */
  lemma NormalizeAmenityIdempotent(amenity: string)
    ensures NormalizeAmenity(NormalizeAmenity(amenity)) == NormalizeAmenity(amenity)
  {
    var n := NormalizeAmenity(amenity);
    assert IsTrimmed(n);
    CollapseFixesClean(n);
  }

  /** The strings normalisation leaves alone are exactly those with no ASCII
      capital, no whitespace and no "--". */
  lemma NormalizeAmenityFixedPoint(s: string)
    ensures NormalizeAmenity(s) == s <==> NoAsciiUpper(s) && NoWhitespace(s) && NoDoubleHyphen(s)
  {
    if NoAsciiUpper(s) && NoWhitespace(s) && NoDoubleHyphen(s) {
      assert SplitCamelCase(s) == s;
      assert ToLowerAscii(s) == s;
      assert IsTrimmed(s);
      CollapseFixesClean(s);
    }
  }

  predicate AllNormalized(xs: seq<string>) {
    forall i :: 0 <= i < |xs| ==> NormalizeAmenity(xs[i]) == xs[i]
  }

  /** `xs.map(normalizeAmenity)` */
  function NormalizeAll(xs: seq<string>): (r: seq<string>)
    ensures |r| == |xs|
    ensures AllNormalized(r)
    ensures AllNormalized(xs) ==> r == xs
  {
    var r := seq(|xs|, i requires 0 <= i < |xs| => NormalizeAmenity(xs[i]));
    assert AllNormalized(r) by {
      forall i | 0 <= i < |r| ensures NormalizeAmenity(r[i]) == r[i] {
        NormalizeAmenityIdempotent(xs[i]);
      }
    }
    r
  }

  // ---------------------------------------------------------------------
  // List merges (dataMerger.ts:71-105, 133-146)
  // ---------------------------------------------------------------------

  /** No string occurs twice: distinct keys under the identity key. */
  predicate NoDuplicates(xs: seq<string>) {
    DistinctKeys(xs, Identity)
  }

  /** `Array.from(new Set([...a, ...b]))` on strings: a `Set` iterates in
      insertion order, so the result is the concatenation with every entry
      kept only where it first occurs. */
  function SetUnion(a: seq<string>, b: seq<string>): (r: seq<string>)
    ensures r == KeepFirstOccurrences(a + b, Identity, |a + b|)
    ensures NoDuplicates(r)
    ensures forall x :: x in r <==> x in a || x in b
    ensures IsSubsequence(r, a + b)
  {
    var both := a + b;
    assert both[..|both|] == both;
    KeepFirstOccurrencesIsUnique(both, Identity, |both|);
    var r := Unique(both, Identity);
    UniqueSpec(both, Identity);
    assert forall x :: x in both ==> x in r by {
      forall x | x in both ensures x in r {
        var i :| 0 <= i < |both| && both[i] == x;
        assert HasKey(r, Identity, Identity(both[i]));
      }
    }
    r
  }

  /** Set union keeps what was there first in front, in its order. */
  lemma SetUnionKeepsExistingFirst(a: seq<string>, b: seq<string>)
    ensures |SetUnion(a, [])| <= |SetUnion(a, b)|
    ensures SetUnion(a, b)[..|SetUnion(a, [])|] == SetUnion(a, [])
    ensures NoDuplicates(a) ==> SetUnion(a, []) == a
  {
    UniquePrefix(a, b, Identity);
    assert a + [] == a;
    if NoDuplicates(a) {
      UniqueOfDistinct(a, Identity);
    }
  }

  /** Union with a list whose entries are all present already changes nothing,
      provided the list has no duplicates. */
  lemma SetUnionAbsorbs(a: seq<string>, b: seq<string>)
    requires NoDuplicates(a)
    requires forall x :: x in b ==> x in a
    ensures SetUnion(a, b) == a
  {
    forall i | 0 <= i < |b| ensures HasKey(a, Identity, Identity(b[i])) {
      assert b[i] in b;
      var j :| 0 <= j < |a| && a[j] == b[i];
    }
    UniqueAbsorbs(a, b, Identity);
    UniqueOfDistinct(a, Identity);
  }

  /** The amenity merge: the union of the normalised forms of both lists, each
      normalised amenity placed where it first occurs, stored entries first. */
  function MergeAmenities(existing: seq<string>, incoming: seq<string>): (r: seq<string>)
    ensures var both := NormalizeAll(existing) + NormalizeAll(incoming);
      r == KeepFirstOccurrences(both, Identity, |both|)
    ensures NoDuplicates(r) && AllNormalized(r)
    ensures forall x :: x in r <==> x in NormalizeAll(existing) || x in NormalizeAll(incoming)
  {
    var a, b := NormalizeAll(existing), NormalizeAll(incoming);
    var r := SetUnion(a, b);
    assert AllNormalized(r) by {
      forall i | 0 <= i < |r| ensures NormalizeAmenity(r[i]) == r[i] {
        assert r[i] in a || r[i] in b;
      }
    }
    r
  }

  /** Whatever comes in, the merge starts with the stored list merged on its
      own (normalised, duplicates dropped, in order); once the stored list is
      duplicate-free and normalised (after any earlier merge) that prefix is the
      stored list itself. */
  lemma MergeAmenitiesKeepsExistingFirst(existing: seq<string>, incoming: seq<string>)
    ensures |MergeAmenities(existing, [])| <= |MergeAmenities(existing, incoming)|
    ensures MergeAmenities(existing, incoming)[..|MergeAmenities(existing, [])|] == MergeAmenities(existing, [])
    ensures NoDuplicates(existing) && AllNormalized(existing) ==> MergeAmenities(existing, []) == existing
  {
    assert NormalizeAll([]) == [];
    SetUnionKeepsExistingFirst(NormalizeAll(existing), NormalizeAll(incoming));
  }

  /** `mergeImageArrays`: keep an image only where its (link, description)
      pair first occurs in the concatenation. */
  function MergeImageArrays(arr1: seq<Image>, arr2: seq<Image>): (r: seq<Image>)
    ensures r == Unique(arr1 + arr2, ImageKey)
    ensures DistinctKeys(r, ImageKey)
    ensures forall i :: 0 <= i < |arr1 + arr2| ==> HasKey(r, ImageKey, ImageKey((arr1 + arr2)[i]))
    ensures IsSubsequence(r, arr1 + arr2)
  {
    var combined := arr1 + arr2;
    KeepFirstOccurrencesIsUnique(combined, ImageKey, |combined|);
    UniqueSpec(combined, ImageKey);
    assert combined[..|combined|] == combined;
    KeepFirstOccurrences(combined, ImageKey, |combined|)
  }

  /** Images sent as `{url, caption}` have neither `link` nor `description`,
      so they all share one key and a merge keeps only the first. */
  lemma UrlCaptionImagesCollide(first: Image, second: Image)
    requires first.link.None? && first.description.None?
    requires second.link.None? && second.description.None?
    ensures MergeImageArrays([first], [second]) == [first]
  {
    var both := [first] + [second];
    assert both[..1] == [first] && both[..1][..0] == [];
    assert Unique(both[..1], ImageKey) == [first];
    assert HasKey([first], ImageKey, ImageKey(second));
  }

  /** Images already in the first list keep their place in front. */
  lemma MergeImageArraysKeepsExistingFirst(arr1: seq<Image>, arr2: seq<Image>)
    requires DistinctKeys(arr1, ImageKey)
    ensures |arr1| <= |MergeImageArrays(arr1, arr2)|
    ensures MergeImageArrays(arr1, arr2)[..|arr1|] == arr1
  {
    UniquePrefix(arr1, arr2, ImageKey);
    UniqueOfDistinct(arr1, ImageKey);
  }

  // ---------------------------------------------------------------------
  // Merging a second record into the stored one (dataMerger.ts:59-125)
  // ---------------------------------------------------------------------

  /** The list invariants a merge establishes: no duplicate amenities, all
      amenities normalised, no two images with one (link, description) pair,
      no duplicate booking conditions. */
  predicate Reconciled(h: Hotel) {
    && NoDuplicates(h.amenities.general) && AllNormalized(h.amenities.general)
    && NoDuplicates(h.amenities.room) && AllNormalized(h.amenities.room)
    && DistinctKeys(h.images.rooms, ImageKey)
    && DistinctKeys(h.images.site, ImageKey)
    && DistinctKeys(h.images.amenities, ImageKey)
    && NoDuplicates(h.bookingConditions)
  }

  /** The description rule: the incoming description replaces the stored one
      only when it is non-empty and the stored one is missing or shorter. */
  function LongerDescription(existing: Option<string>, incoming: Option<string>): (d: Option<string>)
    ensures d == existing || d == incoming
    ensures Len(d) >= Len(existing) && Len(d) >= Len(incoming)
    ensures Len(incoming) <= Len(existing) ==> d == existing
    ensures Len(incoming) > Len(existing) ==> d == incoming
  {
    if StrTruthy(incoming) && (!StrTruthy(existing) || Utf16Length(incoming.value) > Utf16Length(existing.value)) then incoming
    else existing
  }

  /** Lengths are UTF-16 lengths: two emoji (four code units) outweigh a
      three-letter description, though they are only two code points. */
  lemma TwoEmojiOutweighThreeLetters()
    ensures LongerDescription(Some("abc"), Some("\U{1F600}\U{1F600}")) == Some("\U{1F600}\U{1F600}")
  {
    var e := "\U{1F600}\U{1F600}";
    assert IsAstral(e[0]) && IsAstral(e[1]);
    assert !IsAstral("abc"[0]) && !IsAstral("abc"[1]) && !IsAstral("abc"[2]);
  }

  /** Location fields are filled only where the stored value is falsy. */
  function FillLocation(existing: Location, incoming: Location): Location {
    Location(
      lat := if NumTruthy(existing.lat) then existing.lat else incoming.lat,
      lng := if NumTruthy(existing.lng) then existing.lng else incoming.lng,
      address := if StrTruthy(existing.address) then existing.address else incoming.address,
      city := if StrTruthy(existing.city) then existing.city else incoming.city,
      country := if StrTruthy(existing.country) then existing.country else incoming.country,
      postalCode := if StrTruthy(existing.postalCode) then existing.postalCode else incoming.postalCode)
  }

  function MergeAmenityGroups(existing: Amenities, incoming: Amenities): (r: Amenities)
    ensures NoDuplicates(r.general) && AllNormalized(r.general)
    ensures NoDuplicates(r.room) && AllNormalized(r.room)
  {
    Amenities(
      general := MergeAmenities(existing.general, incoming.general),
      room := MergeAmenities(existing.room, incoming.room))
  }

  function MergeImageGroups(existing: Images, incoming: Images): (r: Images)
    ensures DistinctKeys(r.rooms, ImageKey) && DistinctKeys(r.site, ImageKey)
    ensures DistinctKeys(r.amenities, ImageKey)
  {
    Images(
      rooms := MergeImageArrays(existing.rooms, incoming.rooms),
      site := MergeImageArrays(existing.site, incoming.site),
      amenities := MergeImageArrays(existing.amenities, incoming.amenities))
  }

  /** The record the merge branch leaves in the dictionary. */
  function Merged(existing: Hotel, incoming: Hotel): (m: Hotel)
    ensures m.id == existing.id && m.name == existing.name
    ensures m.destinationId == existing.destinationId
    ensures m.description == existing.description || m.description == incoming.description
    ensures Len(m.description) >= Len(existing.description)
    ensures Len(m.description) >= Len(incoming.description)
  {
    Hotel(
      id := existing.id,
      destinationId := existing.destinationId,
      name := existing.name,
      location := FillLocation(existing.location, incoming.location),
      description := LongerDescription(existing.description, incoming.description),
      amenities := MergeAmenityGroups(existing.amenities, incoming.amenities),
      images := MergeImageGroups(existing.images, incoming.images),
      bookingConditions := SetUnion(existing.bookingConditions, incoming.bookingConditions))
  }

  /** After a merge no list holds a duplicate and every amenity is normalised. */
  lemma MergedIsReconciled(existing: Hotel, incoming: Hotel)
    ensures Reconciled(Merged(existing, incoming))
  {
    var a := MergeAmenityGroups(existing.amenities, incoming.amenities);
    var g := MergeImageGroups(existing.images, incoming.images);
    var b := SetUnion(existing.bookingConditions, incoming.bookingConditions);
    assert NoDuplicates(a.general) && AllNormalized(a.general);
    assert NoDuplicates(a.room) && AllNormalized(a.room);
    assert DistinctKeys(g.rooms, ImageKey) && DistinctKeys(g.site, ImageKey);
    assert DistinctKeys(g.amenities, ImageKey) && NoDuplicates(b);
  }

  /** Location fields are first-truthy-writer-wins: a truthy stored value is
      kept; a falsy one is overwritten by the incoming value, falsy or not. */
  lemma MergedFillsLocation(existing: Hotel, incoming: Hotel)
    ensures var m, e, i := Merged(existing, incoming).location, existing.location, incoming.location;
      && (NumTruthy(e.lat) ==> m.lat == e.lat) && (!NumTruthy(e.lat) ==> m.lat == i.lat)
      && (NumTruthy(e.lng) ==> m.lng == e.lng) && (!NumTruthy(e.lng) ==> m.lng == i.lng)
      && (StrTruthy(e.address) ==> m.address == e.address) && (!StrTruthy(e.address) ==> m.address == i.address)
      && (StrTruthy(e.city) ==> m.city == e.city) && (!StrTruthy(e.city) ==> m.city == i.city)
      && (StrTruthy(e.country) ==> m.country == e.country) && (!StrTruthy(e.country) ==> m.country == i.country)
      && (StrTruthy(e.postalCode) ==> m.postalCode == e.postalCode)
      && (!StrTruthy(e.postalCode) ==> m.postalCode == i.postalCode)
  {
  }

  lemma ImagesAbsorb(a: seq<Image>, b: seq<Image>)
    ensures MergeImageArrays(MergeImageArrays(a, b), b) == MergeImageArrays(a, b)
  {
    var u := MergeImageArrays(a, b);
    forall i | 0 <= i < |b| ensures HasKey(u, ImageKey, ImageKey(b[i])) {
      assert b[i] == (a + b)[|a| + i];
    }
    UniqueAbsorbs(u, b, ImageKey);
    UniqueOfDistinct(u, ImageKey);
  }

  lemma AmenitiesAbsorb(existing: Amenities, incoming: Amenities)
    ensures var m := MergeAmenityGroups(existing, incoming);
      MergeAmenityGroups(m, incoming) == m
  {
    var m := MergeAmenityGroups(existing, incoming);
    SetUnionAbsorbs(m.general, NormalizeAll(incoming.general));
    SetUnionAbsorbs(m.room, NormalizeAll(incoming.room));
  }

  lemma ImageGroupsAbsorb(existing: Images, incoming: Images)
    ensures var m := MergeImageGroups(existing, incoming);
      MergeImageGroups(m, incoming) == m
  {
    ImagesAbsorb(existing.rooms, incoming.rooms);
    ImagesAbsorb(existing.site, incoming.site);
    ImagesAbsorb(existing.amenities, incoming.amenities);
  }

  lemma BookingAbsorbs(existing: seq<string>, incoming: seq<string>)
    ensures SetUnion(SetUnion(existing, incoming), incoming) == SetUnion(existing, incoming)
  {
    SetUnionAbsorbs(SetUnion(existing, incoming), incoming);
  }

  /** Merging the same record a second time changes nothing more. */
  lemma MergeAgainIsIdempotent(existing: Hotel, incoming: Hotel)
    ensures Merged(Merged(existing, incoming), incoming) == Merged(existing, incoming)
  {
    var m := Merged(existing, incoming);
    var again := Merged(m, incoming);
    assert again.description == m.description;
    assert again.location == m.location;
    assert again.amenities == m.amenities by {
      AmenitiesAbsorb(existing.amenities, incoming.amenities);
    }
    assert again.images == m.images by {
      ImageGroupsAbsorb(existing.images, incoming.images);
    }
    assert again.bookingConditions == m.bookingConditions by {
      BookingAbsorbs(existing.bookingConditions, incoming.bookingConditions);
    }
  }

  /** The merge branch as the source runs it: the stored record is updated one
      field at a time. */
  method MergeInto(existing: Hotel, incoming: Hotel) returns (hotel: Hotel)
    ensures hotel == Merged(existing, incoming)
  {
    hotel := existing;
    if StrTruthy(incoming.description) &&
       (!StrTruthy(hotel.description) ||
        Utf16Length(incoming.description.value) > Utf16Length(hotel.description.value))
    {
      hotel := hotel.(description := incoming.description);
    }
    assert hotel == existing.(description := LongerDescription(existing.description, incoming.description));
    hotel := hotel.(amenities := hotel.amenities.(
      general := MergeAmenities(hotel.amenities.general, incoming.amenities.general)));
    hotel := hotel.(amenities := hotel.amenities.(
      room := MergeAmenities(hotel.amenities.room, incoming.amenities.room)));
    assert hotel.amenities == MergeAmenityGroups(existing.amenities, incoming.amenities);
    hotel := hotel.(images := hotel.images.(
      rooms := MergeImageArrays(hotel.images.rooms, incoming.images.rooms)));
    hotel := hotel.(images := hotel.images.(
      site := MergeImageArrays(hotel.images.site, incoming.images.site)));
    hotel := hotel.(images := hotel.images.(
      amenities := MergeImageArrays(hotel.images.amenities, incoming.images.amenities)));
    hotel := hotel.(bookingConditions := SetUnion(hotel.bookingConditions, incoming.bookingConditions));
    assert hotel == Merged(existing, incoming).(location := existing.location);
    var location := hotel.location;
    if !NumTruthy(location.lat) {
      location := location.(lat := incoming.location.lat);
    }
    if !NumTruthy(location.lng) {
      location := location.(lng := incoming.location.lng);
    }
    if !StrTruthy(location.address) {
      location := location.(address := incoming.location.address);
    }
    if !StrTruthy(location.city) {
      location := location.(city := incoming.location.city);
    }
    if !StrTruthy(location.country) {
      location := location.(country := incoming.location.country);
    }
    if !StrTruthy(location.postalCode) {
      location := location.(postalCode := incoming.location.postalCode);
    }
    assert location == FillLocation(existing.location, incoming.location);
    hotel := hotel.(location := location);
  }

  // ---------------------------------------------------------------------
  // The fold over all records (dataMerger.ts:3-8, 56-59, 126-130)
  // ---------------------------------------------------------------------

  /** The dictionary key `mergedHotels[hotelId]` uses: JavaScript turns an
      `undefined` id into the property name "undefined" (a `null` one would
      become "null", a case this model does not represent). */
  function KeyOf(id: Option<string>): (k: string)
    ensures id.Some? ==> k == id.value
    ensures id.None? ==> k == "undefined"
  {
    if id.None? then "undefined" else id.value
  }

  function HotelKey(h: Hotel): string {
    KeyOf(h.id)
  }

  /** The key a supplier record is filed under. */
  function RecordKey(raw: RawHotel): string {
    KeyOf(IdOf(raw))
  }

  /** One normalised record folded in: stored as-is under a new key, merged
      into the stored record under a known key; every other entry is left
      alone. */
  function Step(table: map<string, Hotel>, hotel: Hotel): map<string, Hotel> {
    var key := HotelKey(hotel);
    if key !in table then table[key := hotel]
    else table[key := Merged(table[key], hotel)]
  }

  lemma StepCases(table: map<string, Hotel>, hotel: Hotel)
    ensures HotelKey(hotel) !in table ==> Step(table, hotel) == table[HotelKey(hotel) := hotel]
    ensures HotelKey(hotel) in table ==>
      Step(table, hotel) == table[HotelKey(hotel) := Merged(table[HotelKey(hotel)], hotel)]
  {
  }

  /** The normalised records folded in order into `table`. */
  function FoldHotels(table: map<string, Hotel>, hs: seq<Hotel>): map<string, Hotel>
    decreases |hs|
  {
    if hs == [] then table
    else Step(FoldHotels(table, hs[..|hs| - 1]), hs[|hs| - 1])
  }

  /** Exactly one entry per distinct key among the records. */
  lemma {:induction false} FoldKeys(table: map<string, Hotel>, hs: seq<Hotel>)
    ensures forall k :: k in FoldHotels(table, hs) <==> k in table || HasKey(hs, HotelKey, k)
    decreases |hs|
  {
    if hs != [] {
      var init, last := hs[..|hs| - 1], hs[|hs| - 1];
      FoldKeys(table, init);
      assert hs == init + [last];
      HasKeyAppend(init, last, HotelKey);
    }
  }

  /** A record folded in touches only the entry of its own key. */
  lemma {:induction false} FoldLeavesOtherKeys(table: map<string, Hotel>, hs: seq<Hotel>, k: string)
    requires !HasKey(hs, HotelKey, k)
    ensures k in FoldHotels(table, hs) <==> k in table
    ensures k in table ==> FoldHotels(table, hs)[k] == table[k]
    decreases |hs|
  {
    if hs != [] {
      var init := hs[..|hs| - 1];
      HasKeyAppend(init, hs[|hs| - 1], HotelKey);
      assert hs == init + [hs[|hs| - 1]];
      FoldLeavesOtherKeys(table, init, k);
    }
  }

  /** id, name and destination are never changed by a merge: the stored values
      are those of the first record with the key. */
  lemma {:induction false} FoldFirstWriterWins(table: map<string, Hotel>, hs: seq<Hotel>, k: string)
    requires k !in table && HasKey(hs, HotelKey, k)
    ensures k in FoldHotels(table, hs)
    ensures var first, stored := hs[FindIndex(hs, HotelKey, k)], FoldHotels(table, hs)[k];
      stored.id == first.id && stored.name == first.name && stored.destinationId == first.destinationId
    decreases |hs|
  {
    var init, last := hs[..|hs| - 1], hs[|hs| - 1];
    var before := FoldHotels(table, init);
    assert hs == init + [last];
    FoldKeys(table, init);
    HasKeyAppend(init, last, HotelKey);
    FindIndexAppend(init, last, HotelKey, k);
    if HasKey(init, HotelKey, k) {
      FoldFirstWriterWins(table, init, k);
      var f := FindIndex(init, HotelKey, k);
      assert hs[f] == init[f];
      StepKeepsIdentity(before, last, k);
    } else {
      StepCases(before, last);
    }
  }

  /** A step never changes the id, name or destination stored under a key. */
  lemma StepKeepsIdentity(table: map<string, Hotel>, hotel: Hotel, k: string)
    requires k in table
    ensures k in Step(table, hotel)
    ensures var old_, new_ := table[k], Step(table, hotel)[k];
      new_.id == old_.id && new_.name == old_.name && new_.destinationId == old_.destinationId
  {
    StepCases(table, hotel);
  }

  /** A hotel seen exactly once keeps its normalised record untouched,
      duplicates in its lists included. */
  lemma {:induction false} FoldSeenOnce(table: map<string, Hotel>, hs: seq<Hotel>, i: nat)
    requires i < |hs| && HotelKey(hs[i]) !in table
    requires forall j :: 0 <= j < |hs| && j != i ==> HotelKey(hs[j]) != HotelKey(hs[i])
    ensures HotelKey(hs[i]) in FoldHotels(table, hs)
    ensures FoldHotels(table, hs)[HotelKey(hs[i])] == hs[i]
    decreases |hs|
  {
    var k := HotelKey(hs[i]);
    var init := hs[..|hs| - 1];
    assert hs == init + [hs[|hs| - 1]];
    if i == |hs| - 1 {
      forall j | 0 <= j < |init| ensures HotelKey(init[j]) != k {
        assert init[j] == hs[j];
      }
      FoldLeavesOtherKeys(table, init, k);
    } else {
      assert init[i] == hs[i];
      FoldSeenOnce(table, init, i);
    }
  }

  /** Once a second record for a key has been merged, that key's lists are
      de-duplicated and its amenities normalised, whatever follows. */
  lemma {:induction false} FoldReconciles(table: map<string, Hotel>, hs: seq<Hotel>, i: nat, j: nat)
    requires i < j < |hs| && HotelKey(hs[i]) == HotelKey(hs[j])
    ensures HotelKey(hs[j]) in FoldHotels(table, hs)
    ensures Reconciled(FoldHotels(table, hs)[HotelKey(hs[j])])
    decreases |hs|
  {
    var k := HotelKey(hs[j]);
    var init, last := hs[..|hs| - 1], hs[|hs| - 1];
    var before := FoldHotels(table, init);
    assert hs == init + [last];
    FoldKeys(table, init);
    assert init[i] == hs[i];
    if j < |hs| - 1 {
      assert init[j] == hs[j];
      FoldReconciles(table, init, i, j);
    }
    StepReconciles(before, last, k);
  }

  /** A step leaves a reconciled entry reconciled, and reconciles the entry
      it merges into. */
  lemma StepReconciles(table: map<string, Hotel>, hotel: Hotel, k: string)
    requires k in table
    ensures k in Step(table, hotel)
    ensures HotelKey(hotel) == k || Reconciled(table[k]) ==> Reconciled(Step(table, hotel)[k])
  {
    StepCases(table, hotel);
    if HotelKey(hotel) == k {
      MergedIsReconciled(table[k], hotel);
    }
  }

  /** The stored description is at least as long as every description
      offered for its key. */
  lemma {:induction false} FoldKeepsLongestDescription(table: map<string, Hotel>, hs: seq<Hotel>, k: string)
    requires k in FoldHotels(table, hs)
    ensures forall i :: 0 <= i < |hs| && HotelKey(hs[i]) == k ==>
      Len(hs[i].description) <= Len(FoldHotels(table, hs)[k].description)
    ensures k in table ==> Len(table[k].description) <= Len(FoldHotels(table, hs)[k].description)
    decreases |hs|
  {
    if hs != [] {
      var init, last := hs[..|hs| - 1], hs[|hs| - 1];
      var before := FoldHotels(table, init);
      assert hs == init + [last];
      FoldKeys(table, init);
      StepKeepsLongest(before, last, k);
      if k in before {
        FoldKeepsLongestDescription(table, init, k);
        forall i | 0 <= i < |hs| - 1 ensures hs[i] == init[i] { }
      } else {
        forall i | 0 <= i < |init| ensures HotelKey(init[i]) != k {
          assert HasKey(init, HotelKey, HotelKey(init[i]));
        }
      }
    }
  }

  /** A step never shortens a stored description and stores one at least as
      long as the record it folds in. */
  lemma StepKeepsLongest(table: map<string, Hotel>, hotel: Hotel, k: string)
    requires k in Step(table, hotel)
    ensures k in table ==> Len(table[k].description) <= Len(Step(table, hotel)[k].description)
    ensures HotelKey(hotel) == k ==> Len(hotel.description) <= Len(Step(table, hotel)[k].description)
  {
    StepCases(table, hotel);
  }

  /** The suppliers' lists one after another, in supplier order. */
  function Flatten(sources: seq<seq<RawHotel>>): (rs: seq<RawHotel>)
    ensures forall r :: r in rs <==> exists s :: s in sources && r in s
    decreases |sources|
  {
    if sources == [] then []
    else
      var init := sources[..|sources| - 1];
      assert forall s :: s in sources <==> s in init || s == sources[|sources| - 1];
      Flatten(init) + sources[|sources| - 1]
  }

  /** `mergeHotelData(sources)` as a dictionary from key to record. */
  function MergeAll(sources: seq<seq<RawHotel>>): map<string, Hotel> {
    FoldHotels(map[], Map(Flatten(sources), Normalize))
  }

  /** The result holds one record per distinct id among all supplier records,
      a record with no id alias being filed under "undefined". */
  lemma MergeAllKeys(sources: seq<seq<RawHotel>>)
    ensures forall k :: k in MergeAll(sources) <==> HasKey(Flatten(sources), RecordKey, k)
  {
    var rs := Flatten(sources);
    FoldKeys(map[], Map(rs, Normalize));
    forall i | 0 <= i < |rs| ensures HotelKey(Normalize(rs[i])) == RecordKey(rs[i]) {
      NormalizeKeepsKey(rs[i]);
    }
    forall k ensures HasKey(Map(rs, Normalize), HotelKey, k) <==> HasKey(rs, RecordKey, k) {
      MapKeys(rs, Normalize, RecordKey, HotelKey, k);
    }
  }

  /** A record is filed under the key its id aliases give it. */
  lemma NormalizeKeepsKey(raw: RawHotel)
    ensures HotelKey(Normalize(raw)) == RecordKey(raw)
  {
  }

  /** Folding a concatenation folds the first part, then the second. */
  lemma {:induction false} FoldHotelsAppend(table: map<string, Hotel>, a: seq<Hotel>, b: seq<Hotel>)
    ensures FoldHotels(table, a + b) == FoldHotels(FoldHotels(table, a), b)
    decreases |b|
  {
    if b == [] {
      assert a + b == a;
    } else {
      var b' := b[..|b| - 1];
      assert (a + b)[..|a + b| - 1] == a + b';
      FoldHotelsAppend(table, a, b');
    }
  }

  /** Folding one more record of a supplier's list is one more `Step`. */
  lemma FoldOneMore(table: map<string, Hotel>, source: seq<RawHotel>, h: nat)
    requires h < |source|
    ensures FoldHotels(table, Map(source[..h + 1], Normalize))
         == Step(FoldHotels(table, Map(source[..h], Normalize)), Normalize(source[h]))
  {
    assert source[..h + 1][..h] == source[..h];
  }

  /** The `mergedHotels[hotelId]` test and its two branches for one record. */
  method MergeRecord(mergedHotels: map<string, Hotel>, hotel: RawHotel) returns (updated: map<string, Hotel>)
    ensures updated == Step(mergedHotels, Normalize(hotel))
  {
    var trimmedHotel := Normalize(hotel);
    var hotelId := KeyOf(trimmedHotel.id);
    StepCases(mergedHotels, trimmedHotel);
    if hotelId !in mergedHotels {
      updated := mergedHotels[hotelId := trimmedHotel];
    } else {
      var existingHotel := MergeInto(mergedHotels[hotelId], trimmedHotel);
      updated := mergedHotels[hotelId := existingHotel];
    }
  }

  /** `source.forEach(...)`: one supplier's records folded in order. */
  method MergeSource(mergedHotels: map<string, Hotel>, source: seq<RawHotel>) returns (updated: map<string, Hotel>)
    ensures updated == FoldHotels(mergedHotels, Map(source, Normalize))
  {
    updated := mergedHotels;
    var h := 0;
    while h < |source|
      invariant 0 <= h <= |source|
      invariant updated == FoldHotels(mergedHotels, Map(source[..h], Normalize))
    {
      updated := MergeRecord(updated, source[h]);
      FoldOneMore(mergedHotels, source, h);
      h := h + 1;
    }
    assert source[..h] == source;
  }

  /** The body of `mergeHotelData`: every supplier's list folded in supplier
      order into one dictionary. */
  method MergeHotelData(sources: seq<seq<RawHotel>>) returns (mergedHotels: map<string, Hotel>)
    ensures mergedHotels == MergeAll(sources)
    ensures forall k :: k in mergedHotels <==> HasKey(Flatten(sources), RecordKey, k)
  {
    mergedHotels := map[];
    var s := 0;
    while s < |sources|
      invariant 0 <= s <= |sources|
      invariant mergedHotels == FoldHotels(map[], Map(Flatten(sources[..s]), Normalize))
    {
      ghost var done := Flatten(sources[..s]);
      mergedHotels := MergeSource(mergedHotels, sources[s]);
      assert sources[..s + 1][..s] == sources[..s];
      MapAppend(done, sources[s], Normalize);
      FoldHotelsAppend(map[], Map(done, Normalize), Map(sources[s], Normalize));
      s := s + 1;
    }
    assert sources[..s] == sources;
    MergeAllKeys(sources);
  }

  // ---------------------------------------------------------------------
  // The dictionary lookup as written (dataMerger.ts:4, 56-59)
  // ---------------------------------------------------------------------

  /** Properties every `{}` literal inherits from `Object.prototype`. */
  const InheritedKeys: set<string> := {
    "constructor", "hasOwnProperty", "isPrototypeOf", "propertyIsEnumerable",
    "toLocaleString", "toString", "valueOf", "__proto__",
    "__defineGetter__", "__defineSetter__", "__lookupGetter__", "__lookupSetter__"}

  datatype Lookup = Own(hotel: Hotel) | Inherited | Missing

  /** `mergedHotels[hotelId]` on a dictionary created as `{}`. */
  function LookupAsWritten(table: map<string, Hotel>, key: string): Lookup {
    if key in table then Own(table[key])
    else if key in InheritedKeys then Inherited
    else Missing
  }

  datatype StepResult = Stepped(table: map<string, Hotel>) | ThrewTypeError

  /** One fold step as the source runs it: an inherited member is truthy, so
      the merge branch runs on it, and reading `.amenities.general` of a
      built-in function or of `Object.prototype` throws a TypeError. */
  function StepAsWritten(table: map<string, Hotel>, hotel: Hotel): StepResult {
    var key := HotelKey(hotel);
    match LookupAsWritten(table, key)
    case Missing => Stepped(table[key := hotel])
    case Own(existing) => Stepped(table[key := Merged(existing, hotel)])
    case Inherited => ThrewTypeError
  }

  /** As written, a record whose id names an `Object.prototype` member makes
      the whole call throw, where the own-key lookup of `Step` files it. */
  lemma InheritedKeyThrows(table: map<string, Hotel>, hotel: Hotel)
    requires HotelKey(hotel) in InheritedKeys && HotelKey(hotel) !in table
    ensures StepAsWritten(table, hotel) == ThrewTypeError
    ensures HotelKey(hotel) in Step(table, hotel)
    ensures Step(table, hotel)[HotelKey(hotel)] == hotel
  {
  }

  /** A supplier record with id "toString" is such a record. */
  lemma ToStringIdThrows(raw: RawHotel)
    requires raw.id == Some("toString")
    ensures StepAsWritten(map[], Normalize(raw)) == ThrewTypeError
    ensures Step(map[], Normalize(raw)) == map["toString" := Normalize(raw)]
  {
  }

  /** For every other key the two lookups agree. */
  lemma StepAsWrittenAgreesElsewhere(table: map<string, Hotel>, hotel: Hotel)
    requires HotelKey(hotel) in table || HotelKey(hotel) !in InheritedKeys
    ensures StepAsWritten(table, hotel) == Stepped(Step(table, hotel))
  {
  }
}
