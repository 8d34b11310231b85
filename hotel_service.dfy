/** The query step of `getMergedHotelData`: the merged list narrowed by an
    optional destination and an optional list of hotel ids. */
module HotelService {
  import opened JsSemantics
  import opened Sequences
  import opened HotelInterfaces

  /** `hotel.destinationId === destinationId`: a missing destination or NaN
      never matches. */
  predicate HasDestination(h: Hotel, destinationId: Num) {
    h.destinationId.Some? && StrictEquals(h.destinationId.value, destinationId)
  }

  /** `hotelIds.includes(hotel.id)`: a hotel without an id is never listed. */
  predicate IdListed(h: Hotel, hotelIds: seq<string>) {
    h.id.Some? && h.id.value in hotelIds
  }

  /** `if (destinationId)`: absent, 0 and NaN switch the filter off. */
  predicate DestinationFilterOn(destinationId: Option<Num>) {
    NumTruthy(destinationId)
  }

  /** `if (hotelIds && hotelIds.length > 0)`. */
  predicate IdFilterOn(hotelIds: Option<seq<string>>) {
    hotelIds.Some? && |hotelIds.value| > 0
  }

  /** What the query asks of one hotel: each filter that is switched on holds. */
  predicate Selected(h: Hotel, destinationId: Option<Num>, hotelIds: Option<seq<string>>) {
    && (DestinationFilterOn(destinationId) ==> HasDestination(h, destinationId.value))
    && (IdFilterOn(hotelIds) ==> IdListed(h, hotelIds.value))
  }

  function DestinationTest(destinationId: Num): Hotel -> bool {
    h => HasDestination(h, destinationId)
  }

  function IdTest(hotelIds: seq<string>): Hotel -> bool {
    h => IdListed(h, hotelIds)
  }

  function SelectedTest(destinationId: Option<Num>, hotelIds: Option<seq<string>>): Hotel -> bool {
    h => Selected(h, destinationId, hotelIds)
  }

  /** The two conditional `filter` calls, destination first. The result is the
      merged list filtered once by the conjunction of the active tests: an
      order-preserving subsequence holding exactly the selected hotels. */
  function FilterMergedHotels(merged: seq<Hotel>, destinationId: Option<Num>, hotelIds: Option<seq<string>>)
    : (r: seq<Hotel>)
    ensures r == Filter(merged, SelectedTest(destinationId, hotelIds))
    ensures IsSubsequence(r, merged)
    ensures forall h :: h in r <==> h in merged && Selected(h, destinationId, hotelIds)
  {
    var byDestination :=
      if DestinationFilterOn(destinationId) then Filter(merged, DestinationTest(destinationId.value))
      else merged;
    var r :=
      if IdFilterOn(hotelIds) then Filter(byDestination, IdTest(hotelIds.value))
      else byDestination;
    SelectedAsSteps(merged, destinationId, hotelIds, byDestination, r);
    var all := SelectedTest(destinationId, hotelIds);
    FilterSpec(merged, all);
    FilterMembers(merged, all);
    r
  }

  /** The two steps of the query agree with the single conjunctive filter. */
  lemma SelectedAsSteps(merged: seq<Hotel>, destinationId: Option<Num>, hotelIds: Option<seq<string>>,
                        byDestination: seq<Hotel>, r: seq<Hotel>)
    requires byDestination ==
      if DestinationFilterOn(destinationId) then Filter(merged, DestinationTest(destinationId.value))
      else merged
    requires r ==
      if IdFilterOn(hotelIds) then Filter(byDestination, IdTest(hotelIds.value))
      else byDestination
    ensures r == Filter(merged, SelectedTest(destinationId, hotelIds))
  {
    var all := SelectedTest(destinationId, hotelIds);
    if DestinationFilterOn(destinationId) && IdFilterOn(hotelIds) {
      FilterFuse(merged, DestinationTest(destinationId.value), IdTest(hotelIds.value), all);
    } else if DestinationFilterOn(destinationId) {
      var p := DestinationTest(destinationId.value);
      assert forall h :: all(h) == (p(h) && true);
      FilterFuse(merged, p, h => true, all);
      FilterKeepsAll(byDestination, h => true);
    } else if IdFilterOn(hotelIds) {
      var q := IdTest(hotelIds.value);
      FilterFuse(merged, h => true, q, all);
      FilterKeepsAll(merged, h => true);
    } else {
      FilterKeepsAll(merged, all);
    }
  }

  /** A falsy destination and an absent or empty id list return the merged
      list unchanged. */
  lemma NoFiltersKeepsAll(merged: seq<Hotel>, destinationId: Option<Num>, hotelIds: Option<seq<string>>)
    requires !DestinationFilterOn(destinationId) && !IdFilterOn(hotelIds)
    ensures FilterMergedHotels(merged, destinationId, hotelIds) == merged
  {
    FilterKeepsAll(merged, SelectedTest(destinationId, hotelIds));
  }

  /** Filtering by ids first and destination second gives the same list. */
  lemma FilterOrderIrrelevant(merged: seq<Hotel>, destinationId: Num, hotelIds: seq<string>)
    requires NumTruthy(Some(destinationId)) && |hotelIds| > 0
    ensures Filter(Filter(merged, IdTest(hotelIds)), DestinationTest(destinationId))
         == FilterMergedHotels(merged, Some(destinationId), Some(hotelIds))
  {
    var p, q := DestinationTest(destinationId), IdTest(hotelIds);
    FilterCommutes(merged, q, p);
    FilterFuse(merged, p, q, SelectedTest(Some(destinationId), Some(hotelIds)));
  }

  /** Re-filtering the result with the same arguments changes nothing. */
  lemma FilterMergedHotelsIdempotent(merged: seq<Hotel>, destinationId: Option<Num>, hotelIds: Option<seq<string>>)
    ensures var r := FilterMergedHotels(merged, destinationId, hotelIds);
      FilterMergedHotels(r, destinationId, hotelIds) == r
  {
    FilterIdempotent(merged, SelectedTest(destinationId, hotelIds));
  }
}
