/** Grouping trips by line, mode and stop sequence, and numbering the stops they visit. */
module Grouping {
  import opened Machine
  import opened Network
  import opened RouteBuilding

  datatype Pattern = Pattern(routeId: Id, mode: Mode, stops: seq<Id>)

  function StopIds(trip: Trip): seq<Id> {
    seq(|trip.stopTimes|, i requires 0 <= i < |trip.stopTimes| => trip.stopTimes[i].stopId)
  }

  function PatternOf(trip: Trip): Pattern {
    Pattern(trip.routeId, trip.mode, StopIds(trip))
  }

  /** The trips whose pattern is among `patterns`, in order. */
  ghost function TripsOf(trips: seq<Trip>, patterns: set<Pattern>): seq<Trip> {
    if |trips| == 0 then []
    else
      var front := TripsOf(trips[..|trips| - 1], patterns);
      var trip := trips[|trips| - 1];
      if PatternOf(trip) in patterns then front + [trip] else front
  }

  ghost predicate Grouped(groups: map<Pattern, seq<Trip>>, trips: seq<Trip>) {
    && (forall t :: t in trips ==> PatternOf(t) in groups)
    && (forall p :: p in groups ==> groups[p] == TripsOf(trips, {p}) && |groups[p]| > 0)
  }

  method GroupByPattern(trips: seq<Trip>) returns (groups: map<Pattern, seq<Trip>>)
    ensures Grouped(groups, trips)
  {
    groups := map[];
    for n := 0 to |trips|
      invariant Grouped(groups, trips[..n])
    {
      var key := PatternOf(trips[n]);
      assert trips[..n + 1][..n] == trips[..n] && trips[..n + 1] == trips[..n] + [trips[n]];
      if key !in groups {
        NoneOf(trips[..n], key);
      }
      groups := groups[key := (if key in groups then groups[key] else []) + [trips[n]]];
    }
    assert trips[..|trips|] == trips;
  }

  lemma {:induction false} NoneOf(trips: seq<Trip>, key: Pattern)
    requires forall t :: t in trips ==> PatternOf(t) != key
    ensures TripsOf(trips, {key}) == []
  {
    if |trips| > 0 {
      NoneOf(trips[..|trips| - 1], key);
      assert trips[|trips| - 1] in trips;
    }
  }

  lemma {:induction false} TripsOfMembers(trips: seq<Trip>, patterns: set<Pattern>)
    ensures forall t :: t in TripsOf(trips, patterns) ==> t in trips && PatternOf(t) in patterns
  {
    if |trips| > 0 {
      TripsOfMembers(trips[..|trips| - 1], patterns);
    }
  }

  lemma {:induction false} TripsOfAll(trips: seq<Trip>, patterns: set<Pattern>)
    requires forall t :: t in trips ==> PatternOf(t) in patterns
    ensures TripsOf(trips, patterns) == trips
  {
    if |trips| > 0 {
      assert trips[|trips| - 1] in trips;
      TripsOfAll(trips[..|trips| - 1], patterns);
    }
  }

  /** Taking one more pattern adds exactly its trips. */
  lemma {:induction false} TripsOfMore(trips: seq<Trip>, patterns: set<Pattern>, key: Pattern)
    requires key !in patterns
    ensures multiset(TripsOf(trips, patterns + {key}))
         == multiset(TripsOf(trips, patterns)) + multiset(TripsOf(trips, {key}))
  {
    if |trips| > 0 {
      TripsOfMore(trips[..|trips| - 1], patterns, key);
    }
  }

  /** One pattern's trips have the same line, mode and stops. */
  lemma GroupIsPattern(trips: seq<Trip>, key: Pattern)
    ensures var group := TripsOf(trips, {key});
            SamePattern(group) && forall t :: t in group ==> |t.stopTimes| == |key.stops|
  {
    TripsOfMembers(trips, {key});
    var group := TripsOf(trips, {key});
    forall t | t in group
      ensures t.routeId == key.routeId && t.mode == key.mode && |t.stopTimes| == |key.stops|
      ensures forall i :: 0 <= i < |t.stopTimes| ==> t.stopTimes[i].stopId == key.stops[i]
    {
      assert PatternOf(t) == key;
      assert |StopIds(t)| == |t.stopTimes|;
      forall i | 0 <= i < |t.stopTimes|
        ensures t.stopTimes[i].stopId == key.stops[i]
      {
        assert StopIds(t)[i] == t.stopTimes[i].stopId;
      }
    }
  }

  // ---------------------------------------------------------------- numbering the stops

  /** A walking transfer between named stops, as the feed gives it. */
  datatype Transfer = Transfer(from: Id, to: Id, seconds: U32)

  function TripStopIds(trips: seq<Trip>): seq<Id> {
    if |trips| == 0 then [] else StopIds(trips[0]) + TripStopIds(trips[1..])
  }

  function TransferStopIds(transfers: seq<Transfer>): seq<Id> {
    if |transfers| == 0 then [] else [transfers[0].from, transfers[0].to] + TransferStopIds(transfers[1..])
  }

  /** Stops in order of first mention. */
  function FirstMentions(ids: seq<Id>): seq<Id> {
    if |ids| == 0 then []
    else
      var front := FirstMentions(ids[..|ids| - 1]);
      if ids[|ids| - 1] in front then front else front + [ids[|ids| - 1]]
  }

  lemma {:induction false} FirstMentionsKeep(ids: seq<Id>)
    ensures forall id :: id in FirstMentions(ids) <==> id in ids
  {
    if |ids| > 0 {
      FirstMentionsKeep(ids[..|ids| - 1]);
      assert ids == ids[..|ids| - 1] + [ids[|ids| - 1]];
    }
  }

  method IndexStops(ids: seq<Id>) returns (stops: seq<Id>, index: map<Id, nat>)
    ensures stops == FirstMentions(ids)
    ensures Indexed(stops, index)
    ensures forall id :: id in index <==> id in ids
  {
    stops, index := [], map[];
    for n := 0 to |ids|
      invariant stops == FirstMentions(ids[..n]) && Indexed(stops, index)
    {
      assert ids[..n + 1][..n] == ids[..n];
      var id := ids[n];
      if id in index {
        assert stops[index[id]] == id;
      } else {
        assert id !in stops by {
          assert forall i :: 0 <= i < |stops| ==> stops[i] in index;
        }
        index := index[id := |stops|];
        stops := stops + [id];
      }
    }
    assert ids[..|ids|] == ids;
    FirstMentionsKeep(ids);
  }

  lemma {:induction false} TripStopsMentioned(trips: seq<Trip>)
    ensures forall t, i :: t in trips && 0 <= i < |t.stopTimes| ==> t.stopTimes[i].stopId in TripStopIds(trips)
  {
    if |trips| > 0 {
      TripStopsMentioned(trips[1..]);
      forall t, i | t in trips && 0 <= i < |t.stopTimes|
        ensures t.stopTimes[i].stopId in TripStopIds(trips)
      {
        if t == trips[0] {
          assert StopIds(t)[i] == t.stopTimes[i].stopId;
        } else {
          assert t in trips[1..];
        }
      }
    }
  }
}
