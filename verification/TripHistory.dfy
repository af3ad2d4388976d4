/** The bounded trip history: which trips it keeps when it is full. */
module TripHistory {
  import opened Strings

  const TRIPS_PER_VEHICLE := 15

  datatype Trip = Trip(tripId: string, vehicle: string, endMs: int, payload: real)

  // ---------------------------------------------------------------------------
  // Order of completion
  // ---------------------------------------------------------------------------

  predicate Before(a: Trip, b: Trip) {
    a.endMs < b.endMs || (a.endMs == b.endMs && Less(a.tripId, b.tripId))
  }

  lemma BeforeIsTransitive(a: Trip, b: Trip, c: Trip)
    requires Before(a, b) && Before(b, c)
    ensures Before(a, c)
  {
    hide Less;
    if a.endMs == b.endMs == c.endMs {
      LessIsTransitive(a.tripId, b.tripId, c.tripId);
    }
  }

  lemma BeforeIsIrreflexive(a: Trip)
    ensures !Before(a, a)
  {
    LessIsIrreflexive(a.tripId);
  }

  lemma BeforeIsTotal(a: Trip, b: Trip)
    ensures Before(a, b) || Before(b, a) || a.tripId == b.tripId
  {
    LessIsTotal(a.tripId, b.tripId);
  }

  predicate Ordered(trips: seq<Trip>) {
    forall i, j | 0 <= i < j < |trips| :: Before(trips[i], trips[j])
  }

  predicate DistinctIds(trips: seq<Trip>) {
    forall i, j | 0 <= i < j < |trips| :: trips[i].tripId != trips[j].tripId
  }

  function Members(trips: seq<Trip>): set<Trip> { set t | t in trips }

  // ---------------------------------------------------------------------------
  // Sorting by completion
  // ---------------------------------------------------------------------------

  function Insert(trips: seq<Trip>, trip: Trip): (r: seq<Trip>)
    ensures |r| == |trips| + 1
  {
    if trips == [] || !Before(trip, trips[|trips| - 1]) then trips + [trip]
    else Insert(trips[..|trips| - 1], trip) + [trips[|trips| - 1]]
  }

  function SortByEnd(trips: seq<Trip>): (r: seq<Trip>)
    ensures |r| == |trips|
  {
    if trips == [] then [] else Insert(SortByEnd(trips[..|trips| - 1]), trips[|trips| - 1])
  }

  /** An element of a list grown by one is the new one or an old one. */
  lemma InGrown(trips: seq<Trip>, trip: Trip, t: Trip)
    ensures t in trips + [trip] <==> t in trips || t == trip
  {
  }

  lemma {:induction false} InsertHolds(trips: seq<Trip>, trip: Trip, t: Trip)
    ensures t in Insert(trips, trip) <==> t in trips || t == trip
  {
    hide Before;
    if trips == [] || !Before(trip, trips[|trips| - 1]) {
      InGrown(trips, trip, t);
    } else {
      var init, last := trips[..|trips| - 1], trips[|trips| - 1];
      assert trips == init + [last];
      InsertHolds(init, trip, t);
      InGrown(init, last, t);
      InGrown(Insert(init, trip), last, t);
    }
  }

  predicate NewId(trips: seq<Trip>, trip: Trip) {
    forall t | t in trips :: t.tripId != trip.tripId
  }

  lemma {:induction false} InsertIsOrdered(trips: seq<Trip>, trip: Trip)
    requires Ordered(trips) && NewId(trips, trip)
    ensures Ordered(Insert(trips, trip))
  {
    hide Before;
    if trips == [] {
    } else {
      var init, last := trips[..|trips| - 1], trips[|trips| - 1];
      assert trips == init + [last];
      if Before(trip, last) {
        InsertIsOrdered(init, trip);
        var r := Insert(init, trip);
        forall i | 0 <= i < |r| ensures Before(r[i], last) {
          InsertHolds(init, trip, r[i]);
        }
      } else {
        BeforeIsTotal(trip, last);
        assert last in trips;
        forall i | 0 <= i < |trips| ensures Before(trips[i], trip) {
          if i < |trips| - 1 {
            BeforeIsTransitive(trips[i], last, trip);
          }
        }
      }
    }
  }

  lemma OrderedIds(trips: seq<Trip>, trip: Trip)
    requires DistinctIds(trips) && NewId(trips, trip)
    ensures DistinctIds(trips + [trip])
  {
    assert forall i | 0 <= i < |trips| :: trips[i] in trips;
  }

  /** Inserting a trip with a new id keeps the ids apart. */
  lemma {:induction false} InsertKeepsIds(trips: seq<Trip>, trip: Trip)
    requires DistinctIds(trips) && NewId(trips, trip)
    ensures DistinctIds(Insert(trips, trip))
  {
    hide Before;
    if trips == [] || !Before(trip, trips[|trips| - 1]) {
      OrderedIds(trips, trip);
    } else {
      var init, last := trips[..|trips| - 1], trips[|trips| - 1];
      assert trips == init + [last] && last in trips;
      InsertKeepsIds(init, trip);
      var r := Insert(init, trip);
      forall t | t in r ensures t.tripId != last.tripId {
        InsertHolds(init, trip, t);
      }
      OrderedIds(r, last);
    }
  }

  /** Sorting keeps the trips and puts them in order of completion. */
  lemma {:induction false} SortSorts(trips: seq<Trip>)
    requires DistinctIds(trips)
    ensures Ordered(SortByEnd(trips)) && DistinctIds(SortByEnd(trips))
    ensures Members(SortByEnd(trips)) == Members(trips)
  {
    if trips != [] {
      var init, last := trips[..|trips| - 1], trips[|trips| - 1];
      assert trips == init + [last];
      SortSorts(init);
      var r := SortByEnd(init);
      forall t | t in r ensures t.tripId != last.tripId {
        assert t in Members(r) && t in init;
      }
      InsertIsOrdered(r, last);
      InsertKeepsIds(r, last);
      forall t ensures t in Insert(r, last) <==> t in trips {
        InsertHolds(r, last, t);
        InGrown(init, last, t);
        assert t in Members(r) <==> t in Members(init);
      }
    }
  }

  // ---------------------------------------------------------------------------
  // Recording
  // ---------------------------------------------------------------------------

  function Count(trips: seq<Trip>, vehicle: string): nat {
    if trips == [] then 0
    else Count(trips[..|trips| - 1], vehicle) + if trips[|trips| - 1].vehicle == vehicle then 1 else 0
  }

  predicate Busy(trips: seq<Trip>, vehicle: string) { Count(trips, vehicle) > TRIPS_PER_VEHICLE }

  /** The first trip of a vehicle that has more than its share, or the very first. */
  predicate IsVictim(trips: seq<Trip>, i: nat) {
    && i < |trips|
    && (if Busy(trips, trips[i].vehicle)
        then forall j | 0 <= j < i :: !Busy(trips, trips[j].vehicle)
        else i == 0 && forall j | 0 <= j < |trips| :: !Busy(trips, trips[j].vehicle))
  }

  function FirstBusy(trips: seq<Trip>, from: nat): (i: nat)
    requires from <= |trips|
    ensures from <= i <= |trips|
    ensures i < |trips| ==> Busy(trips, trips[i].vehicle)
    ensures forall j | from <= j < i :: !Busy(trips, trips[j].vehicle)
    decreases |trips| - from
  {
    if from == |trips| || Busy(trips, trips[from].vehicle) then from else FirstBusy(trips, from + 1)
  }

  function Victim(trips: seq<Trip>): (i: nat)
    requires trips != []
    ensures IsVictim(trips, i)
  {
    hide Busy;
    var i := FirstBusy(trips, 0);
    if i < |trips| then i else 0
  }

  function Without(trips: seq<Trip>, i: nat): seq<Trip>
    requires i < |trips|
  {
    trips[..i] + trips[i + 1..]
  }

  function WithTrip(trips: seq<Trip>, trip: Trip): seq<Trip> { SortByEnd(trips + [trip]) }

  /** The history after a trip is recorded. */
  function Recorded(trips: seq<Trip>, trip: Trip, maxHistory: nat): seq<Trip> {
    if !NewId(trips, trip) then trips
    else
      var all := WithTrip(trips, trip);
      if |all| <= maxHistory then all else Without(all, Victim(all))
  }

  predicate Tidy(trips: seq<Trip>, maxHistory: nat) {
    Ordered(trips) && DistinctIds(trips) && |trips| <= maxHistory
  }

  lemma WithTripIsTidy(trips: seq<Trip>, trip: Trip, maxHistory: nat)
    requires Tidy(trips, maxHistory) && NewId(trips, trip)
    ensures Tidy(WithTrip(trips, trip), maxHistory + 1)
    ensures Members(WithTrip(trips, trip)) == Members(trips) + {trip}
  {
    OrderedIds(trips, trip);
    SortSorts(trips + [trip]);
    forall t ensures t in trips + [trip] <==> t in Members(trips) + {trip} {
      InGrown(trips, trip, t);
    }
    assert Members(trips + [trip]) == Members(trips) + {trip};
  }

  lemma WithoutIsTidy(trips: seq<Trip>, i: nat, maxHistory: nat)
    requires Tidy(trips, maxHistory + 1) && i < |trips|
    ensures Tidy(Without(trips, i), maxHistory)
    ensures Members(Without(trips, i)) == Members(trips) - {trips[i]}
  {
    var r := Without(trips, i);
    forall j | 0 <= j < |r| ensures r[j] == trips[if j < i then j else j + 1] {
    }
    forall t | t in Members(trips) && t != trips[i] ensures t in r {
      var j :| 0 <= j < |trips| && trips[j] == t;
      assert r[if j < i then j else j - 1] == t;
    }
    assert Members(r) == Members(trips) - {trips[i]};
  }

  /** The history stays sorted, duplicate-free and within its bound. */
  lemma RecordedIsTidy(trips: seq<Trip>, trip: Trip, maxHistory: nat)
    requires Tidy(trips, maxHistory)
    ensures Tidy(Recorded(trips, trip, maxHistory), maxHistory)
    ensures Members(Recorded(trips, trip, maxHistory)) <= Members(trips) + {trip}
  {
    hide Victim, WithTrip, Tidy, NewId, Without;
    if NewId(trips, trip) {
      WithTripIsTidy(trips, trip, maxHistory);
      var all := WithTrip(trips, trip);
      if |all| > maxHistory {
        WithoutIsTidy(all, Victim(all), maxHistory);
      } else {
        WithinBound(all, maxHistory);
      }
    }
  }

  lemma WithinBound(trips: seq<Trip>, maxHistory: nat)
    requires Tidy(trips, maxHistory + 1) && |trips| <= maxHistory
    ensures Tidy(trips, maxHistory)
  {
  }
}
