/** The haulage log: recording trips in place, and reading the latest ones back. */
module TripLogger {
  import opened Options
  import opened TripHistory
  import opened TripRetention

  const MAX_LIMIT := 200

  datatype Page = Page(trips: seq<Trip>, totalTrips: nat, totalTonnes: real)

  datatype Result<+T> = Ok(value: T) | LimitOutOfRange

  predicate Selects(vehicle: Option<string>, trip: Trip) {
    vehicle.Some? ==> trip.vehicle == vehicle.value
  }

  function Matching(trips: seq<Trip>, vehicle: Option<string>): seq<Trip> {
    if trips == [] then []
    else Matching(trips[..|trips| - 1], vehicle) + if Selects(vehicle, trips[|trips| - 1]) then [trips[|trips| - 1]] else []
  }

  function Tonnes(trips: seq<Trip>): real {
    if trips == [] then 0.0 else Tonnes(trips[..|trips| - 1]) + trips[|trips| - 1].payload
  }

  function Last(trips: seq<Trip>, n: nat): seq<Trip> { if n < |trips| then trips[|trips| - n..] else trips }

  function Reversed(trips: seq<Trip>): (r: seq<Trip>)
    ensures |r| == |trips|
    ensures forall i | 0 <= i < |trips| :: r[i] == trips[|trips| - 1 - i]
  {
    if trips == [] then [] else [trips[|trips| - 1]] + Reversed(trips[..|trips| - 1])
  }

  class HaulageAnalyticsEngine {
    const maxHistory: nat
    /** The seeded trips; empty for live operation. */
    const baseline: seq<Trip>
    var trips: seq<Trip>
    /** Every trip taken in since the last reset. */
    ghost var seen: set<Trip>

    ghost predicate Valid()
      reads this
    {
      Ordered(baseline) && DistinctIds(baseline) && Tidy(trips, maxHistory) && Members(trips) <= seen
    }

    /** The baseline is generated in order of completion with ids of its own. */
    constructor (maxHistory: nat, baseline: seq<Trip>)
      requires maxHistory >= 1
      requires Ordered(baseline) && DistinctIds(baseline)
      ensures Valid()
      ensures this.maxHistory == maxHistory && this.baseline == baseline
      ensures trips == Last(baseline, maxHistory) && seen == Members(trips)
    {
      this.maxHistory := maxHistory;
      this.baseline := baseline;
      trips, seen := [], {};
      new;
      Reset();
    }

    method Reset()
      requires Valid()
      modifies this
      ensures Valid()
      ensures trips == Last(baseline, maxHistory) && seen == Members(trips)
    {
      hide Before;
      trips := baseline;
      if |trips| > maxHistory {
        trips := trips[|trips| - maxHistory..];
      }
      seen := Members(trips);
    }

    /** The history becomes what recording says; while there is room for the share of each vehicle, the
        latest fifteen of each stay. */
    method RecordTrip(trip: Trip, ghost vehicles: set<string>)
      requires Valid()
      modifies this
      ensures Valid()
      ensures trips == Recorded(old(trips), trip, maxHistory)
      ensures seen == Seen(old(seen), old(trips), trip)
      ensures
        && old(Covered(seen, Members(trips))) && Roomy(vehicles, maxHistory)
        && trip.vehicle in vehicles && (forall t | t in old(trips) :: t.vehicle in vehicles)
        ==> Covered(seen, Members(trips)) && KeepsLatest(seen, Members(trips))
    {
      hide Tidy, Covered, KeepsLatest, Roomy, Members, NewId, WithTrip, Victim, Without;
      RecordedIsTidy(trips, trip, maxHistory);
      if Covered(seen, Members(trips)) && Roomy(vehicles, maxHistory)
         && trip.vehicle in vehicles && forall t | t in trips :: t.vehicle in vehicles
      {
        RecordedKeepsLatest(seen, trips, trip, maxHistory, vehicles);
      }
      var known := Knows(trip);
      if !known {
        Insert(trip);
      }
    }

    /** Whether a trip of that identifier is in the history. */
    method Knows(trip: Trip) returns (known: bool)
      ensures known <==> !NewId(trips, trip)
    {
      for i := 0 to |trips|
        invariant forall j | 0 <= j < i :: trips[j].tripId != trip.tripId
      {
        if trips[i].tripId == trip.tripId {
          assert trips[i] in trips;
          return true;
        }
      }
      known := false;
    }

    /** Take in a new trip in its place, and give up another one when there is no room. */
    method Insert(trip: Trip)
      requires NewId(trips, trip)
      modifies this
      ensures trips == Recorded(old(trips), trip, maxHistory) && seen == old(seen) + {trip}
    {
      hide SortByEnd, Count, NewId, Victim;
      seen := seen + {trip};
      trips := SortByEnd(trips + [trip]);
      if |trips| > maxHistory {
        var counts := CountVehicles(trips);
        var victim := FindVictim(trips, counts);
        trips := trips[..victim] + trips[victim + 1..];
      }
    }

    /** The latest trips first, at most `limit`, of one vehicle or of all. */
    method GetTripHistory(limit: int, vehicle: Option<string>) returns (r: Result<Page>)
      requires Valid()
      ensures r == if 1 <= limit <= 200
                   then Ok(Page(Reversed(Last(Matching(trips, vehicle), limit)), |Matching(trips, vehicle)|,
                                Tonnes(Matching(trips, vehicle))))
                   else LimitOutOfRange
    {
      if !(1 <= limit <= MAX_LIMIT) {
        return LimitOutOfRange;
      }
      hide Matching, Tonnes, Reversed, Last, Selects;
      NothingMatches(vehicle);
      var matching, tonnes := [], 0.0;
      for i := 0 to |trips|
        invariant matching == Matching(trips[..i], vehicle)
        invariant tonnes == Tonnes(matching)
      {
        OneMoreMatching(trips, i, vehicle);
        if vehicle.None? || trips[i].vehicle == vehicle.value {
          OneMoreTonnage(matching, trips[i]);
          matching := matching + [trips[i]];
          tonnes := tonnes + trips[i].payload;
        }
      }
      assert trips[..|trips|] == trips;
      r := Ok(Page(Reversed(Last(matching, limit)), |matching|, tonnes));
    }
  }

  lemma RecordedKeepsLatest(seen: set<Trip>, trips: seq<Trip>, trip: Trip, maxHistory: nat, vehicles: set<string>)
    requires Tidy(trips, maxHistory) && Roomy(vehicles, maxHistory) && Covered(seen, Members(trips))
    requires trip.vehicle in vehicles && forall t | t in trips :: t.vehicle in vehicles
    ensures var now, kept := Seen(seen, trips, trip), Members(Recorded(trips, trip, maxHistory));
            Covered(now, kept) && KeepsLatest(now, kept)
  {
    hide Covered, KeepsLatest, Recorded, Seen, Tidy, Roomy;
    StepIsCovered(seen, trips, trip, maxHistory, vehicles);
    CoveredKeepsLatest(Seen(seen, trips, trip), Members(Recorded(trips, trip, maxHistory)));
  }

  lemma NothingMatches(vehicle: Option<string>)
    ensures Matching([], vehicle) == [] && Tonnes([]) == 0.0
  {
  }

  lemma OneMoreMatching(trips: seq<Trip>, i: nat, vehicle: Option<string>)
    requires i < |trips|
    ensures Matching(trips[..i + 1], vehicle)
         == if vehicle.None? || trips[i].vehicle == vehicle.value then Matching(trips[..i], vehicle) + [trips[i]]
            else Matching(trips[..i], vehicle)
  {
    assert trips[..i + 1][..i] == trips[..i];
  }

  lemma OneMoreTonnage(trips: seq<Trip>, trip: Trip)
    ensures Tonnes(trips + [trip]) == Tonnes(trips) + trip.payload
  {
    assert (trips + [trip])[..|trips|] == trips;
  }

  /** How many trips each vehicle has, every vehicle that occurs and no other. */
  method CountVehicles(trips: seq<Trip>) returns (counts: map<string, nat>)
    ensures forall v :: v in counts <==> exists t | t in trips :: t.vehicle == v
    ensures forall v | v in counts :: counts[v] == Count(trips, v)
  {
    counts := map[];
    for i := 0 to |trips|
      invariant forall v :: (if v in counts then counts[v] else 0) == Count(trips[..i], v)
      invariant forall v :: v in counts <==> exists t | t in trips[..i] :: t.vehicle == v
    {
      var v := trips[i].vehicle;
      assert trips[..i + 1] == trips[..i] + [trips[i]];
      assert trips[..i + 1][..i] == trips[..i];
      assert trips[i] in trips[..i + 1];
      counts := counts[v := (if v in counts then counts[v] else 0) + 1];
    }
    assert trips[..|trips|] == trips;
  }

  method FindVictim(trips: seq<Trip>, counts: map<string, nat>) returns (victim: nat)
    requires trips != []
    requires forall t | t in trips :: t.vehicle in counts && counts[t.vehicle] == Count(trips, t.vehicle)
    ensures victim == Victim(trips)
  {
    for i := 0 to |trips|
      invariant FirstBusy(trips, 0) == FirstBusy(trips, i)
    {
      assert trips[i] in trips;
      if counts[trips[i].vehicle] > TRIPS_PER_VEHICLE {
        return i;
      }
    }
    victim := 0;
  }

  // ---------------------------------------------------------------------------
  // What the pages show
  // ---------------------------------------------------------------------------

  lemma {:induction false} MatchingHolds(trips: seq<Trip>, vehicle: Option<string>, t: Trip)
    ensures t in Matching(trips, vehicle) <==> t in trips && Selects(vehicle, t)
  {
    if trips != [] {
      var init, last := trips[..|trips| - 1], trips[|trips| - 1];
      assert trips == init + [last];
      MatchingHolds(init, vehicle, t);
      InGrown(init, last, t);
      InGrown(Matching(init, vehicle), last, t);
    }
  }

  lemma {:induction false} MatchingIsOrdered(trips: seq<Trip>, vehicle: Option<string>)
    requires Ordered(trips)
    ensures Ordered(Matching(trips, vehicle))
  {
    hide Before;
    if trips != [] {
      var init, last := trips[..|trips| - 1], trips[|trips| - 1];
      assert trips == init + [last];
      MatchingIsOrdered(init, vehicle);
      var m := Matching(init, vehicle);
      forall i | 0 <= i < |m| ensures Before(m[i], last) {
        MatchingHolds(init, vehicle, m[i]);
      }
    }
  }

  /** A trip of the vehicle that fewer than `limit` others of the history follow is on the page. */
  lemma {:induction false} RecentIsOnPage(trips: seq<Trip>, vehicle: string, limit: nat, t: Trip)
    requires Ordered(trips) && t in trips && t.vehicle == vehicle
    requires |Later(Members(trips), t)| < limit
    ensures t in Reversed(Last(Matching(trips, Some(vehicle)), limit))
  {
    hide Before;
    var m := Matching(trips, Some(vehicle));
    MatchingHolds(trips, Some(vehicle), t);
    MatchingIsOrdered(trips, Some(vehicle));
    var i :| 0 <= i < |m| && m[i] == t;
    if i < |m| - limit {
      var after := m[i + 1..];
      forall j, k | 0 <= j < k < |after| ensures after[j] != after[k] {
        BeforeIsIrreflexive(after[j]);
        assert Before(m[i + 1 + j], m[i + 1 + k]);
      }
      LengthIsCardinality(after);
      forall e | e in Members(after) ensures e in Later(Members(trips), t) {
        MatchingHolds(trips, Some(vehicle), e);
        var j :| 0 <= j < |after| && after[j] == e;
        assert Before(m[i], m[i + 1 + j]);
      }
      SubsetIsSmaller(Members(after), Later(Members(trips), t));
    } else {
      var shown := Last(m, limit);
      var j := i - (|m| - |shown|);
      assert shown[j] == t;
      assert Reversed(shown)[|shown| - 1 - j] == t;
    }
  }

  /** The page shows the end of the list, newest first. */
  lemma PageShowsEnd(m: seq<Trip>, limit: nat)
    ensures var page := Reversed(Last(m, limit));
            && |page| <= |m|
            && (forall i | 0 <= i < |page| :: page[i] == m[|m| - 1 - i])
            && (forall k | |m| - |page| <= k < |m| :: m[k] in page)
  {
    hide Reversed;
    var page := Reversed(Last(m, limit));
    forall k | |m| - |page| <= k < |m| ensures m[k] in page {
      assert page[|m| - 1 - k] == m[k];
    }
  }

  /** A page is in order, newest first, and leaves out only older trips. */
  lemma PageIsLatest(trips: seq<Trip>, vehicle: Option<string>, limit: nat)
    requires Ordered(trips)
    ensures var page := Reversed(Last(Matching(trips, vehicle), limit));
            && (forall i, j | 0 <= i < j < |page| :: Before(page[j], page[i]))
            && (forall t, i | t in trips && Selects(vehicle, t) && t !in page && 0 <= i < |page| :: Before(t, page[i]))
            && (forall t | t in page :: t in trips && Selects(vehicle, t))
  {
    hide Before, Selects, Matching, Reversed, Last;
    var m := Matching(trips, vehicle);
    var page := Reversed(Last(m, limit));
    MatchingIsOrdered(trips, vehicle);
    PageShowsEnd(m, limit);
    forall t, i | t in trips && Selects(vehicle, t) && t !in page && 0 <= i < |page| ensures Before(t, page[i]) {
      MatchingHolds(trips, vehicle, t);
      var k :| 0 <= k < |m| && m[k] == t;
      assert page[i] == m[|m| - 1 - i];
    }
    forall t | t in page ensures t in trips && Selects(vehicle, t) {
      var i :| 0 <= i < |page| && page[i] == t;
      assert m[|m| - 1 - i] == t;
      MatchingHolds(trips, vehicle, t);
    }
  }

  /** Asking for fifteen or more trips of a vehicle shows the fifteen latest ever taken in. */
  lemma QueryShowsLatest(seen: set<Trip>, trips: seq<Trip>, t: Trip, limit: nat)
    requires Ordered(trips) && Members(trips) <= seen && KeepsLatest(seen, Members(trips))
    requires t in seen && |Later(seen, t)| < 15 <= limit
    ensures t in Reversed(Last(Matching(trips, Some(t.vehicle)), limit))
  {
    hide Before;
    SubsetIsSmaller(Later(Members(trips), t), Later(seen, t));
    assert t in Members(trips);
    RecentIsOnPage(trips, t.vehicle, limit, t);
  }
}
