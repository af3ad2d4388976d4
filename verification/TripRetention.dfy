/** Fair retention: while there is room for fifteen trips of every vehicle, the fifteen
    latest trips of each vehicle are in the history, whatever the order of recording. */
module TripRetention {
  import opened TripHistory

  function OfVehicle(trips: set<Trip>, vehicle: string): set<Trip> {
    set t | t in trips && t.vehicle == vehicle
  }

  /** The later trips of the same vehicle. */
  function Later(trips: set<Trip>, trip: Trip): set<Trip> {
    set t | t in trips && t.vehicle == trip.vehicle && Before(trip, t)
  }

  /** Every trip of `seen` that fewer than fifteen later ones of its vehicle follow is kept. */
  ghost predicate KeepsLatest(seen: set<Trip>, kept: set<Trip>) {
    forall t | t in seen && |Later(seen, t)| < TRIPS_PER_VEHICLE :: t in kept
  }

  /** A trip is missing only when fifteen later ones of its vehicle are kept. */
  ghost predicate Covered(seen: set<Trip>, kept: set<Trip>) {
    && kept <= seen
    && forall t | t in seen && t !in kept :: |Later(kept, t)| >= TRIPS_PER_VEHICLE
  }

  lemma SubsetIsSmaller(a: set<Trip>, b: set<Trip>)
    requires a <= b
    ensures |a| <= |b|
  {
    assert b == a + (b - a);
  }

  lemma CoveredKeepsLatest(seen: set<Trip>, kept: set<Trip>)
    requires Covered(seen, kept)
    ensures KeepsLatest(seen, kept)
  {
    hide Before;
    forall t | t in seen && |Later(seen, t)| < TRIPS_PER_VEHICLE ensures t in kept {
      SubsetIsSmaller(Later(kept, t), Later(seen, t));
    }
  }

  lemma AddingKeepsCovered(seen: set<Trip>, kept: set<Trip>, trip: Trip)
    requires Covered(seen, kept)
    ensures Covered(seen + {trip}, kept + {trip})
  {
    hide Before;
    forall t | t in seen + {trip} && t !in kept + {trip}
      ensures |Later(kept + {trip}, t)| >= TRIPS_PER_VEHICLE
    {
      SubsetIsSmaller(Later(kept, t), Later(kept + {trip}, t));
    }
  }

  /** Dropping a trip that fifteen later ones of its vehicle follow leaves nothing uncovered. */
  lemma DroppingKeepsCovered(seen: set<Trip>, kept: set<Trip>, victim: Trip)
    requires Covered(seen, kept) && victim in kept
    requires |Later(kept - {victim}, victim)| >= TRIPS_PER_VEHICLE
    ensures Covered(seen, kept - {victim})
  {
    hide Before;
    forall t | t in seen && t !in kept - {victim}
      ensures |Later(kept - {victim}, t)| >= TRIPS_PER_VEHICLE
    {
      if t != victim {
        if victim in Later(kept, t) {
          forall e | e in Later(kept - {victim}, victim) ensures e in Later(kept - {victim}, t) {
            BeforeIsTransitive(t, victim, e);
          }
          SubsetIsSmaller(Later(kept - {victim}, victim), Later(kept - {victim}, t));
        } else {
          assert Later(kept - {victim}, t) == Later(kept, t);
        }
      }
    }
  }

  // ---------------------------------------------------------------------------
  // Counting
  // ---------------------------------------------------------------------------

  lemma {:induction false} CountIsCardinality(trips: seq<Trip>, vehicle: string)
    requires DistinctIds(trips)
    ensures Count(trips, vehicle) == |OfVehicle(Members(trips), vehicle)|
  {
    if trips == [] {
      assert OfVehicle(Members(trips), vehicle) == {};
    } else {
      var init, last := trips[..|trips| - 1], trips[|trips| - 1];
      assert trips == init + [last];
      CountIsCardinality(init, vehicle);
      LastIsNew(trips);
      OneMoreOfVehicle(init, last, vehicle);
    }
  }

  lemma LastIsNew(trips: seq<Trip>)
    requires DistinctIds(trips) && trips != []
    ensures trips[|trips| - 1] !in trips[..|trips| - 1]
  {
    var init, last := trips[..|trips| - 1], trips[|trips| - 1];
    forall i | 0 <= i < |init| ensures init[i] != last {
      assert trips[i] == init[i];
    }
  }

  lemma OneMoreOfVehicle(init: seq<Trip>, last: Trip, vehicle: string)
    requires last !in init
    ensures |OfVehicle(Members(init + [last]), vehicle)|
         == |OfVehicle(Members(init), vehicle)| + if last.vehicle == vehicle then 1 else 0
  {
    forall t ensures t in init + [last] <==> t in init || t == last {
      InGrown(init, last, t);
    }
    assert OfVehicle(Members(init + [last]), vehicle)
        == OfVehicle(Members(init), vehicle) + if last.vehicle == vehicle then {last} else {};
  }

  lemma {:induction false} LengthIsCardinality(trips: seq<Trip>)
    requires forall j, k | 0 <= j < k < |trips| :: trips[j] != trips[k]
    ensures |Members(trips)| == |trips|
  {
    if trips == [] {
      assert Members(trips) == {};
    } else {
      var init, last := trips[..|trips| - 1], trips[|trips| - 1];
      assert trips == init + [last];
      LengthIsCardinality(init);
      assert forall i | 0 <= i < |init| :: init[i] == trips[i] != last;
      forall t ensures t in trips <==> t in init || t == last {
        InGrown(init, last, t);
      }
      assert Members(trips) == Members(init) + {last};
    }
  }

  function Vehicles(trips: set<Trip>): set<string> { set t | t in trips :: t.vehicle }

  /** Pigeonhole: with no vehicle over its share there are at most fifteen trips a vehicle. */
  lemma {:induction false} SharesBoundTotal(trips: set<Trip>, vehicles: set<string>)
    requires forall t | t in trips :: t.vehicle in vehicles
    requires forall v | v in vehicles :: |OfVehicle(trips, v)| <= TRIPS_PER_VEHICLE
    ensures |trips| <= TRIPS_PER_VEHICLE * |vehicles|
    decreases |vehicles|
  {
    if vehicles == {} {
      assert trips == {};
    } else {
      var v :| v in vehicles;
      var own := OfVehicle(trips, v);
      var others := trips - own;
      forall w | w in vehicles - {v} ensures |OfVehicle(others, w)| <= TRIPS_PER_VEHICLE {
        SubsetIsSmaller(OfVehicle(others, w), OfVehicle(trips, w));
      }
      SharesBoundTotal(others, vehicles - {v});
      assert trips == own + others;
    }
  }

  // ---------------------------------------------------------------------------
  // The victim
  // ---------------------------------------------------------------------------

  /** The victim of a busy vehicle is its oldest trip, so fifteen later ones remain. */
  lemma BusyVictimIsOldest(trips: seq<Trip>, i: nat)
    requires Ordered(trips) && DistinctIds(trips) && IsVictim(trips, i) && Busy(trips, trips[i].vehicle)
    ensures |Later(Members(trips) - {trips[i]}, trips[i])| >= TRIPS_PER_VEHICLE
  {
    hide Before, Count;
    var victim := trips[i];
    var own := OfVehicle(Members(trips), victim.vehicle);
    forall t | t in own && t != victim ensures Before(victim, t) {
      var j :| 0 <= j < |trips| && trips[j] == t;
      assert j > i;
    }
    assert Later(Members(trips) - {victim}, victim) >= own - {victim};
    SubsetIsSmaller(own - {victim}, Later(Members(trips) - {victim}, victim));
    CountIsCardinality(trips, victim.vehicle);
    assert own == (own - {victim}) + {victim};
  }

  /** Without a busy vehicle the victim has fewer than fifteen later trips of its vehicle. */
  lemma IdleVictimIsRecent(trips: seq<Trip>, i: nat)
    requires DistinctIds(trips) && IsVictim(trips, i) && !Busy(trips, trips[i].vehicle)
    ensures |Later(Members(trips), trips[i])| < TRIPS_PER_VEHICLE
  {
    hide Before, Count;
    var victim := trips[i];
    var own := OfVehicle(Members(trips), victim.vehicle);
    CountIsCardinality(trips, victim.vehicle);
    BeforeIsIrreflexive(victim);
    assert Later(Members(trips), victim) <= own - {victim};
    SubsetIsSmaller(Later(Members(trips), victim), own - {victim});
    assert own == (own - {victim}) + {victim};
  }

  ghost predicate SomeoneBusy(trips: seq<Trip>) { exists i | 0 <= i < |trips| :: Busy(trips, trips[i].vehicle) }

  lemma VictimIsBusy(trips: seq<Trip>, i: nat)
    requires IsVictim(trips, i)
    ensures SomeoneBusy(trips) <==> Busy(trips, trips[i].vehicle)
  {
    hide Busy;
  }

  lemma FullMeansBusy(trips: seq<Trip>, maxHistory: nat, vehicles: set<string>)
    requires DistinctIds(trips) && |trips| > maxHistory
    requires Vehicles(Members(trips)) <= vehicles && TRIPS_PER_VEHICLE * |vehicles| <= maxHistory
    ensures SomeoneBusy(trips)
  {
    hide Count;
    if !SomeoneBusy(trips) {
      forall v | v in vehicles ensures |OfVehicle(Members(trips), v)| <= TRIPS_PER_VEHICLE {
        if t :| t in Members(trips) && t.vehicle == v {
          var i :| 0 <= i < |trips| && trips[i] == t;
          CountIsCardinality(trips, v);
          assert !Busy(trips, trips[i].vehicle);
        } else {
          assert OfVehicle(Members(trips), v) == {};
        }
      }
      forall t | t in Members(trips) ensures t.vehicle in vehicles {
        assert t.vehicle in Vehicles(Members(trips));
      }
      SharesBoundTotal(Members(trips), vehicles);
      assert forall j, k | 0 <= j < k < |trips| :: trips[j].tripId != trips[k].tripId;
      LengthIsCardinality(trips);
    }
  }

  // ---------------------------------------------------------------------------
  // One recording
  // ---------------------------------------------------------------------------

  /** Everything taken in so far; a trip whose id is in the history is ignored. */
  function Seen(seen: set<Trip>, trips: seq<Trip>, trip: Trip): set<Trip> {
    if NewId(trips, trip) then seen + {trip} else seen
  }

  /** Recording keeps the latest fifteen of each vehicle exactly when the history has room,
      or some vehicle has more than its share to give up. */
  lemma RecordedIsFairExactly(seen: set<Trip>, trips: seq<Trip>, trip: Trip, maxHistory: nat)
    requires Tidy(trips, maxHistory) && Covered(seen, Members(trips))
    ensures var after := Recorded(trips, trip, maxHistory);
            && (KeepsLatest(Seen(seen, trips, trip), Members(after)) <==>
                !NewId(trips, trip) || |trips| < maxHistory || SomeoneBusy(WithTrip(trips, trip)))
            && (KeepsLatest(Seen(seen, trips, trip), Members(after)) ==>
                Covered(Seen(seen, trips, trip), Members(after)))
  {
    hide KeepsLatest, Covered, Tidy, WithTrip, Without, Victim, NewId, SomeoneBusy;
    if !NewId(trips, trip) {
      CoveredKeepsLatest(seen, Members(trips));
    } else {
      var all := WithTrip(trips, trip);
      var now := seen + {trip};
      WithTripIsTidy(trips, trip, maxHistory);
      WithTripIsLonger(trips, trip);
      AddingKeepsCovered(seen, Members(trips), trip);
      if |all| <= maxHistory {
        CoveredKeepsLatest(now, Members(all));
      } else {
        FullEvictionExactly(now, all, Victim(all), maxHistory);
      }
    }
  }

  lemma WithTripIsLonger(trips: seq<Trip>, trip: Trip)
    ensures |WithTrip(trips, trip)| == |trips| + 1
  {
  }

  lemma FullEvictionExactly(seen: set<Trip>, all: seq<Trip>, i: nat, maxHistory: nat)
    requires Tidy(all, maxHistory + 1) && IsVictim(all, i) && Covered(seen, Members(all))
    ensures KeepsLatest(seen, Members(Without(all, i))) <==> SomeoneBusy(all)
    ensures SomeoneBusy(all) ==> Covered(seen, Members(Without(all, i)))
  {
    hide KeepsLatest, Covered, Without, SomeoneBusy, IsVictim, Busy;
    var victim := VictimOf(all, i);
    VictimIsBusy(all, i);
    WithoutIsTidy(all, i, maxHistory);
    if SomeoneBusy(all) {
      BusyVictimIsOldest(all, i);
      DroppingKeepsCovered(seen, Members(all), victim);
      CoveredKeepsLatest(seen, Members(all) - {victim});
    } else {
      IdleVictimIsRecent(all, i);
      IdleDropLosesLatest(seen, Members(all), victim);
    }
  }

  function VictimOf(all: seq<Trip>, i: nat): (victim: Trip)
    requires IsVictim(all, i)
    ensures i < |all| && victim == all[i] && victim in Members(all)
  {
    all[i]
  }

  lemma IdleDropLosesLatest(seen: set<Trip>, kept: set<Trip>, victim: Trip)
    requires Covered(seen, kept) && victim in kept && |Later(kept, victim)| < TRIPS_PER_VEHICLE
    ensures !KeepsLatest(seen, kept - {victim})
  {
    hide Before;
    forall u | u in Later(seen, victim) ensures u in Later(kept, victim) {
      if u !in kept {
        forall e | e in Later(kept, u) ensures e in Later(kept, victim) {
          BeforeIsTransitive(victim, u, e);
        }
        SubsetIsSmaller(Later(kept, u), Later(kept, victim));
      }
    }
    SubsetIsSmaller(Later(seen, victim), Later(kept, victim));
  }

  // ---------------------------------------------------------------------------
  // Whole runs
  // ---------------------------------------------------------------------------

  /** The history and everything taken in, after recording a log of trips. */
  function RecordAll(trips: seq<Trip>, log: seq<Trip>, maxHistory: nat): seq<Trip>
    decreases |log|
  {
    if log == [] then trips else Recorded(RecordAll(trips, log[..|log| - 1], maxHistory), log[|log| - 1], maxHistory)
  }

  function SeenAll(seen: set<Trip>, trips: seq<Trip>, log: seq<Trip>, maxHistory: nat): set<Trip>
    decreases |log|
  {
    if log == [] then seen
    else Seen(SeenAll(seen, trips, log[..|log| - 1], maxHistory), RecordAll(trips, log[..|log| - 1], maxHistory), log[|log| - 1])
  }

  /** The vehicles that may appear all fit. */
  ghost predicate Roomy(vehicles: set<string>, maxHistory: nat) { TRIPS_PER_VEHICLE * |vehicles| <= maxHistory }

  lemma {:induction false} RunIsCovered(trips: seq<Trip>, log: seq<Trip>, maxHistory: nat, vehicles: set<string>)
    requires Tidy(trips, maxHistory) && Roomy(vehicles, maxHistory)
    requires forall t | t in trips :: t.vehicle in vehicles
    requires forall t | t in log :: t.vehicle in vehicles
    ensures var after := RecordAll(trips, log, maxHistory);
            && Tidy(after, maxHistory)
            && Covered(SeenAll(Members(trips), trips, log, maxHistory), Members(after))
            && (forall t | t in after :: t.vehicle in vehicles)
    decreases |log|
  {
    hide Tidy, Recorded, Seen, Covered;
    if log == [] {
      SelfCovered(Members(trips));
    } else {
      var init, last := log[..|log| - 1], log[|log| - 1];
      RunIsCovered(trips, init, maxHistory, vehicles);
      var before := RecordAll(trips, init, maxHistory);
      assert last in log;
      StepIsCovered(SeenAll(Members(trips), trips, init, maxHistory), before, last, maxHistory, vehicles);
    }
  }

  lemma SelfCovered(trips: set<Trip>)
    ensures Covered(trips, trips)
  {
  }

  lemma StepIsCovered(seen: set<Trip>, trips: seq<Trip>, trip: Trip, maxHistory: nat, vehicles: set<string>)
    requires Tidy(trips, maxHistory) && Roomy(vehicles, maxHistory) && Covered(seen, Members(trips))
    requires trip.vehicle in vehicles && forall t | t in trips :: t.vehicle in vehicles
    ensures var after := Recorded(trips, trip, maxHistory);
            && Tidy(after, maxHistory)
            && Covered(Seen(seen, trips, trip), Members(after))
            && (forall t | t in after :: t.vehicle in vehicles)
  {
    hide Seen, Covered, KeepsLatest, SomeoneBusy, NewId;
    RecordedIsTidy(trips, trip, maxHistory);
    RecordedIsFairExactly(seen, trips, trip, maxHistory);
    var after := Recorded(trips, trip, maxHistory);
    forall t | t in after ensures t.vehicle in vehicles {
      assert t in Members(after);
    }
    if NewId(trips, trip) && |trips| >= maxHistory {
      WithTripIsTidy(trips, trip, maxHistory);
      WithTripIsLonger(trips, trip);
      FullMeansBusy(WithTrip(trips, trip), maxHistory, vehicles);
    }
  }

  /** After any log, in any order, late records and duplicates included: the history is sorted,
      duplicate-free and bounded, and holds the fifteen latest trips of every vehicle among all ever taken in. */
  lemma LatestAreRetained(trips: seq<Trip>, log: seq<Trip>, maxHistory: nat, vehicles: set<string>)
    requires Tidy(trips, maxHistory) && Roomy(vehicles, maxHistory)
    requires forall t | t in trips + log :: t.vehicle in vehicles
    ensures Tidy(RecordAll(trips, log, maxHistory), maxHistory)
    ensures var seen, kept := SeenAll(Members(trips), trips, log, maxHistory), RecordAll(trips, log, maxHistory);
            forall t | t in seen && |Later(seen, t)| < 15 :: t in kept
  {
    hide Tidy, Covered, Roomy, RecordAll, SeenAll, Later;
    assert forall t | t in trips :: t in trips + log;
    assert forall t | t in log :: t in trips + log;
    RunIsCovered(trips, log, maxHistory, vehicles);
    CoveredKeepsLatest(SeenAll(Members(trips), trips, log, maxHistory), Members(RecordAll(trips, log, maxHistory)));
  }
}
