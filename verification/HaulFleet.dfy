/** The haul fleet as it runs: truck objects updated one after another in place.
    Each method is proved to compute the function of the same step in HaulModel,
    so everything proved about that model holds of these objects. */
module HaulFleet {
  import opened Options
  import M = HaulModel

  class Truck {
    var distance: real
    var plan: M.Plan
    var phase: M.Phase
    var timer: real
    var payload: real
    var speed: real
    var cycle: int
    var tripNumber: int
    var accounting: M.Accounting

    constructor (distance: real, plan: M.Plan)
      ensures Value() == M.Truck(distance, plan, M.Queued, 0.0, 0.0, 0.0, 1, 1, M.EMPTY_ACCOUNTING)
    {
      this.distance, this.plan := distance, plan;
      phase, timer, payload, speed := M.Queued, 0.0, 0.0, 0.0;
      cycle, tripNumber := 1, 1;
      accounting := M.EMPTY_ACCOUNTING;
    }

    function Value(): M.Truck
      reads this
    {
      M.Truck(distance, plan, phase, timer, payload, speed, cycle, tripNumber, accounting)
    }
  }

  class HaulFleet {
    const config: M.Config
    var trucks: seq<Truck>
    var elapsed: real

    /** The fleet holds each truck once. */
    ghost predicate Valid()
      reads this
    {
      && config.Valid()
      && forall i, j | 0 <= i < j < |trucks| :: trucks[i] != trucks[j]
    }

    function Values(): (r: seq<M.Truck>)
      reads this, trucks
      ensures |r| == |trucks|
    {
      seq(|trucks|, i requires 0 <= i < |trucks| reads this, trucks => trucks[i].Value())
    }

    function Fleet(): M.Fleet
      reads this, trucks
    {
      M.Fleet(Values(), elapsed)
    }

    constructor (config: M.Config, fleetSize: nat)
      requires config.Valid()
      ensures Valid() && this.config == config && fresh(trucks)
      ensures Fleet() == M.StartingFleet(config, seq(fleetSize, _ => 1))
    {
      this.config := config;
      elapsed := 0.0;
      trucks := [];
      new;
      for i := 0 to fleetSize
        invariant |trucks| == i && Valid() && this.config == config && elapsed == 0.0 && fresh(trucks)
        invariant forall j | 0 <= j < i :: trucks[j].Value() == M.StartingTruck(config, j, 1)
      {
        var truck := new Truck(config.total - i as real * config.queueSpacing, config.plans(i, 1));
        trucks := trucks + [truck];
      }
    }

    /** Resume the load sequence: used right after construction. */
    method SetTripNumbers(numbers: seq<int>)
      requires Valid() && |numbers| == |trucks|
      modifies trucks
      ensures Valid() && elapsed == old(elapsed)
      ensures Values() == M.Renumbered(config, old(Values()), numbers)
    {
      for i := 0 to |trucks|
        invariant forall j | 0 <= j < i ::
          trucks[j].Value() == old(trucks[j].Value()).(tripNumber := numbers[j], plan := config.plans(j, numbers[j]))
        invariant forall j | i <= j < |trucks| :: trucks[j].Value() == old(trucks[j].Value())
      {
        trucks[i].tripNumber := numbers[i];
        trucks[i].plan := config.plans(i, numbers[i]);
      }
    }

    method ConflictLimit(i: nat, limit: real) returns (r: real)
      requires i < |trucks|
      ensures r == M.ConflictLimit(config, Values(), i, limit, |config.groups|)
    {
      r := limit;
      for g := 0 to |config.groups|
        invariant r == M.ConflictLimit(config, Values(), i, limit, g)
      {
        var approaching := M.Approaching(config.groups[g], trucks[i].distance);
        if approaching.Some? && M.Blocked(config, Values(), i, config.groups[g], approaching.value) {
          r := M.Min(r, approaching.value.start - 2.0);
        }
      }
    }

    /** Move truck i towards the limit and book the time and the metres. */
    method Move(i: nat, limit: real, cruise: real, dt: real)
      requires Valid() && i < |trucks| && dt > 0.0
      modifies trucks[i]
      ensures Valid()
      ensures trucks[i].Value() == old(
        var bound := M.ConflictLimit(config, Values(), i, limit, |config.groups|);
        M.Moved(trucks[i].Value(), bound, M.Reach(config, trucks[i].Value(), cruise, dt), dt))
    {
      var truck := trucks[i];
      var bound := ConflictLimit(i, limit);
      var reach := M.Reach(config, truck.Value(), cruise, dt);
      var step := M.Min(reach, M.Max(0.0, bound - truck.distance));
      truck.distance := truck.distance + step;
      truck.speed := step / dt;
      var a := truck.accounting;
      if step <= 0.0 {
        truck.accounting := a.(idle := a.idle + dt);
      } else if truck.phase.Hauling? {
        truck.accounting := a.(loadedDistance := a.loadedDistance + step, loadedTravel := a.loadedTravel + dt);
      } else {
        truck.accounting := a.(emptyDistance := a.emptyDistance + step, emptyReturn := a.emptyReturn + dt);
      }
    }

    /** The loading branch of `advance`. */
    method Load(i: nat, dt: real)
      requires Valid() && i < |trucks| && dt > 0.0 && M.Timed(config, trucks[i].Value())
      modifies trucks[i]
      ensures Valid() && trucks[i].Value() == old(M.Loaded(config, trucks[i].Value(), dt))
    {
      var truck := trucks[i];
      truck.speed := 0.0;
      truck.timer := truck.timer + dt;
      truck.accounting := truck.accounting.(loading := truck.accounting.loading + dt);
      var duration := M.Duration(config, truck.plan, M.Loading);
      truck.payload := truck.plan.payloadFraction * M.LoadShare(truck.timer, duration);
      if truck.timer >= duration {
        truck.phase, truck.timer := M.Hauling, 0.0;
      }
    }

    /** The branch of `advance` for a truck at the tip. */
    method Tip(i: nat, dt: real)
      requires Valid() && i < |trucks| && dt > 0.0 && M.Timed(config, trucks[i].Value()) && M.AtTip(trucks[i].phase)
      modifies trucks[i]
      ensures Valid() && trucks[i].Value() == old(M.Tipped(config, trucks[i].Value(), dt))
    {
      hide M.DockStep, M.DumpShare, M.Duration;
      var truck := trucks[i];
      truck.speed := 0.0;
      var duration := M.Duration(config, truck.plan, truck.phase);
      var distance := M.DockStep(config.dockingLength, duration, truck.timer, dt);
      truck.timer := truck.timer + dt;
      truck.accounting := truck.accounting.(dumping := truck.accounting.dumping + dt);
      if truck.phase.Dumping? {
        truck.payload := truck.plan.payloadFraction * M.DumpShare(truck.timer, duration);
      }
      if truck.phase.Reversing? || truck.phase.Exiting? {
        truck.speed := config.dockingLength / duration;
        var a := truck.accounting;
        if truck.phase.Reversing? {
          truck.accounting := a.(loadedDistance := a.loadedDistance + distance);
        } else {
          truck.accounting := a.(emptyDistance := a.emptyDistance + distance);
        }
      }
      if truck.timer >= duration {
        truck.phase := M.AfterTip(truck.phase);
        truck.timer := 0.0;
        truck.speed := 0.0;
      }
    }

    /** Move truck i as far as the road, the traffic and the bays let it. */
    method MoveOn(i: nat, bays: M.Bays, cruise: real, dt: real)
      requires Valid() && i < |trucks| && dt > 0.0
      modifies trucks[i]
      ensures Valid() && trucks[i].Value() == old(M.Advanced(config, Values(), i, bays, dt, cruise))
    {
      hide M.Reach, M.ConflictLimit, M.TrafficLimit;
      var limit := M.TrafficLimit(config, Values(), i, bays);
      Move(i, limit, cruise, dt);
    }

    lemma KeepsPhase(i: nat, bays: M.Bays, cruise: real, dt: real)
      requires i < |trucks| && dt > 0.0
      ensures M.Advanced(config, Values(), i, bays, dt, cruise).phase == trucks[i].phase
    {
      hide M.MoveLimit, M.Reach;
    }

    /** The branches of `advance` for a truck on the road. */
    method Drive(i: nat, loading: Option<nat>, tipping: Option<nat>, completed: seq<M.Trip>, dt: real, cruise: real, stamp: real)
      returns (loading': Option<nat>, tipping': Option<nat>, completed': seq<M.Trip>)
      requires Valid() && i < |trucks| && dt > 0.0 && M.Timed(config, trucks[i].Value())
      requires trucks[i].phase.Queued? || trucks[i].phase.Hauling? || trucks[i].phase.Returning?
      modifies trucks[i]
      ensures Valid()
      ensures var r := old(M.StepTruck(config, M.Sweep(Values(), M.Bays(loading.Some?, tipping.Some?), completed),
                                       i, dt, cruise, stamp));
              && trucks[i].Value() == r.trucks[i]
              && M.Bays(loading'.Some?, tipping'.Some?) == r.bays
              && completed' == r.trips
    {
      hide M.Duration, M.Loaded, M.Tipped, M.Advanced, M.CompletedTrip;
      var truck := trucks[i];
      loading', tipping', completed' := loading, tipping, completed;
      ghost var moved := M.Advanced(config, Values(), i, M.Bays(loading.Some?, tipping.Some?), dt, cruise);
      KeepsPhase(i, M.Bays(loading.Some?, tipping.Some?), cruise, dt);
      MoveOn(i, M.Bays(loading.Some?, tipping.Some?), cruise, dt);
      assert truck.Value() == moved;
      if truck.phase.Queued? {
        if truck.distance >= config.total - M.TOL && loading.None? {
          truck.distance := 0.0;
          truck.phase, truck.timer := M.Loading, 0.0;
          truck.speed := 0.0;
          loading' := Some(i);
        }
      } else if truck.phase.Hauling? {
        if truck.distance >= config.dump - M.TOL && tipping.None? {
          truck.phase, truck.timer := M.Reversing, 0.0;
          tipping' := Some(i);
        }
      } else if truck.distance >= config.total - M.TOL {
        completed' := completed + [M.CompletedTrip(i, truck.Value(), stamp)];
        truck.phase, truck.timer := M.Queued, 0.0;
        truck.cycle := truck.cycle + 1;
        truck.tripNumber := truck.tripNumber + 1;
        truck.plan := config.plans(i, truck.tripNumber);
        truck.accounting := M.EMPTY_ACCOUNTING;
      }
    }

    method FirstIn(tip: bool) returns (r: Option<nat>)
      ensures r.Some? <==> if tip then M.SomeTipping(Values()) else M.SomeLoading(Values())
      ensures r.Some? ==> r.value < |trucks| && if tip then M.AtTip(trucks[r.value].phase) else trucks[r.value].phase.Loading?
    {
      r := None;
      for i := 0 to |trucks|
        invariant r.None? ==> forall j | 0 <= j < i :: !(if tip then M.AtTip(trucks[j].phase) else trucks[j].phase.Loading?)
        invariant r.Some? ==> r.value < |trucks| && if tip then M.AtTip(trucks[r.value].phase) else trucks[r.value].phase.Loading?
      {
        if r.None? && (if tip then M.AtTip(trucks[i].phase) else trucks[i].phase.Loading?) {
          r := Some(i);
        }
      }
      if r.Some? {
        assert Values()[r.value] == trucks[r.value].Value();
      } else {
        assert forall j | 0 <= j < |trucks| :: Values()[j] == trucks[j].Value();
      }
    }

    /** One tick: every truck in turn, each seeing what the earlier ones did. */
    method Advance(tick: M.Tick) returns (completed: seq<M.Trip>)
      requires Valid() && M.AllTimed(config, Values())
      modifies this`elapsed, trucks
      ensures Valid() && trucks == old(trucks)
      ensures (Fleet(), completed) == old(M.Advance(config, Fleet(), tick))
    {
      hide M.SweepTo;
      completed := [];
      if !tick.Counts() {
        HaltAll();
        return;
      }
      elapsed := elapsed + tick.dt;
      assert Values() == old(Values());
      if tick.emergencyStopped {
        IdleAll(tick.dt);
        return;
      }
      var stamp := M.StampOf(tick, elapsed);
      completed := AdvanceEach(tick, stamp);
    }

    /** The loop of `advance` over the trucks. */
    method AdvanceEach(tick: M.Tick, stamp: real) returns (completed: seq<M.Trip>)
      requires Valid() && M.AllTimed(config, Values()) && tick.dt > 0.0
      modifies trucks
      ensures Valid() && trucks == old(trucks)
      ensures var s := M.SweepTo(config, old(Values()), |trucks|, tick.dt, tick.cruise, stamp);
              Values() == s.trucks && completed == s.trips
    {
      hide M.StepTruck;
      ghost var start := Values();
      completed := [];
      var loading := FirstIn(false);
      var tipping := FirstIn(true);
      for i := 0 to |trucks|
        invariant Valid() && trucks == old(trucks)
        invariant M.AllTimed(config, start) && |start| == |trucks|
        invariant M.Sweep(Values(), M.Bays(loading.Some?, tipping.Some?), completed)
                  == M.SweepTo(config, start, i, tick.dt, tick.cruise, stamp)
      {
        assert Values()[i] == trucks[i].Value() == start[i];
        loading, tipping, completed := Update(i, loading, tipping, completed, tick, stamp);
      }
    }

    method Update(i: nat, loading: Option<nat>, tipping: Option<nat>, completed: seq<M.Trip>, tick: M.Tick, stamp: real)
      returns (loading': Option<nat>, tipping': Option<nat>, completed': seq<M.Trip>)
      requires Valid() && i < |trucks| && tick.dt > 0.0 && M.Timed(config, trucks[i].Value())
      modifies trucks[i]
      ensures Valid()
      ensures M.Sweep(Values(), M.Bays(loading'.Some?, tipping'.Some?), completed')
           == old(M.StepTruck(config, M.Sweep(Values(), M.Bays(loading.Some?, tipping.Some?), completed),
                              i, tick.dt, tick.cruise, stamp))
    {
      hide M.Advanced, M.Loaded, M.Tipped, M.Timed, M.NextCycle, M.CompletedTrip;
      loading', tipping', completed' := loading, tipping, completed;
      match trucks[i].phase
      case Queued | Hauling | Returning =>
        loading', tipping', completed' := Drive(i, loading, tipping, completed, tick.dt, tick.cruise, stamp);
      case Loading =>
        Load(i, tick.dt);
      case _ =>
        Tip(i, tick.dt);
    }

    method HaltAll()
      requires Valid()
      modifies trucks
      ensures Valid() && Values() == M.HaltedAll(old(Values()))
    {
      for i := 0 to |trucks|
        invariant forall j | 0 <= j < i :: trucks[j].Value() == old(M.Halted(trucks[j].Value()))
        invariant forall j | i <= j < |trucks| :: trucks[j].Value() == old(trucks[j].Value())
      {
        trucks[i].speed := 0.0;
      }
    }

    /** An operational stop is downtime, unlike a paused playback. */
    method IdleAll(dt: real)
      requires Valid()
      modifies trucks
      ensures Valid() && Values() == M.IdledAll(old(Values()), dt)
    {
      for i := 0 to |trucks|
        invariant forall j | 0 <= j < i :: trucks[j].Value() == old(M.Idled(trucks[j].Value(), dt))
        invariant forall j | i <= j < |trucks| :: trucks[j].Value() == old(trucks[j].Value())
      {
        trucks[i].speed := 0.0;
        trucks[i].accounting := trucks[i].accounting.(idle := trucks[i].accounting.idle + dt);
      }
    }
  }
}
