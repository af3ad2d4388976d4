/** The haul fleet scheduler: the road, the trucks and one update of one truck.

    Every function here follows backend/app/simulation/haul_fleet.py branch by
    branch on values. `HaulFleet.dfy` carries the same steps out on truck objects
    and is proved to compute exactly these functions. Lengths, times and speeds
    are exact reals. */
module HaulModel {
  import opened Options

  // The slack with which a truck counts as having reached a stop.
  const TOL := 0.000001

  datatype Phase = Queued | Loading | Hauling | Reversing | Dumping | Lowering | Exiting | Returning

  /** What one truck carries and how fast it works in one cycle. */
  datatype Plan = Plan(payloadFraction: real, loadingScale: real, dumpingScale: real, speedScale: real)
  {
    predicate Valid() {
      && payloadFraction > 0.0 && loadingScale > 0.0 && dumpingScale > 0.0
      && 0.0 < speedScale <= 1.0
    }
  }

  datatype Accounting = Accounting(
    loading: real, loadedTravel: real, dumping: real, emptyReturn: real, idle: real,
    loadedDistance: real, emptyDistance: real)
  {
    function Time(): real { loading + loadedTravel + dumping + emptyReturn + idle }

    function Distance(): real { loadedDistance + emptyDistance }
  }

  const EMPTY_ACCOUNTING := Accounting(0.0, 0.0, 0.0, 0.0, 0.0, 0.0, 0.0)

  datatype Truck = Truck(
    distance: real, plan: Plan, phase: Phase, timer: real, payload: real, speed: real,
    cycle: int, tripNumber: int, accounting: Accounting)

  datatype Interval = Interval(start: real, end: real)

  /** `turnCap(d)` is the speed the turn at distance d allows, None on straight
      road. `listIntervals` says whether the configuration holds its intervals
      as lists: a list differs from every tuple, so then an interval counts as
      different even from itself. */
  datatype Config = Config(
    total: real, dump: real, queueSpacing: real, dockingLength: real,
    loadingS: real, dumpingS: real, reversingS: real, loweringS: real,
    groups: seq<seq<Interval>>, listIntervals: bool,
    turnCap: real -> Option<real>, plans: (nat, int) -> Plan)
  {
    ghost predicate Valid() {
      && 0.0 <= dump && dump + TOL <= total
      && queueSpacing > 0.0 && dockingLength > 0.0
      && loadingS > 0.0 && dumpingS > 0.0 && reversingS > 0.0 && loweringS > 0.0
      && (forall d :: turnCap(d).Some? ==> turnCap(d).value > 0.0)
      && (forall i, n :: plans(i, n).Valid())
    }
  }

  /** Which bays are spoken for during a tick. */
  datatype Bays = Bays(loading: bool, tipping: bool)

  datatype Trip = Trip(truck: nat, tripNumber: int, start: real, end: real, duration: real,
                       loadedDistance: real, emptyDistance: real, accounting: Accounting)

  function Min(a: real, b: real): real { if b < a then b else a }

  function Max(a: real, b: real): real { if b > a then b else a }

  predicate AtTip(p: Phase) { p.Reversing? || p.Dumping? || p.Lowering? || p.Exiting? }

  // ---------------------------------------------------------------------------
  // Limits on how far a truck may go
  // ---------------------------------------------------------------------------

  predicate Distinguished(c: Config, a: Interval, b: Interval) { c.listIntervals || a != b }

  /** The interval with half a metre before it and two metres after it. */
  predicate InWidened(v: Interval, d: real) { v.start - 0.5 <= d <= v.end + 2.0 }

  /** The first interval of the group, in its own order, that starts past d. */
  function Approaching(group: seq<Interval>, d: real): Option<Interval> {
    if |group| == 0 then None
    else if d < group[0].start then Some(group[0])
    else Approaching(group[1..], d)
  }

  predicate Blocked(c: Config, ts: seq<Truck>, i: nat, group: seq<Interval>, approaching: Interval) {
    exists j, k | 0 <= j < |ts| && 0 <= k < |group| ::
      j != i && Distinguished(c, group[k], approaching) && InWidened(group[k], ts[j].distance)
  }

  function GroupLimit(c: Config, ts: seq<Truck>, i: nat, group: seq<Interval>, limit: real): real
    requires i < |ts|
  {
    match Approaching(group, ts[i].distance)
    case None => limit
    case Some(v) => if Blocked(c, ts, i, group, v) then Min(limit, v.start - 2.0) else limit
  }

  function ConflictLimit(c: Config, ts: seq<Truck>, i: nat, limit: real, count: nat): real
    requires i < |ts| && count <= |c.groups|
  {
    if count == 0 then limit
    else GroupLimit(c, ts, i, c.groups[count - 1], ConflictLimit(c, ts, i, limit, count - 1))
  }

  /** Where the road ends for a truck of this phase. */
  function RoadEnd(c: Config, p: Phase): real { if p.Hauling? then c.dump else c.total }

  predicate IsAhead(c: Config, ts: seq<Truck>, i: nat, j: nat)
    requires i < |ts| && j < |ts|
  {
    && j != i && ts[j].distance > ts[i].distance
    && if ts[i].phase.Queued? then ts[j].phase.Queued? || ts[j].phase.Returning?
       else ts[j].distance <= RoadEnd(c, ts[i].phase)
  }

  /** The least distance among the first `count` trucks that are ahead of truck i. */
  function NearestAhead(c: Config, ts: seq<Truck>, i: nat, count: nat): (r: Option<real>)
    requires i < |ts| && count <= |ts|
    ensures r.None? ==> forall j | 0 <= j < count :: !IsAhead(c, ts, i, j)
    ensures r.Some? ==> exists j | 0 <= j < count :: IsAhead(c, ts, i, j) && ts[j].distance == r.value
    ensures r.Some? ==> forall j | 0 <= j < count :: IsAhead(c, ts, i, j) ==> r.value <= ts[j].distance
  {
    if count == 0 then None
    else
      var rest := NearestAhead(c, ts, i, count - 1);
      if !IsAhead(c, ts, i, count - 1) then rest
      else if rest.None? then Some(ts[count - 1].distance)
      else Some(Min(rest.value, ts[count - 1].distance))
  }

  /** The limit from road end, traffic ahead and busy bays, before conflict zones. */
  function TrafficLimit(c: Config, ts: seq<Truck>, i: nat, bays: Bays): real
    requires i < |ts|
  {
    var p := ts[i].phase;
    var ahead := NearestAhead(c, ts, i, |ts|);
    var open := if ahead.None? then RoadEnd(c, p)
                else if p.Queued? then ahead.value - c.queueSpacing
                else Min(RoadEnd(c, p), ahead.value - c.queueSpacing);
    if p.Hauling? && bays.tipping then Min(open, c.dump - c.queueSpacing)
    else if !p.Hauling? && bays.loading then Min(open, c.total - c.queueSpacing)
    else open
  }

  function MoveLimit(c: Config, ts: seq<Truck>, i: nat, bays: Bays): real
    requires i < |ts|
  {
    ConflictLimit(c, ts, i, TrafficLimit(c, ts, i, bays), |c.groups|)
  }

  // ---------------------------------------------------------------------------
  // One truck, one tick
  // ---------------------------------------------------------------------------

  function Duration(c: Config, plan: Plan, p: Phase): real {
    match p
    case Loading => c.loadingS * plan.loadingScale
    case Dumping => c.dumpingS * plan.dumpingScale
    case Reversing => c.reversingS
    case Exiting => c.reversingS
    case Lowering => c.loweringS
    case _ => 1.0
  }

  /** How far the truck could go in dt, on its plan and through its turn. */
  function Reach(c: Config, t: Truck, cruise: real, dt: real): real {
    var planned := cruise * t.plan.speedScale;
    var allowed := match c.turnCap(t.distance) case None => planned case Some(cap) => Min(planned, cap);
    allowed * dt
  }

  function Moved(t: Truck, limit: real, reach: real, dt: real): Truck
    requires dt > 0.0
  {
    var step := Min(reach, Max(0.0, limit - t.distance));
    var a := t.accounting;
    t.(distance := t.distance + step, speed := step / dt,
       accounting :=
         if step <= 0.0 then a.(idle := a.idle + dt)
         else if t.phase.Hauling? then
           a.(loadedDistance := a.loadedDistance + step, loadedTravel := a.loadedTravel + dt)
         else
           a.(emptyDistance := a.emptyDistance + step, emptyReturn := a.emptyReturn + dt))
  }

  /** Truck i of ts after its move of this tick. */
  function Advanced(c: Config, ts: seq<Truck>, i: nat, bays: Bays, dt: real, cruise: real): Truck
    requires i < |ts| && dt > 0.0
  {
    Moved(ts[i].(speed := 0.0), MoveLimit(c, ts, i, bays), Reach(c, ts[i], cruise, dt), dt)
  }

  function CompletedTrip(i: nat, t: Truck, stamp: real): Trip {
    var a := t.accounting;
    Trip(i, t.tripNumber, stamp - a.Time() * 1000.0, stamp, a.Time(), a.loadedDistance, a.emptyDistance, a)
  }

  function NextCycle(c: Config, i: nat, t: Truck): Truck {
    t.(phase := Queued, timer := 0.0, cycle := t.cycle + 1, tripNumber := t.tripNumber + 1,
       plan := c.plans(i, t.tripNumber + 1), accounting := EMPTY_ACCOUNTING)
  }

  function AfterTip(p: Phase): Phase
    requires AtTip(p)
  {
    match p
    case Reversing => Dumping
    case Dumping => Lowering
    case Lowering => Exiting
    case Exiting => Returning
  }

  /** The share of the planned load that is on the bed while loading. */
  function LoadShare(timer: real, duration: real): real
    requires duration != 0.0
  {
    Min(1.0, timer / duration)
  }

  /** The share of the load still on the bed while tipping. */
  function DumpShare(timer: real, duration: real): real
    requires duration != 0.0
  {
    1.0 - Max(0.0, Min(1.0, (timer / duration - 0.3) / 0.6))
  }

  function Loaded(c: Config, t: Truck, dt: real): Truck
    requires Duration(c, t.plan, Loading) > 0.0
  {
    var timer := t.timer + dt;
    var full := Duration(c, t.plan, Loading);
    var u := t.(speed := 0.0, timer := timer,
                accounting := t.accounting.(loading := t.accounting.loading + dt),
                payload := t.plan.payloadFraction * LoadShare(timer, full));
    if timer >= full then u.(phase := Hauling, timer := 0.0) else u
  }

  /** How far a truck docks in dt: at the speed that takes `full` seconds for the
      whole docking, for no longer than what is left of them. */
  function DockStep(length: real, full: real, timer: real, dt: real): real
    requires full != 0.0
  {
    length / full * Min(dt, Max(0.0, full - timer))
  }

  function Tipped(c: Config, t: Truck, dt: real): Truck
    requires AtTip(t.phase) && Duration(c, t.plan, t.phase) > 0.0
  {
    var full := Duration(c, t.plan, t.phase);
    var timer := t.timer + dt;
    var docking := t.phase.Reversing? || t.phase.Exiting?;
    var speed := if docking then c.dockingLength / full else 0.0;
    var travelled := DockStep(c.dockingLength, full, t.timer, dt);
    var a := t.accounting.(dumping := t.accounting.dumping + dt);
    var b := if t.phase.Reversing? then a.(loadedDistance := a.loadedDistance + travelled)
             else if t.phase.Exiting? then a.(emptyDistance := a.emptyDistance + travelled)
             else a;
    var u := t.(timer := timer, speed := speed, accounting := b,
                payload := if t.phase.Dumping? then t.plan.payloadFraction * DumpShare(timer, full) else t.payload);
    if timer >= full then u.(phase := AfterTip(t.phase), timer := 0.0, speed := 0.0) else u
  }

  /** The trucks part-way through a tick: which bays are taken and which trips were completed. */
  datatype Sweep = Sweep(trucks: seq<Truck>, bays: Bays, trips: seq<Trip>)

  predicate Timed(c: Config, t: Truck) {
    && Duration(c, t.plan, Loading) > 0.0 && Duration(c, t.plan, Reversing) > 0.0 && Duration(c, t.plan, Dumping) > 0.0
    && Duration(c, t.plan, Lowering) > 0.0 && Duration(c, t.plan, Exiting) > 0.0
  }

  function StepTruck(c: Config, s: Sweep, i: nat, dt: real, cruise: real, stamp: real): (r: Sweep)
    requires i < |s.trucks| && dt > 0.0 && Timed(c, s.trucks[i])
    ensures |r.trucks| == |s.trucks|
  {
    var t := s.trucks[i];
    match t.phase
    case Queued =>
      var m := Advanced(c, s.trucks, i, s.bays, dt, cruise);
      if m.distance >= c.total - TOL && !s.bays.loading then
        Sweep(s.trucks[i := m.(distance := 0.0, phase := Loading, timer := 0.0, speed := 0.0)],
              s.bays.(loading := true), s.trips)
      else s.(trucks := s.trucks[i := m])
    case Loading => s.(trucks := s.trucks[i := Loaded(c, t, dt)])
    case Hauling =>
      var m := Advanced(c, s.trucks, i, s.bays, dt, cruise);
      if m.distance >= c.dump - TOL && !s.bays.tipping then
        Sweep(s.trucks[i := m.(phase := Reversing, timer := 0.0)], s.bays.(tipping := true), s.trips)
      else s.(trucks := s.trucks[i := m])
    case Returning =>
      var m := Advanced(c, s.trucks, i, s.bays, dt, cruise);
      if m.distance >= c.total - TOL then
        s.(trucks := s.trucks[i := NextCycle(c, i, m)], trips := s.trips + [CompletedTrip(i, m, stamp)])
      else s.(trucks := s.trucks[i := m])
    case _ => s.(trucks := s.trucks[i := Tipped(c, t, dt)])
  }

  /** The tick after its first k trucks have been updated. */
  ghost function SweepTo(c: Config, ts: seq<Truck>, k: nat, dt: real, cruise: real, stamp: real): (r: Sweep)
    requires k <= |ts| && dt > 0.0 && AllTimed(c, ts)
    ensures |r.trucks| == |ts|
    ensures forall j | k <= j < |ts| :: r.trucks[j] == ts[j]
  {
    if k == 0 then Sweep(ts, BaysAt(ts), [])
    else StepTruck(c, SweepTo(c, ts, k - 1, dt, cruise, stamp), k - 1, dt, cruise, stamp)
  }

  ghost predicate AllTimed(c: Config, ts: seq<Truck>) {
    forall i | 0 <= i < |ts| :: Timed(c, ts[i])
  }

  predicate SomeLoading(ts: seq<Truck>) { exists i | 0 <= i < |ts| :: ts[i].phase.Loading? }

  predicate SomeTipping(ts: seq<Truck>) { exists i | 0 <= i < |ts| :: AtTip(ts[i].phase) }

  function BaysAt(ts: seq<Truck>): Bays { Bays(SomeLoading(ts), SomeTipping(ts)) }

  // ---------------------------------------------------------------------------
  // Ticks and runs
  // ---------------------------------------------------------------------------

  /** One call of `advance`. Without a timestamp the fleet's own clock is used. */
  datatype Tick = Tick(dt: real, running: bool, cruise: real, stamp: Option<real>, emergencyStopped: bool)
  {
    predicate Counts() { running && dt > 0.0 }
  }

  datatype Fleet = Fleet(trucks: seq<Truck>, elapsed: real)

  function Halted(t: Truck): Truck { t.(speed := 0.0) }

  function Idled(t: Truck, dt: real): Truck {
    t.(speed := 0.0, accounting := t.accounting.(idle := t.accounting.idle + dt))
  }

  function HaltedAll(ts: seq<Truck>): seq<Truck> {
    seq(|ts|, i requires 0 <= i < |ts| => Halted(ts[i]))
  }

  function IdledAll(ts: seq<Truck>, dt: real): seq<Truck> {
    seq(|ts|, i requires 0 <= i < |ts| => Idled(ts[i], dt))
  }

  function StampOf(tick: Tick, elapsed: real): real {
    match tick.stamp case Some(ms) => ms case None => elapsed * 1000.0
  }

  ghost function Advance(c: Config, f: Fleet, tick: Tick): (r: (Fleet, seq<Trip>))
    requires AllTimed(c, f.trucks)
    ensures |r.0.trucks| == |f.trucks|
  {
    if !tick.Counts() then
      (f.(trucks := HaltedAll(f.trucks)), [])
    else if tick.emergencyStopped then
      (Fleet(IdledAll(f.trucks, tick.dt), f.elapsed + tick.dt), [])
    else
      var elapsed := f.elapsed + tick.dt;
      var s := SweepTo(c, f.trucks, |f.trucks|, tick.dt, tick.cruise, StampOf(tick, elapsed));
      (Fleet(s.trucks, elapsed), s.trips)
  }

  /** Truck i as constructed, on the trip number it resumes with. */
  function StartingTruck(c: Config, i: nat, tripNumber: int): Truck {
    Truck(c.total - i as real * c.queueSpacing, c.plans(i, tripNumber), Queued, 0.0, 0.0, 0.0, 1, tripNumber, EMPTY_ACCOUNTING)
  }

  function StartingFleet(c: Config, numbers: seq<int>): Fleet {
    Fleet(seq(|numbers|, i requires 0 <= i < |numbers| => StartingTruck(c, i, numbers[i])), 0.0)
  }

  /** The trucks once their trip numbers have been set. */
  function Renumbered(c: Config, ts: seq<Truck>, numbers: seq<int>): seq<Truck>
    requires |numbers| == |ts|
  {
    seq(|ts|, i requires 0 <= i < |ts| => ts[i].(tripNumber := numbers[i], plan := c.plans(i, numbers[i])))
  }

  /** A fleet just constructed and then renumbered is the fleet that runs start from. */
  lemma ConstructedThenRenumbered(c: Config, numbers: seq<int>)
    ensures var built := StartingFleet(c, seq(|numbers|, _ => 1));
            |built.trucks| == |numbers|
            && StartingFleet(c, numbers) == Fleet(Renumbered(c, built.trucks, numbers), built.elapsed)
  {
    var built := StartingFleet(c, seq(|numbers|, _ => 1));
    assert Renumbered(c, built.trucks, numbers) == StartingFleet(c, numbers).trucks;
  }
}
