/** The adaptive groundwater loop (src/driver/Simulation.cpp:1043-1133), and what it shares with the coupled
    loop (src/driver/Simulation.cpp:853-945): steps, output labels and checkpoint labels. */
module TimeMarch {
  import opened AdaptiveStep
  import opened Decomposition

  const TOLERANCE := 0.000000001

  /** What the schema admits: whole-second intervals, outputs at least one second apart, a checkpoint
      interval of zero for none, and bounds on the step. */
  datatype Schedule = Schedule(tEnd: real, interval: nat, checkpointInterval: nat, dtMin: real, dtMax: real) {
    ghost predicate Ok() { interval >= 1 && 0.0 < dtMin <= dtMax }
    predicate Admits(dt: real) { dtMin <= dt <= dtMax }
  }

  /** The length of each step of a run, the first one numbered zero. */
  type Lengths = nat -> real

  ghost predicate Paced(s: Schedule, lengths: Lengths) { forall n: nat :: s.Admits(lengths(n)) }

  /** A dataset written: its label, and the time and length of the step that wrote it. */
  datatype Entry = Entry(stamp: real, t: real, dt: real)

  // ----- boundaries

  /** The number of the first boundary after t, up to the tolerance. */
  function BoundaryIndex(t: real, interval: nat): int
    requires interval >= 1
  {
    (t / interval as real + TOLERANCE).Floor + 1
  }

  function Stamp(index: int, interval: nat): real { index as real * interval as real }

  function NextBoundary(t: real, interval: nat): real
    requires interval >= 1
  {
    Stamp(BoundaryIndex(t, interval), interval)
  }

  lemma ScaledOrder(a: real, b: real, interval: nat)
    requires interval >= 1
    ensures a <= b ==> a * interval as real <= b * interval as real
    ensures a - b > TOLERANCE ==> a * interval as real - b * interval as real > TOLERANCE
  {
    assert a * interval as real - b * interval as real == (a - b) * interval as real;
  }

  /** The next boundary is ahead, by more than the scaled tolerance. */
  lemma BoundaryAhead(t: real, interval: nat)
    requires interval >= 1
    ensures t < NextBoundary(t, interval) - TOLERANCE
            && NextBoundary(t, interval) <= t + (1.0 + TOLERANCE) * interval as real
  {
    var q, n, i := t / interval as real, BoundaryIndex(t, interval) as real, interval as real;
    assert t == q * i;
    ScaledOrder(n, q, interval);
    ScaledOrder(n - q, 1.0 + TOLERANCE, interval);
    assert n * i - q * i == (n - q) * i;
  }

  /** A step that reaches a boundary moves the next one past it; one second apart is needed here. */
  lemma BoundaryPassed(t: real, interval: nat, index: int)
    requires interval >= 1 && t >= Stamp(index, interval) - TOLERANCE
    ensures BoundaryIndex(t, interval) > index
  {
    var q := t / interval as real;
    assert t == q * interval as real;
    ScaledOrder(index as real, q, interval);
  }

  // ----- one step

  datatype March = March(t: real, steps: nat, dtg: real, nextOutput: real, nextCheckpoint: real,
                         lastCheckpointTime: real,
                         outputs: seq<Entry>, checkpoints: seq<Entry>)

  function Start(s: Schedule, t0: real, dtg: real): March
    requires s.interval >= 1
  {
    March(t0, 0, dtg, NextBoundary(t0, s.interval), if s.checkpointInterval > 0
          then NextBoundary(t0, s.checkpointInterval) else 0.0,
          -1.0, [], [])
  }

  /** A step of the current length, the length of the next one, and what is written. */
  function Stepped(s: Schedule, m: March, next: real): March
    requires s.interval >= 1
  {
    var t := m.t + m.dtg;
    var output := t >= m.nextOutput - TOLERANCE;
    var checkpoint := s.checkpointInterval > 0 && t >= m.nextCheckpoint - TOLERANCE;
    March(t, m.steps + 1, next,
          if output then NextBoundary(t, s.interval) else m.nextOutput,
          if checkpoint then NextBoundary(t, s.checkpointInterval) else m.nextCheckpoint,
          if checkpoint then t else m.lastCheckpointTime,
          if output then m.outputs + [Entry(m.nextOutput, t, m.dtg)] else m.outputs,
          if checkpoint then m.checkpoints + [Entry(m.nextCheckpoint, t, m.dtg)] else m.checkpoints)
  }

  /** The state after n steps of the given lengths. */
  function After(s: Schedule, t0: real, lengths: Lengths, n: nat): March
    requires s.interval >= 1
  {
    if n == 0 then Start(s, t0, lengths(0)) else Stepped(s, After(s, t0, lengths, n - 1), lengths(n))
  }

  predicate Running(s: Schedule, m: March) { m.t < s.tEnd - TOLERANCE }

  /** The checkpoint written after the loop, unless the last step wrote one. */
  function FinalStamp(t: real): real { (t + 0.5).Floor as real }

  function Finished(s: Schedule, m: March): seq<Entry> {
    if s.checkpointInterval > 0 && m.lastCheckpointTime != m.t
      then m.checkpoints + [Entry(FinalStamp(m.t), m.t, m.dtg)] else m.checkpoints
  }

  // ----- what every run keeps

  /** A log's labels are multiples of the interval, strictly increasing, each written by the step
      that crossed it; all of them lie before the next label. */
  ghost predicate Orderly(log: seq<Entry>, interval: nat, next: real) {
    && (forall n :: 0 <= n < |log| ==> IsMultiple(log[n].stamp, interval) && log[n].stamp < next && Crossing(log[n]))
    && (forall n, m :: 0 <= n < m < |log| ==> log[n].stamp < log[m].stamp)
    && IsMultiple(next, interval)
  }

  ghost predicate IsMultiple(stamp: real, interval: nat) { exists n: int :: stamp == Stamp(n, interval) }

  /** The step's end has reached the label, its start had not. */
  predicate Crossing(e: Entry) { e.t - e.dt < e.stamp - TOLERANCE <= e.t }

  lemma NextIsMultiple(t: real, interval: nat)
    requires interval >= 1
    ensures IsMultiple(NextBoundary(t, interval), interval)
  {
  }

  /** One step of a log. */
  lemma LogGrows(log: seq<Entry>, interval: nat, next: real, t: real, dt: real)
    requires interval >= 1 && Orderly(log, interval, next) && t - dt < next - TOLERANCE && t >= next - TOLERANCE
    ensures Orderly(log + [Entry(next, t, dt)], interval, NextBoundary(t, interval))
            && t < NextBoundary(t, interval) - TOLERANCE
  {
    var n: int :| next == Stamp(n, interval);
    BoundaryPassed(t, interval, n);
    BoundaryAhead(t, interval);
    NextIsMultiple(t, interval);
    var m := BoundaryIndex(t, interval);
    ScaledOrder(n as real + 1.0, m as real, interval);
    assert (n as real + 1.0) * interval as real == Stamp(n, interval) + interval as real;
  }

  /** What the loop keeps about one log. */
  ghost predicate LogKept(log: seq<Entry>, interval: nat, next: real, t0: real, t: real) {
    && Orderly(log, interval, next) && (forall n :: 0 <= n < |log| ==> log[n].stamp > t0) && t < next - TOLERANCE
    && (log != [] ==> log[|log| - 1].t <= t)
  }

  /** Everything the loop keeps. */
  ghost predicate Kept(s: Schedule, t0: real, m: March)
    requires s.Ok()
  {
    && s.Admits(m.dtg) && t0 <= m.t
    && m.steps as real * s.dtMin <= m.t - t0 <= m.steps as real * s.dtMax
    && LogKept(m.outputs, s.interval, m.nextOutput, t0, m.t)
    && (if s.checkpointInterval > 0 then LogKept(m.checkpoints, s.checkpointInterval, m.nextCheckpoint, t0, m.t)
        else m.checkpoints == [])
    && m.lastCheckpointTime == if m.checkpoints == [] then -1.0 else m.checkpoints[|m.checkpoints| - 1].t
  }

  lemma StartKept(s: Schedule, t0: real, dtg: real)
    requires s.Ok() && s.Admits(dtg)
    ensures Kept(s, t0, Start(s, t0, dtg))
  {
    BoundaryAhead(t0, s.interval);
    NextIsMultiple(t0, s.interval);
    if s.checkpointInterval > 0 {
      BoundaryAhead(t0, s.checkpointInterval);
      NextIsMultiple(t0, s.checkpointInterval);
    }
  }

  lemma LogStepKept(log: seq<Entry>, interval: nat, next: real, t0: real, t: real, dt: real)
    requires interval >= 1 && dt > 0.0 && t0 <= t - dt && LogKept(log, interval, next, t0, t - dt)
    ensures if t >= next - TOLERANCE then LogKept(log + [Entry(next, t, dt)], interval, NextBoundary(t, interval), t0,
                                                  t)
            else LogKept(log, interval, next, t0, t)
  {
    if t >= next - TOLERANCE { LogGrows(log, interval, next, t, dt); }
  }

  lemma StepKept(s: Schedule, t0: real, m: March, next: real)
    requires s.Ok() && Kept(s, t0, m) && s.Admits(next)
    ensures Kept(s, t0, Stepped(s, m, next))
  {
    hide LogKept, NextBoundary;
    LogStepKept(m.outputs, s.interval, m.nextOutput, t0, m.t + m.dtg, m.dtg);
    if s.checkpointInterval > 0 {
      LogStepKept(m.checkpoints, s.checkpointInterval, m.nextCheckpoint, t0, m.t + m.dtg, m.dtg);
    }
    OneMore(m.steps, s.dtMin);
    OneMore(m.steps, s.dtMax);
  }

  lemma OneMore(n: nat, x: real)
    ensures (n + 1) as real * x == n as real * x + x
  {
  }

  /** Main result: in every run the steps are admissible and add up to the time, and output and
      checkpoint labels are strictly increasing multiples of their intervals after the start, each
      written by the step that crosses it. */
  lemma {:induction false} RunKept(s: Schedule, t0: real, lengths: Lengths, n: nat)
    requires s.Ok() && Paced(s, lengths)
    ensures Kept(s, t0, After(s, t0, lengths, n))
  {
    if n == 0 {
      StartKept(s, t0, lengths(0));
    } else {
      RunKept(s, t0, lengths, n - 1);
      StepKept(s, t0, After(s, t0, lengths, n - 1), lengths(n));
    }
  }

  // ----- dataset keys (src/io/Hdf5Output.cpp:66-75)

  /** The nearest whole number, halves away from zero. */
  function Rounded(t: real): int { if t >= 0.0 then (t + 0.5).Floor else -(0.5 - t).Floor }

  /** The key of a time, or an error when it is not a whole second. */
  function TimeKey(t: real): Result<int> {
    var off := t - Rounded(t) as real;
    if off > 0.000001 || off < -0.000001 then Err("not a whole second") else Ok(Rounded(t))
  }

  lemma WholeKey(z: int)
    ensures TimeKey(z as real) == Ok(z)
  {
    HalfUp(z);
    HalfUp(-z);
    assert Rounded(z as real) == z;
  }

  lemma HalfUp(z: int)
    ensures (z as real + 0.5).Floor == z
  {
    var f := (z as real + 0.5).Floor;
    var d := f - z;
    assert d as real == f as real - z as real;
    assert -0.5 < d as real <= 0.5;
  }

  lemma StampKey(stamp: real, interval: nat)
    requires IsMultiple(stamp, interval)
    ensures stamp == stamp.Floor as real && TimeKey(stamp) == Ok(stamp.Floor)
  {
    var n: int :| stamp == Stamp(n, interval);
    assert stamp == (n * interval) as real;
    WholeKey(n * interval);
  }

  /** Main result: no run writes two datasets of a log under one key, nor one under the key of a
      whole-second start. */
  lemma KeysDistinct(s: Schedule, z: int, lengths: Lengths, n: nat)
    requires s.Ok() && Paced(s, lengths)
    ensures var m := After(s, z as real, lengths, n);
      && (forall a :: 0 <= a < |m.outputs| ==> TimeKey(m.outputs[a].stamp).Ok? && TimeKey(m.outputs[a].stamp).value > z)
      && (forall a, b :: 0 <= a < b < |m.outputs| ==> TimeKey(m.outputs[a].stamp) != TimeKey(m.outputs[b].stamp))
      && (forall a :: 0 <= a < |m.checkpoints| ==> TimeKey(m.checkpoints[a].stamp).Ok?)
      && (forall a, b :: 0 <= a < b < |m.checkpoints| ==>
            TimeKey(m.checkpoints[a].stamp) != TimeKey(m.checkpoints[b].stamp))
  {
    RunKept(s, z as real, lengths, n);
    var m := After(s, z as real, lengths, n);
    hide After, TimeKey, IsMultiple;
    LogKeys(m.outputs, s.interval, m.nextOutput);
    if s.checkpointInterval > 0 { LogKeys(m.checkpoints, s.checkpointInterval, m.nextCheckpoint); }
  }

  lemma LogKeys(log: seq<Entry>, interval: nat, next: real)
    requires Orderly(log, interval, next)
    ensures forall a :: 0 <= a < |log| ==> log[a].stamp == log[a].stamp.Floor as real
                                           && TimeKey(log[a].stamp) == Ok(log[a].stamp.Floor)
  {
    forall a | 0 <= a < |log|
      ensures log[a].stamp == log[a].stamp.Floor as real && TimeKey(log[a].stamp) == Ok(log[a].stamp.Floor)
    {
      StampKey(log[a].stamp, interval);
    }
  }

  /** The final checkpoint's label is a whole second, never before the last label; it repeats an
      earlier key exactly when the run ends less than half a second past the last label, in a
      later step than the one that wrote it. */
  lemma FinalRepeatsIff(s: Schedule, t0: real, lengths: Lengths, n: nat)
    requires s.Ok() && Paced(s, lengths) && s.checkpointInterval > 0
    ensures var m := After(s, t0, lengths, n);
      var all := Finished(s, m);
      (exists a, b :: 0 <= a < b < |all| && all[a].stamp == all[b].stamp)
      <==> m.checkpoints != [] && m.checkpoints[|m.checkpoints| - 1].t != m.t
           && m.t < m.checkpoints[|m.checkpoints| - 1].stamp + 0.5
  {
    RunKept(s, t0, lengths, n);
    var m := After(s, t0, lengths, n);
    hide After;
    var log := m.checkpoints;
    if log != [] {
      var last := log[|log| - 1].stamp;
      StampKey(last, s.checkpointInterval);
      assert last - TOLERANCE <= m.t;
      assert FinalStamp(m.t) >= last && (FinalStamp(m.t) == last <==> m.t < last + 0.5) by {
        FinalAfter(m.t, last.Floor);
      }
      if m.lastCheckpointTime != m.t && m.t < last + 0.5 {
        assert Finished(s, m)[|log| - 1].stamp == Finished(s, m)[|log|].stamp;
      }
    } else if m.lastCheckpointTime == m.t {
      assert Finished(s, m) == [];
    }
  }

  lemma FinalAfter(t: real, last: int)
    requires last as real - TOLERANCE <= t
    ensures FinalStamp(t) >= last as real && (FinalStamp(t) == last as real <==> t < last as real + 0.5)
  {
    var f := (t + 0.5).Floor;
    assert f as real <= t + 0.5 < f as real + 1.0;
    var d := f - last;
    assert d as real == f as real - last as real;
    assert d as real > -1.0;
    assert d >= 0;
    if t < last as real + 0.5 { assert d as real < 1.0; } else { assert d as real > 0.0; }
  }

  // ----- the lengths of the two loops

  /** The groundwater loop: the controller's choice after each step, from the cell measures. */
  function Adapted(control: Controller, dtInit: real, measured: nat -> (real, real), n: nat): real {
    if n == 0 then dtInit else NextStep(control, Adapted(control, dtInit, measured, n - 1), measured(n - 1).0,
                                        measured(n - 1).1)
  }
  function AdaptedLengths(control: Controller, dtInit: real, measured: nat -> (real, real)): (r: Lengths)
    ensures forall n: nat :: r(n) == Adapted(control, dtInit, measured, n)
  {
    (n: nat) => Adapted(control, dtInit, measured, n)
  }

  lemma {:induction false} AdaptedAdmitted(control: Controller, dtInit: real, measured: nat -> (real, real), n: nat)
    requires control.Ok() && control.Admits(dtInit)
    ensures control.Admits(Adapted(control, dtInit, measured, n))
  {
    if n > 0 {
      AdaptedAdmitted(control, dtInit, measured, n - 1);
      NextStepBounds(control, Adapted(control, dtInit, measured, n - 1), measured(n - 1).0, measured(n - 1).1);
    }
  }

  /** Every adaptive run is paced by the controller's bounds. */
  lemma AdaptedPaced(s: Schedule, control: Controller, dtInit: real, measured: nat -> (real, real))
    requires control.Ok() && control.Admits(dtInit) && s.dtMin == control.dtMin && s.dtMax == control.dtMax
    ensures Paced(s, AdaptedLengths(control, dtInit, measured))
  {
    hide Adapted;
    forall n: nat ensures s.Admits(AdaptedLengths(control, dtInit, measured)(n)) {
      AdaptedAdmitted(control, dtInit, measured, n);
    }
  }

  /** It does happen: one step of a second, then a fifth of a second past t_end = 1.1. */
  lemma FinalCanRepeat()
    ensures var c := Controller(0.1, 1.0, 0.1, 1.0);
      var s, lengths := Schedule(1.1, 1, 1, 0.1, 1.0), AdaptedLengths(c, 1.0, n => (0.0, 0.2));
      var m := After(s, 0.0, lengths, 2);
      && s.Ok() && c.Ok() && Running(s, After(s, 0.0, lengths, 1)) && !Running(s, m)
      && |Finished(s, m)| == 2 && Finished(s, m)[0].stamp == Finished(s, m)[1].stamp == 1.0
  {
    var c, s := Controller(0.1, 1.0, 0.1, 1.0), Schedule(1.1, 1, 1, 0.1, 1.0);
    var measured: nat -> (real, real) := n => (0.0, 0.2);
    var lengths := AdaptedLengths(c, 1.0, measured);
    assert lengths(0) == 1.0 && lengths(1) == 0.2 by { assert lengths(1) == NextStep(c, 1.0, 0.0, 0.2); }
    var m0 := After(s, 0.0, lengths, 0);
    assert m0.nextOutput == 1.0 && m0.nextCheckpoint == 1.0 by { assert BoundaryIndex(0.0, 1) == 1; }
    var m1 := After(s, 0.0, lengths, 1);
    assert m1 == Stepped(s, m0, lengths(1));
    assert m1.t == 1.0 && m1.nextCheckpoint == 2.0 by { assert BoundaryIndex(1.0, 1) == 2; }
    var m2 := After(s, 0.0, lengths, 2);
    assert m2 == Stepped(s, m1, lengths(2)) && m2.t == 1.2;
    assert FinalStamp(1.2) == 1.0;
  }

  // ----- the loops

  class Simulation {
    const schedule: Schedule
    const control: Controller
    var dtg: real
    var outputs: seq<Entry>
    var checkpoints: seq<Entry>

    constructor (s: Schedule, control: Controller, dtInit: real)
      ensures schedule == s && this.control == control && dtg == dtInit && outputs == checkpoints == []
    {
      schedule, this.control, dtg, outputs, checkpoints := s, control, dtInit, [], [];
    }

    /** The outputs and checkpoints due when a step of length dt has reached t. */
    method WriteDue(ghost m: March, ghost next: real, t: real, dt: real, output: real, checkpoint: real, last: real)
      returns (nextOutput: real, nextCheckpoint: real, lastCheckpointTime: real)
      requires schedule.Ok() && m == March(t - dt, m.steps, dt, output, checkpoint, last, m.outputs, m.checkpoints)
      modifies this`outputs, this`checkpoints
      ensures var n := Stepped(schedule, m, next);
        && n == March(t, m.steps + 1, next, nextOutput, nextCheckpoint, lastCheckpointTime, n.outputs, n.checkpoints)
        && (forall log :: old(outputs) == log + m.outputs ==> outputs == log + n.outputs)
        && (forall log :: old(checkpoints) == log + m.checkpoints ==> checkpoints == log + n.checkpoints)
    {
      nextOutput, nextCheckpoint, lastCheckpointTime := output, checkpoint, last;
      if t >= nextOutput - TOLERANCE {
        var stamp := nextOutput;
        nextOutput := NextBoundary(t, schedule.interval);
        outputs := outputs + [Entry(stamp, t, dt)];
      }
      if schedule.checkpointInterval > 0 && t >= nextCheckpoint - TOLERANCE {
        var stamp := nextCheckpoint;
        nextCheckpoint := NextBoundary(t, schedule.checkpointInterval);
        lastCheckpointTime := t;
        checkpoints := checkpoints + [Entry(stamp, t, dt)];
      }
    }

    /** What a finished loop leaves: the outputs and checkpoints of exactly the steps that were needed. */
    twostate predicate Marched(t0: real, lengths: Lengths, t: real, step: nat)
      reads this
      requires schedule.Ok()
    {
      var m := After(schedule, t0, lengths, step);
      && t == m.t && !Running(schedule, m)
      && outputs == old(outputs) + m.outputs && checkpoints == old(checkpoints) + Finished(schedule, m)
      && (forall n: nat :: n < step ==> Running(schedule, After(schedule, t0, lengths, n)))
      && step as real * schedule.dtMin <= t - t0
    }

    /** The groundwater loop: it stops at the first step that reaches the end time. */
    method RunGroundwaterLoop(t0: real, measured: nat -> (real, real)) returns (t: real, step: nat)
      requires schedule.Ok() && control.Ok() && control.Admits(dtg)
      requires schedule.dtMin == control.dtMin && schedule.dtMax == control.dtMax
      modifies this
      ensures Marched(t0, AdaptedLengths(control, old(dtg), measured), t, step)
      ensures dtg == Adapted(control, old(dtg), measured, step)
    {
      hide BoundaryIndex, NextStep, LogKept, After, Stepped, Adapted;
      ghost var lengths := AdaptedLengths(control, dtg, measured);
      AdaptedPaced(schedule, control, dtg, measured);
      AdaptedStart(control, dtg, measured);
      var nextOutput := NextBoundary(t0, schedule.interval);
      var nextCheckpoint := if schedule.checkpointInterval > 0 then NextBoundary(t0, schedule.checkpointInterval)
        else 0.0;
      var lastCheckpointTime := -1.0;
      t, step := t0, 0;
      ghost var m := Start(schedule, t0, dtg);
      AfterNone(schedule, t0, lengths);
      RunKept(schedule, t0, lengths, 0);
      while t < schedule.tEnd - TOLERANCE
        invariant m == After(schedule, t0, lengths, step) && Kept(schedule, t0, m)
                  && dtg == Adapted(control, old(dtg), measured, step)
        invariant m == March(t, step, dtg, nextOutput, nextCheckpoint, lastCheckpointTime, m.outputs, m.checkpoints)
        invariant outputs == old(outputs) + m.outputs && checkpoints == old(checkpoints) + m.checkpoints
        invariant forall n: nat :: n < step ==> Running(schedule, After(schedule, t0, lengths, n))
        decreases Left(schedule, t)
      {
        AfterNext(schedule, t0, lengths, step);
        AdaptedNext(control, old(dtg), measured, step);
        RunKept(schedule, t0, lengths, step + 1);
        LeftShrinks(schedule, t, dtg);
        var dt := dtg;
        t := t + dt;
        dtg := NextStep(control, dtg, measured(step).0, measured(step).1);
        step := step + 1;
        nextOutput, nextCheckpoint, lastCheckpointTime :=
          WriteDue(m, dtg, t, dt, nextOutput, nextCheckpoint, lastCheckpointTime);
        m := Stepped(schedule, m, dtg);
      }
      if schedule.checkpointInterval > 0 && lastCheckpointTime != t {
        checkpoints := checkpoints + [Entry(FinalStamp(t), t, dtg)];
      }
    }
  }

  lemma AdaptedStart(control: Controller, dtInit: real, measured: nat -> (real, real))
    ensures Adapted(control, dtInit, measured, 0) == dtInit
  {
  }

  lemma AdaptedNext(control: Controller, dtInit: real, measured: nat -> (real, real), n: nat)
    ensures Adapted(control, dtInit, measured, n + 1)
            == NextStep(control, Adapted(control, dtInit, measured, n), measured(n).0, measured(n).1)
  {
  }

  /** The steps left at the shortest length. */
  ghost function Left(s: Schedule, t: real): real
    requires s.Ok()
  {
    if t < s.tEnd - TOLERANCE then (s.tEnd - t) / s.dtMin + 1.0 else 0.0
  }

  lemma LeftShrinks(s: Schedule, t: real, dt: real)
    requires s.Ok() && s.Admits(dt) && t < s.tEnd - TOLERANCE
    ensures 0.0 <= Left(s, t + dt) <= Left(s, t) - 1.0
  {
    var left, lo := s.tEnd - t, s.dtMin;
    assert Left(s, t) == Over(left, lo) + 1.0 && Over(left, lo) > 0.0 by { OverSign(left, lo); }
    OverMinus(left, dt, lo);
    OverSign(dt, lo);
    if t + dt < s.tEnd - TOLERANCE {
      OverSign(left - dt, lo);
      assert Left(s, t + dt) == Over(left - dt, lo) + 1.0;
    }
    hide Over;
  }

  ghost function Over(x: real, lo: real): real requires lo > 0.0 { x / lo }

  lemma OverMinus(x: real, y: real, lo: real)
    requires lo > 0.0
    ensures Over(x - y, lo) == Over(x, lo) - Over(y, lo)
  {
  }

  lemma OverSign(x: real, lo: real)
    requires lo > 0.0
    ensures x > 0.0 ==> Over(x, lo) > 0.0
    ensures x >= lo ==> Over(x, lo) >= 1.0
  {
    assert Over(x, lo) * lo == x;
  }

  lemma AfterNone(s: Schedule, t0: real, lengths: Lengths)
    requires s.Ok()
    ensures After(s, t0, lengths, 0) == Start(s, t0, lengths(0))
  {
  }

  lemma AfterNext(s: Schedule, t0: real, lengths: Lengths, n: nat)
    requires s.Ok()
    ensures After(s, t0, lengths, n + 1) == Stepped(s, After(s, t0, lengths, n), lengths(n + 1))
  {
  }

  lemma AfterLength(s: Schedule, t0: real, lengths: Lengths, n: nat)
    requires s.Ok()
    ensures After(s, t0, lengths, n).dtg == lengths(n)
  {
  }

  /** The first n steps do not depend on the lengths of those after them. */
  lemma {:induction false} AfterSame(s: Schedule, t0: real, lengths: Lengths, lengths': Lengths, n: nat)
    requires s.Ok() && forall k: nat :: k <= n ==> lengths'(k) == lengths(k)
    ensures After(s, t0, lengths', n) == After(s, t0, lengths, n)
  {
    if n > 0 { AfterSame(s, t0, lengths, lengths', n - 1); }
  }
}
