/** When a linear system's preconditioner is rebuilt, reused or retried (src/core/LinearSystem.cpp:393-456,
    src/core/LinearSystem.hpp:144-148), over any history of solves. The Krylov solver is an oracle
    whose outcomes are inputs. */
module SolverPolicy {
  import opened Decomposition

  /** Reuse is on for multigrid preconditioners with a positive cadence. */
  datatype Settings = Settings(reusable: bool, maxSolves: nat, factor: real) {
    predicate Ok() { reusable ==> maxSolves > 0 }
  }

  /** What one pass of the solver reports, the same on every rank. */
  datatype Outcome = Outcome(converged: bool, iterations: nat)

  /** A solve: whether a rebuild was requested since the last one, its first pass, and the second
      pass it would take after a rebuild. */
  datatype Input = Input(forced: bool, first: Outcome, retry: Outcome)

  datatype Telemetry = Telemetry(solves: nat, totalIterations: nat, maxIterations: nat, rebuilds: nat, retries: nat)

  /** A finished solve: the preconditioner built last, whether this solve built it, and whether
      that took a second pass. */
  datatype Record = Record(hierarchy: nat, built: bool, retried: bool, iterations: nat)

  datatype Policy = Policy(rebuildNext: bool, sinceRebuild: nat, baseline: nat, frozen: bool, hierarchies: nat,
                           telemetry: Telemetry)

  const START := Policy(true, 0, 0, false, 0, Telemetry(0, 0, 0, 0, 0))

  /** A pass builds a preconditioner unless the current one is frozen. */
  function Passed(p: Policy): Policy { if p.frozen then p else p.(hierarchies := p.hierarchies + 1) }

  predicate TooMany(s: Settings, iterations: nat, baseline: nat) {
    iterations as real > s.factor * baseline as real + 2.0
  }

  /** Whether a solve is to be retried, whether it builds, and the state its passes leave. */
  predicate Retries(s: Settings, p: Policy, first: Outcome) { !first.converged && s.reusable && !p.rebuildNext }
  predicate Builds(s: Settings, p: Policy, first: Outcome) { s.reusable && (p.rebuildNext || !first.converged) }
  function Tried(s: Settings, p: Policy, first: Outcome): Policy {
    var once := Passed(if s.reusable && p.rebuildNext then p.(frozen := false) else p);
    if Retries(s, p, first) then Passed(once.(frozen := false)) else once
  }

  // ----- the state machine

  class LinearSystem {
    const settings: Settings
    var rebuildNext: bool
    var sinceRebuild: nat
    var baseline: nat
    var frozen: bool
    var hierarchies: nat
    var telemetry: Telemetry

    ghost function Value(): Policy
      reads this
    {
      Policy(rebuildNext, sinceRebuild, baseline, frozen, hierarchies, telemetry)
    }

    constructor (s: Settings)
      ensures settings == s && Value() == START
    {
      settings := s;
      rebuildNext, sinceRebuild, baseline, frozen, hierarchies := true, 0, 0, false, 0;
      telemetry := Telemetry(0, 0, 0, 0, 0);
    }

    method ForceRebuild()
      modifies this
      ensures Value() == old(Value()).(rebuildNext := true)
    {
      rebuildNext := true;
    }

    /** One timed pass: sets up the preconditioner unless it is frozen. */
    method SolveOnce(o: Outcome) returns (reached: Outcome)
      modifies this
      ensures reached == o && Value() == Passed(old(Value()))
    {
      if !frozen { hierarchies := hierarchies + 1; }
      return o;
    }

    method Solve(first: Outcome, retry: Outcome) returns (r: Result<Record>)
      modifies this
      ensures r.Ok? <==> Solved(settings, old(Value()), first, retry).Ok?
      ensures r.Ok? ==> (Value(), r.value) == Solved(settings, old(Value()), first, retry).value
    {
      hide TooMany;
      ghost var p := Value();
      var rebuilt := false;
      if settings.reusable {
        if rebuildNext {
          frozen := false;
          rebuilt := true;
        }
      }
      var o := SolveOnce(first);
      var retried := false;
      if !o.converged && settings.reusable && !rebuilt {
        frozen := false;
        rebuilt := true;
        telemetry := telemetry.(retries := telemetry.retries + 1);
        retried := true;
        o := SolveOnce(retry);
      }
      assert Value() == Tried(settings, p, first).(telemetry := telemetry) && rebuilt == Builds(settings, p, first);
      if !o.converged { return Err("diverged"); }
      if settings.reusable {
        if rebuilt {
          frozen := true;
          baseline := o.iterations;
          sinceRebuild := 0;
          rebuildNext := false;
          telemetry := telemetry.(rebuilds := telemetry.rebuilds + 1);
        }
        sinceRebuild := sinceRebuild + 1;
        if TooMany(settings, o.iterations, baseline) || sinceRebuild >= settings.maxSolves {
          rebuildNext := true;
        }
      } else {
        telemetry := telemetry.(rebuilds := telemetry.rebuilds + 1);
      }
      telemetry := telemetry.(solves := telemetry.solves + 1, totalIterations :=
                              telemetry.totalIterations + o.iterations,
        maxIterations := Max(telemetry.maxIterations, o.iterations));
      return Ok(Record(hierarchies, rebuilt || !settings.reusable, retried, o.iterations));
    }

    /** A history of solves, each perhaps after a request to rebuild: the records of the run, or the
        error of its first fatal solve. */
    method SolveAll(inputs: seq<Input>) returns (r: Result<seq<Record>>)
      requires Value() == START
      modifies this
      ensures r.Ok? <==> Run(settings, inputs).Ok?
      ensures r.Ok? ==> Run(settings, inputs).value == History(Value(), r.value)
    {
      hide Solved;
      var log: seq<Record> := [];
      for n := 0 to |inputs|
        invariant Run(settings, inputs[..n]) == Ok(History(Value(), log))
      {
        assert inputs[..n + 1][..n] == inputs[..n];
        if inputs[n].forced { ForceRebuild(); }
        var next := Solve(inputs[n].first, inputs[n].retry);
        if next.Err? {
          FailsFrom(settings, inputs, n + 1);
          return Err(next.message);
        }
        log := log + [next.value];
      }
      assert inputs[..|inputs|] == inputs;
      return Ok(log);
    }
  }

  /** A solve as a function of the state and the outcomes, which all ranks share. */
  function Solved(s: Settings, p: Policy, first: Outcome, retry: Outcome): Result<(Policy, Record)> {
    var retried, built, tried := Retries(s, p, first), Builds(s, p, first), Tried(s, p, first);
    var o := if retried then retry else first;
    if !o.converged then Err("diverged")
    else
      var base := if built then o.iterations else p.baseline;
      var since := if built then 1 else p.sinceRebuild + 1;
      var t := p.telemetry;
      var told := Telemetry(t.solves + 1, t.totalIterations + o.iterations, Max(t.maxIterations, o.iterations),
                            if built || !s.reusable then t.rebuilds + 1 else t.rebuilds, if retried then t.retries + 1
                              else t.retries);
      Ok((if s.reusable then Policy(TooMany(s, o.iterations, base) || since >= s.maxSolves, since, base,
                                    built || tried.frozen, tried.hierarchies, told)
          else tried.(telemetry := told),
          Record(tried.hierarchies, built || !s.reusable, retried, o.iterations)))
  }

  // ----- histories

  datatype History = History(policy: Policy, log: seq<Record>)

  /** The state and the records after a history of solves, unless one of them was fatal. */
  function Run(s: Settings, inputs: seq<Input>): Result<History> {
    if inputs == [] then Ok(History(START, []))
    else
      var before, i := Run(s, inputs[..|inputs| - 1]), inputs[|inputs| - 1];
      if before.Err? then before
      else
        var p := before.value.policy;
        var next := Solved(s, if i.forced then p.(rebuildNext := true) else p, i.first, i.retry);
        if next.Err? then Err(next.message) else Ok(History(next.value.0, before.value.log + [next.value.1]))
  }

  /** A run that failed stays failed. */
  lemma {:induction false} FailsFrom(s: Settings, inputs: seq<Input>, n: nat)
    requires n <= |inputs| && Run(s, inputs[..n]).Err?
    ensures Run(s, inputs).Err?
    decreases |inputs|
  {
    if n == |inputs| {
      assert inputs[..n] == inputs;
    } else {
      assert inputs[..|inputs| - 1][..n] == inputs[..n];
      FailsFrom(s, inputs[..|inputs| - 1], n);
      hide Solved;
    }
  }

  /** How many solves of a log used a preconditioner. */
  function Sharing(log: seq<Record>, hierarchy: nat): nat {
    if log == [] then 0 else Sharing(log[..|log| - 1], hierarchy) + if log[|log| - 1].hierarchy == hierarchy then 1
      else 0
  }

  /** The iteration count of the last solve that built. */
  function Baseline(log: seq<Record>): nat {
    if log == [] then 0 else if log[|log| - 1].built then log[|log| - 1].iterations else Baseline(log[..|log| - 1])
  }

  /** Whether a log calls for a rebuild: nothing built yet, too many iterations, or old age. */
  predicate Due(s: Settings, log: seq<Record>) {
    log == [] || TooMany(s, log[|log| - 1].iterations, Baseline(log))
      || Sharing(log, log[|log| - 1].hierarchy) >= s.maxSolves
  }

  /** The counters of a log. */
  function Told(log: seq<Record>): Telemetry {
    if log == [] then Telemetry(0, 0, 0, 0, 0)
    else
      var t, r := Told(log[..|log| - 1]), log[|log| - 1];
      Telemetry(|log|, t.totalIterations + r.iterations, Max(t.maxIterations, r.iterations),
                t.rebuilds + (if r.built then 1 else 0), t.retries + (if r.retried then 1 else 0))
  }

  function LastHierarchy(log: seq<Record>): nat { if log == [] then 0 else log[|log| - 1].hierarchy }

  /** What the fields mean in terms of the history. */
  ghost predicate Faithful(s: Settings, h: History) {
    && h.policy.telemetry == Told(h.log) && h.policy.hierarchies == LastHierarchy(h.log)
    && (forall n :: 0 <= n < |h.log| ==> h.log[n].hierarchy <= LastHierarchy(h.log))
    && (if s.reusable then
          && h.policy.rebuildNext == Due(s, h.log) && h.policy.frozen == (h.log != [])
          && h.policy.sinceRebuild == Sharing(h.log, LastHierarchy(h.log)) && h.policy.baseline == Baseline(h.log)
          && forall g: nat :: Sharing(h.log, g) <= s.maxSolves
        else !h.policy.frozen)
  }

  lemma {:induction false} NotYetShared(log: seq<Record>, g: nat)
    requires forall n :: 0 <= n < |log| ==> log[n].hierarchy < g
    ensures Sharing(log, g) == 0
  {
    if log != [] { NotYetShared(log[..|log| - 1], g); }
  }

  /** Appending a record. */
  lemma Appended(log: seq<Record>, r: Record)
    ensures (log + [r])[..|log|] == log
    ensures forall g: nat :: Sharing(log + [r], g) == Sharing(log, g) + if r.hierarchy == g then 1 else 0
    ensures Baseline(log + [r]) == if r.built then r.iterations else Baseline(log)
    ensures Told(log + [r]) == Telemetry(|log| + 1, Told(log).totalIterations + r.iterations,
                                         Max(Told(log).maxIterations, r.iterations),
      Told(log).rebuilds + (if r.built then 1 else 0), Told(log).retries + (if r.retried then 1 else 0))
  {
    assert (log + [r])[..|log|] == log;
  }

  lemma {:induction false} RunIsFaithful(s: Settings, inputs: seq<Input>)
    requires s.Ok() && Run(s, inputs).Ok?
    ensures Faithful(s, Run(s, inputs).value) && |Run(s, inputs).value.log| == |inputs|
  {
    if inputs != [] {
      var h, i := Run(s, inputs[..|inputs| - 1]).value, inputs[|inputs| - 1];
      RunIsFaithful(s, inputs[..|inputs| - 1]);
      var p := if i.forced then h.policy.(rebuildNext := true) else h.policy;
      SolveIsFaithful(s, h, p, i.first, i.retry);
    }
  }

  lemma SolveIsFaithful(s: Settings, h: History, p: Policy, first: Outcome, retry: Outcome)
    requires s.Ok() && Faithful(s, h) && p == h.policy.(rebuildNext := p.rebuildNext)
             && (h.policy.rebuildNext ==> p.rebuildNext)
    requires Solved(s, p, first, retry).Ok?
    ensures var (q, r) := Solved(s, p, first, retry).value;
      Faithful(s, History(q, h.log + [r]))
  {
    var (q, r) := Solved(s, p, first, retry).value;
    Appended(h.log, r);
    NotYetShared(h.log, LastHierarchy(h.log) + 1);
  }

  /** The records of a run extend those of its shorter runs. */
  lemma {:induction false} RunExtends(s: Settings, inputs: seq<Input>, n: nat)
    requires Run(s, inputs).Ok? && n <= |inputs|
    ensures Run(s, inputs[..n]).Ok? && |Run(s, inputs).value.log| == |inputs|
            && Run(s, inputs[..n]).value.log == Run(s, inputs).value.log[..n]
    decreases |inputs|
  {
    hide Solved;
    if n == |inputs| {
      assert inputs[..n] == inputs;
      if n > 0 { RunExtends(s, inputs[..n - 1], n - 1); }
    } else {
      RunExtends(s, inputs[..|inputs| - 1], n);
      assert inputs[..|inputs| - 1][..n] == inputs[..n];
    }
  }

  /** The n-th record of a run comes from the n-th solve, started in the state of the first n. */
  lemma RecordOf(s: Settings, inputs: seq<Input>, n: nat)
    requires Run(s, inputs).Ok? && n < |inputs|
    ensures |Run(s, inputs).value.log| == |inputs| && Run(s, inputs[..n]).Ok?
    ensures var p := Run(s, inputs[..n]).value.policy;
      var start := if inputs[n].forced then p.(rebuildNext := true) else p;
      Solved(s, start, inputs[n].first, inputs[n].retry).Ok?
      && Run(s, inputs).value.log[n] == Solved(s, start, inputs[n].first, inputs[n].retry).value.1
  {
    hide Solved;
    RunExtends(s, inputs, n);
    RunExtends(s, inputs, n + 1);
    assert inputs[..n + 1][..n] == inputs[..n];
  }

  /** Main result: no preconditioner serves more than the configured number of solves. */
  lemma SharedAtMost(s: Settings, inputs: seq<Input>, hierarchy: nat)
    requires s.Ok() && s.reusable && Run(s, inputs).Ok?
    ensures Sharing(Run(s, inputs).value.log, hierarchy) <= s.maxSolves
  {
    RunIsFaithful(s, inputs);
  }

  /** Main result: a solve sets out to rebuild exactly when a rebuild was requested since the last
      solve, or the last one called for it by age or iterations; otherwise it reuses, and it is
      retried exactly when the reused preconditioner diverges. */
  lemma RebuiltIffDue(s: Settings, inputs: seq<Input>, n: nat)
    requires s.Ok() && s.reusable && Run(s, inputs).Ok? && n < |inputs|
    ensures |Run(s, inputs).value.log| == |inputs|
    ensures var log := Run(s, inputs).value.log;
      var planned := inputs[n].forced || Due(s, log[..n]);
      && (log[n].built && !log[n].retried <==> planned)
      && (log[n].retried <==> !planned && !inputs[n].first.converged)
      && log[n].hierarchy == LastHierarchy(log[..n]) + (if log[n].built then 1 else 0)
      && log[n].iterations == if log[n].retried then inputs[n].retry.iterations else inputs[n].first.iterations
  {
    RecordOf(s, inputs, n);
    RunExtends(s, inputs, n);
    RunIsFaithful(s, inputs[..n]);
    hide Due;
  }

  /** Without reuse every solve builds its own. */
  lemma AlwaysBuilt(s: Settings, inputs: seq<Input>, n: nat)
    requires s.Ok() && !s.reusable && Run(s, inputs).Ok? && n < |inputs|
    ensures |Run(s, inputs).value.log| == |inputs|
    ensures Run(s, inputs).value.log[n] == Record(n + 1, true, false, inputs[n].first.iterations)
    decreases n
  {
    RecordOf(s, inputs, n);
    RunExtends(s, inputs, n);
    RunIsFaithful(s, inputs[..n]);
    if n > 0 { AlwaysBuilt(s, inputs, n - 1); }
  }

  /** Main result: a run is fatal exactly at a solve that diverges on a fresh preconditioner, at
      the first pass or after the one rebuild. */
  lemma FatalIff(s: Settings, inputs: seq<Input>, last: Input)
    requires s.Ok() && Run(s, inputs).Ok?
    ensures Run(s, inputs + [last]).Err? <==>
            !last.first.converged && (!s.reusable || last.forced || Due(s, Run(s, inputs).value.log)
                                      || !last.retry.converged)
  {
    assert (inputs + [last])[..|inputs|] == inputs;
    RunIsFaithful(s, inputs);
    hide Due;
  }

  /** The counters match the history; the rebuilds counted are the preconditioners ever built. */
  lemma CountersMatch(s: Settings, inputs: seq<Input>)
    requires s.Ok() && Run(s, inputs).Ok?
    ensures Run(s, inputs).value.policy.telemetry == Told(Run(s, inputs).value.log)
    ensures Run(s, inputs).value.policy.telemetry.solves == |inputs|
    ensures Run(s, inputs).value.policy.telemetry.rebuilds == LastHierarchy(Run(s, inputs).value.log)
  {
    RunIsFaithful(s, inputs);
    RebuildsAreHierarchies(s, inputs);
  }

  lemma {:induction false} RebuildsAreHierarchies(s: Settings, inputs: seq<Input>)
    requires s.Ok() && Run(s, inputs).Ok?
    ensures Told(Run(s, inputs).value.log).rebuilds == LastHierarchy(Run(s, inputs).value.log)
  {
    if inputs != [] {
      var n := |inputs| - 1;
      RebuildsAreHierarchies(s, inputs[..n]);
      RunExtends(s, inputs, n);
      if s.reusable {
        RebuiltIffDue(s, inputs, n);
      } else {
        AlwaysBuilt(s, inputs, n);
        if n > 0 { AlwaysBuilt(s, inputs, n - 1); }
      }
      hide Solved, Due;
      var log := Run(s, inputs).value.log;
      Appended(log[..n], log[n]);
      assert log == log[..n] + [log[n]];
    }
  }
}
