/** The run loop as it executes (python/simulation.py:2934-2982, 5285-5433): combinators call their
    functions in turn and overwrite their closures. */
module Simulations {
  import opened StepFunctions
  import opened RunLoop

  /** A stop condition: a number of time units, or a function of the simulation. A function sees the
      fields after n steps and is called once for each n, so its answer depends on n only. */
  datatype Cond = StopTime(duration: real) | StopWhen(holds: nat -> bool)

  /** stop_time after the loop over the conditions: the last number among them. */
  function LastNumber(conds: seq<Cond>): real {
    if conds == [] then 0.0
    else if conds[|conds| - 1].StopTime? then conds[|conds| - 1].duration
    else LastNumber(conds[..|conds| - 1])
  }

  /** Every numeric condition compares with the same variable. */
  predicate Holds(c: Cond, start: real, stopTime: real, n: nat, h: real) {
    match c
    case StopTime(_) => TimeAt(n, h) >= start + stopTime
    case StopWhen(f) => f(n)
  }

  /** any([x(self) for x in cond]) after n steps. */
  predicate Stops(conds: seq<Cond>, start: real, stopTime: real, n: nat, h: real) {
    exists i :: 0 <= i < |conds| && Holds(conds[i], start, stopTime, n, h)
  }

  /** Step number n stops a run that starts at step number first. */
  predicate StopsAt(conds: seq<Cond>, first: nat, n: nat, h: real) {
    Stops(conds, TimeAt(first, h), LastNumber(conds), n, h)
  }

  class Simulation {
    /** fields.t and fields.dt, and every call of a user function so far. */
    var t: nat
    const h: real
    var log: seq<Event>

    constructor (h: real)
      requires h > 0.0
      ensures t == 0 && this.h == h && log == []
    {
      this.h, t, log := h, 0, [];
    }

    /** round_time. */
    function RoundTime(): real
      reads this
    {
      TimeAt(t, h)
    }

    /** for f in step_funcs: _eval_step_func(sim, f, todo). */
    method EvalStepFuncs(fs: seq<Func>, todo: Todo) returns (gs: seq<Func>)
      modifies this`log
      ensures var (rs, events) := EvalAll(fs, Call(todo, t), h);
              gs == rs && log == old(log) + events
      decreases SizeAll(fs), 1, 0
    {
      hide EvalOne, Deliver;
      if fs == [] {
        gs := [];
        return;
      }
      var g := EvalStepFunc(fs[0], todo);
      var rest := EvalStepFuncs(fs[1..], todo);
      gs := [g] + rest;
    }

    /** One call of a step function; the result is the function with its closure updated. */
    method EvalStepFunc(f: Func, todo: Todo) returns (g: Func)
      modifies this`log
      ensures var (r, events) := EvalOne(f, Call(todo, t), h);
              g == r && log == old(log) + events
      decreases Size(f), 0, 0
    {
      hide EvalAll, Deliver, EvalOne;
      var c := Call(todo, t);
      EvalOneIs(f, c, h);
      match f {
        case Body(id, takesTodo) =>
          g := f;
          if takesTodo || todo == Step {
            log := log + [Event(id, c)];
          }
        case Combined(funcs) =>
          var gs := EvalStepFuncs(funcs, todo);
          g := Combined(gs);
        case AfterTime(time, funcs) =>
          g := f;
          if todo == Finish || RoundTime() >= time {
            var gs := EvalStepFuncs(funcs, todo);
            g := AfterTime(time, gs);
          }
        case BeforeTime(time, funcs) =>
          g := f;
          if todo == Finish || RoundTime() < time {
            var gs := EvalStepFuncs(funcs, todo);
            g := BeforeTime(time, gs);
          }
        case AtBeginning(done, funcs) =>
          g := f;
          if !done {
            var gs := EvalStepFuncs(funcs, todo);
            g := AtBeginning(true, gs);
          }
        case AtEnd(funcs) =>
          g := f;
          if todo == Finish {
            var gs := EvalStepFuncs(funcs, Step);
            gs := EvalStepFuncs(gs, Finish);
            g := AtEnd(gs);
          }
        case AtEvery(dt, tlast, funcs) =>
          g := f;
          var now := RoundTime();
          if todo == Finish || now >= tlast + dt + (-0.5 * h) {
            var gs := EvalStepFuncs(funcs, todo);
            g := AtEvery(dt, now, gs);
          }
        case Once(done, funcs) =>
          var gs := funcs;
          if !done || todo == Finish {
            gs := EvalStepFuncs(funcs, todo);
          }
          g := Once(done || todo == Step, gs);
      }
    }

    /** _run_until, for conditions that hold at some time. The run stops at the first step number at
        which one of them holds. */
    method RunUntil(conds: seq<Cond>, stepFuncs: seq<Func>) returns (fs: seq<Func>)
      requires exists n :: n >= t && StopsAt(conds, t, n, h)
      modifies this
      ensures t >= old(t) && StopsAt(conds, old(t), t, h)
      ensures forall n :: old(t) <= n < t ==> !StopsAt(conds, old(t), n, h)
      ensures var (rs, events) := Deliver(stepFuncs, RunCalls(old(t), t), h);
              fs == rs && log == old(log) + events
    {
      hide EvalAll, Deliver, StepsFrom, TimeAt, Stops;
      var t0, stopTime := RoundTime(), 0.0;
      for i := 0 to |conds|
        invariant stopTime == LastNumber(conds[..i])
      {
        assert conds[..i + 1][..i] == conds[..i];
        if conds[i].StopTime? {
          stopTime := conds[i].duration;
        }
      }
      assert conds[..|conds|] == conds;
      fs := stepFuncs;
      ghost var first := t;
      ghost var last :| last >= first && StopsAt(conds, first, last, h);
      DeliverNone(fs, h);
      NoSteps(first);
      assert old(log) + [] == old(log);
      while !Stops(conds, t0, stopTime, t, h)
        invariant first <= t <= last
        invariant forall n :: first <= n < t ==> !StopsAt(conds, first, n, h)
        invariant (fs, log) == After(stepFuncs, old(log), StepsBefore(first, t), h)
        decreases last - t
      {
        fs := EvalStepFuncs(fs, Step);
        AfterOneMore(stepFuncs, old(log), StepsBefore(first, t), Call(Step, t), h);
        StepsBeforeNext(first, t);
        t := t + 1;
      }
      fs := EvalStepFuncs(fs, Step);
      AfterOneMore(stepFuncs, old(log), StepsBefore(first, t), Call(Step, t), h);
      StepsBeforeNext(first, t);
      fs := EvalStepFuncs(fs, Finish);
      AfterOneMore(stepFuncs, old(log), StepsBefore(first, t + 1), Call(Finish, t), h);
    }
  }

  lemma EvalOneIs(f: Func, c: Call, h: real)
    ensures f.Body? ==> EvalOne(f, c, h) == (f, if f.takesTodo || c.todo == Step then [Event(f.id, c)] else [])
    ensures !f.Body? ==>
              var (gs, events) := EvalAll(f.funcs, c, h);
              && (f.AtEnd? && c.todo == Finish ==>
                    var (ks, e1) := EvalAll(f.funcs, Call(Step, c.n), h);
                    var (rs, e2) := EvalAll(ks, c, h);
                    EvalOne(f, c, h) == (AtEnd(rs), e1 + e2))
              && (Forwarded(f, c, h) == [c] ==> EvalOne(f, c, h) == (Updated(f, c, h, gs), events))
              && (Forwarded(f, c, h) == [] ==> EvalOne(f, c, h) == (Updated(f, c, h, f.funcs), []))
  {
    hide EvalAll;
    if !f.Body? {
      DeliverFirst(f.funcs, c, h);
      DeliverNone(f.funcs, h);
      DeliverTwo(f.funcs, Call(Step, c.n), c, h);
    }
  }

  lemma DeliverNone(fs: seq<Func>, h: real)
    ensures Deliver(fs, [], h) == (fs, [])
  {
  }

  lemma DeliverTwo(fs: seq<Func>, a: Call, b: Call, h: real)
    ensures var (ks, e1) := EvalAll(fs, a, h);
            var (rs, e2) := EvalAll(ks, b, h);
            Deliver(fs, [a, b], h) == (rs, e1 + e2)
  {
    hide EvalAll;
    DeliverFirst(fs, a, h);
    assert [a, b][..1] == [a];
  }

  // ----- where the loop stops

  /** The step number at which a run from step first for `duration` ends. */
  function LastStep(first: nat, duration: real, h: real): (last: nat)
    requires h > 0.0
    ensures last >= first
  {
    first + FirstDue(duration, h)
  }

  lemma StopsIff(first: nat, n: nat, duration: real, h: real)
    requires h > 0.0 && first <= n
    ensures TimeAt(n, h) >= TimeAt(first, h) + duration <==> n >= LastStep(first, duration, h)
  {
    hide FirstDue;
    DueIff(n - first, h, duration);
    assert (n - first) as real * h == n as real * h - first as real * h;
  }

  /** The number of field steps of a run: ceil(duration / h), or none if that is negative. */
  lemma FieldSteps(first: nat, duration: real, h: real, k: nat)
    requires h > 0.0
    ensures LastStep(first, duration, h) - first <= k <==> k as real * h >= duration
  {
    hide FirstDue;
    DueIff(k, h, duration);
  }

  // ----- the calls up to a state of the loop

  function StepsBefore(first: nat, n: nat): seq<Call>
    requires first <= n
  {
    if n == 0 || n == first then [] else StepsFrom(first, n - 1)
  }

  lemma NoSteps(first: nat)
    ensures StepsBefore(first, first) == []
  {
  }

  lemma StepsBeforeNext(first: nat, n: nat)
    requires first <= n
    ensures StepsBefore(first, n + 1) == StepsBefore(first, n) + [Call(Step, n)]
    ensures StepsBefore(first, n + 1) + [Call(Finish, n)] == RunCalls(first, n)
  {
    if first < n {
      StepsAppend(first, n - 1);
    } else {
      assert StepsFrom(n, n) == [Call(Step, n)] + StepsFrom(n + 1, n);
    }
  }

  /** Functions and log after a sequence of calls. */
  ghost function After(fs: seq<Func>, log: seq<Event>, calls: seq<Call>, h: real): (seq<Func>, seq<Event>) {
    var (gs, events) := Deliver(fs, calls, h);
    (gs, log + events)
  }

  lemma AfterOneMore(fs: seq<Func>, log: seq<Event>, calls: seq<Call>, c: Call, h: real)
    ensures var (gs, soFar) := After(fs, log, calls, h);
            var (rs, more) := EvalAll(gs, c, h);
            After(fs, log, calls + [c], h) == (rs, soFar + more)
  {
    hide EvalAll;
    assert (calls + [c])[..|calls|] == calls;
    var (gs, events) := Deliver(fs, calls, h);
    var more := EvalAll(gs, c, h).1;
    assert (log + events) + more == log + (events + more);
  }

  ghost predicate Numeric(conds: seq<Cond>) { |conds| >= 1 && forall i :: 0 <= i < |conds| ==> conds[i].StopTime? }

  /** With numbers only, a run from step number first stops when the last of them is reached. */
  lemma NumericStops(conds: seq<Cond>, first: nat, n: nat, h: real)
    requires h > 0.0 && Numeric(conds) && first <= n
    ensures StopsAt(conds, first, n, h) <==> n >= LastStep(first, conds[|conds| - 1].duration, h)
  {
    hide TimeAt, LastStep;
    StopsIff(first, n, conds[|conds| - 1].duration, h);
    var last := conds[|conds| - 1];
    assert Holds(last, TimeAt(first, h), LastNumber(conds), n, h) <==> n >= LastStep(first, last.duration, h);
  }

  /** A single number always stops the run, after ceil(duration / h) steps. */
  lemma OneNumberStops(duration: real, first: nat, h: real)
    requires h > 0.0
    ensures var last := LastStep(first, duration, h);
            && StopsAt([StopTime(duration)], first, last, h)
            && forall n :: first <= n < last ==> !StopsAt([StopTime(duration)], first, n, h)
  {
    hide StopsAt, LastStep;
    var conds := [StopTime(duration)];
    NumericStops(conds, first, LastStep(first, duration, h), h);
    forall n | first <= n < LastStep(first, duration, h) ensures !StopsAt(conds, first, n, h) {
      NumericStops(conds, first, n, h);
    }
  }

  /** A function among the conditions stops the run when it says so, and adds nothing else. */
  lemma FunctionStops(conds: seq<Cond>, f: nat -> bool, first: nat, n: nat, h: real)
    ensures StopsAt(conds + [StopWhen(f)], first, n, h) <==> StopsAt(conds, first, n, h) || f(n)
  {
    hide TimeAt;
    var all := conds + [StopWhen(f)];
    assert all[..|conds|] == conds && all[|conds|] == StopWhen(f);
    if f(n) {
      assert Holds(all[|conds|], TimeAt(first, h), LastNumber(all), n, h);
    }
    if i :| 0 <= i < |conds| && Holds(conds[i], TimeAt(first, h), LastNumber(conds), n, h) {
      assert all[i] == conds[i];
      assert Holds(all[i], TimeAt(first, h), LastNumber(all), n, h);
    }
  }

  /** One of the conditions, read on its own, is met at step number n. */
  ghost predicate SomeReached(first: nat, conds: seq<Cond>, n: nat, h: real) {
    exists i :: 0 <= i < |conds| && StopsAt([conds[i]], first, n, h)
  }

  /** With several numeric conditions the run passes no stop time that is reached earlier exactly if
      the last number of the list is reached first. */
  lemma SeveralConditions(first: nat, conds: seq<Cond>, h: real)
    requires h > 0.0 && Numeric(conds)
    ensures (forall n :: first <= n && SomeReached(first, conds, n, h) ==> StopsAt(conds, first, n, h))
            <==> forall i :: 0 <= i < |conds| ==>
                   LastStep(first, conds[|conds| - 1].duration, h) <= LastStep(first, conds[i].duration, h)
  {
    hide StopsAt, LastStep, SomeReached;
    var last := LastStep(first, conds[|conds| - 1].duration, h);
    if i :| 0 <= i < |conds| && last > LastStep(first, conds[i].duration, h) {
      var n := LastStep(first, conds[i].duration, h);
      NumericStops([conds[i]], first, n, h);
      NumericStops(conds, first, n, h);
      SomeIs(first, conds, n, h, i);
    } else {
      forall n | first <= n && SomeReached(first, conds, n, h) ensures StopsAt(conds, first, n, h) {
        var i := WhichReached(first, conds, n, h);
        NumericStops([conds[i]], first, n, h);
        NumericStops(conds, first, n, h);
      }
    }
  }

  /** Such a list: 1 and then 3 time units do not stop the run at 1 but at 3. */
  lemma LaterNumberWins()
    ensures var conds := [StopTime(1.0), StopTime(3.0)];
            && StopsAt([StopTime(1.0)], 0, 1, 1.0) && SomeReached(0, conds, 1, 1.0)
            && !StopsAt(conds, 0, 1, 1.0) && !StopsAt(conds, 0, 2, 1.0) && StopsAt(conds, 0, 3, 1.0)
  {
    var conds := [StopTime(1.0), StopTime(3.0)];
    OneNumberStops(1.0, 0, 1.0);
    assert StopsAt([conds[0]], 0, 1, 1.0);
    NumericStops(conds, 0, 1, 1.0);
    NumericStops(conds, 0, 2, 1.0);
    NumericStops(conds, 0, 3, 1.0);
  }

  lemma SomeIs(first: nat, conds: seq<Cond>, n: nat, h: real, i: nat)
    requires i < |conds| && StopsAt([conds[i]], first, n, h)
    ensures SomeReached(first, conds, n, h)
  {
  }

  lemma WhichReached(first: nat, conds: seq<Cond>, n: nat, h: real) returns (i: nat)
    requires SomeReached(first, conds, n, h)
    ensures i < |conds| && StopsAt([conds[i]], first, n, h)
  {
    i :| 0 <= i < |conds| && StopsAt([conds[i]], first, n, h);
  }
}
