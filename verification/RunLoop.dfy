/** _run_until and the schedules it gives to step functions (python/simulation.py:2934-2982,
    5285-5433). Time is the step number times the step size. */
module RunLoop {
  import opened Reals
  import opened StepFunctions

  // ----- rounding up

  function Ceil(x: real): int { -((-x).Floor) }

  lemma CeilIs(x: real, k: int)
    ensures k >= Ceil(x) <==> k as real >= x
  {
  }

  /** First step number that is due at time t. */
  function FirstDue(t: real, h: real): nat
    requires h > 0.0
  {
    if Ceil(Quotient(t, h)) > 0 then Ceil(Quotient(t, h)) else 0
  }

  lemma DueIff(n: nat, h: real, t: real)
    requires h > 0.0
    ensures Due(n, h, t) <==> n >= FirstDue(t, h)
  {
    hide Quotient, Ceil;
    CeilIs(Quotient(t, h), n);
    CeilIs(Quotient(t, h), 0);
    QuotientOrder(n as real, t, h);
    QuotientOrder(0.0, t, h);
  }

  lemma QuotientOrder(n: real, t: real, h: real)
    requires h > 0.0
    ensures n * h >= t <==> n >= Quotient(t, h)
  {
    var q := Quotient(t, h);
    assert q * h == t;
    assert n * h - t == (n - q) * h;
    ProductSign(n - q, h, (n - q) * h);
    ProductSign(q - n, h, (q - n) * h);
    assert (q - n) * h == -((n - q) * h);
  }

  // ----- the calls of one run

  function StepsFrom(n: nat, last: nat): seq<Call>
    decreases last + 1 - n
  {
    if n > last then [] else [Call(Step, n)] + StepsFrom(n + 1, last)
  }

  /** "step" at every time step from n to last, then "finish". */
  function RunCalls(n: nat, last: nat): seq<Call> { StepsFrom(n, last) + [Call(Finish, last)] }

  lemma {:induction false} StepsAppend(n: nat, last: nat)
    requires n <= last + 1
    ensures StepsFrom(n, last + 1) == StepsFrom(n, last) + [Call(Step, last + 1)]
    decreases last + 1 - n
  {
    if n <= last {
      StepsAppend(n + 1, last);
    } else {
      assert StepsFrom(last + 2, last + 1) == [];
    }
  }

  /** A run with last step number `last` makes last - n + 1 calls with "step". */
  lemma {:induction false} StepCount(n: nat, last: nat)
    requires n <= last + 1
    ensures |StepsFrom(n, last)| == last + 1 - n
    decreases last + 1 - n
  {
    if n <= last {
      StepCount(n + 1, last);
    }
  }

  // ----- what each combinator makes of a run

  lemma FilterFirst(f: Func, c: Call, rest: seq<Call>, h: real)
    requires !f.Body?
    ensures Filtered(f, [c] + rest, h) == Forwarded(f, c, h) + Filtered(Updated(f, c, h, f.funcs), rest, h)
  {
    FilteredAfter(f, c, f.funcs, rest, h);
  }

  lemma FilterLast(f: Func, c: Call, h: real)
    requires !f.Body?
    ensures Filtered(f, [c], h) == Forwarded(f, c, h)
  {
    FilterFirst(f, c, [], h);
    assert [c] + [] == [c];
    assert Filtered(Updated(f, c, h, f.funcs), [], h) == [];
  }

  lemma RunFirst(n: nat, last: nat)
    requires n <= last
    ensures RunCalls(n, last) == [Call(Step, n)] + RunCalls(n + 1, last)
    ensures RunCalls(last + 1, last) == [Call(Finish, last)]
  {
    var a := StepsFrom(n + 1, last);
    assert [Call(Step, n)] + a + [Call(Finish, last)] == [Call(Step, n)] + (a + [Call(Finish, last)]);
    assert StepsFrom(last + 1, last) == [];
  }

  /** combine_step_funcs passes on every call. */
  lemma {:induction false} CombinedSchedule(funcs: seq<Func>, calls: seq<Call>, h: real)
    ensures Filtered(Combined(funcs), calls, h) == calls
  {
    if calls == [] {
      assert Filtered(Combined(funcs), [], h) == [];
    } else {
      FilterFirst(Combined(funcs), calls[0], calls[1..], h);
      CombinedSchedule(funcs, calls[1..], h);
      assert calls == [calls[0]] + calls[1..];
    }
  }

  /** after_time: the steps from the first due one on, and the finish. */
  lemma {:induction false} AfterTimeSchedule(t: real, funcs: seq<Func>, n: nat, last: nat, h: real)
    requires h > 0.0 && n <= last + 1
    ensures var m := FirstDue(t, h);
            Filtered(AfterTime(t, funcs), RunCalls(n, last), h) == RunCalls(if n >= m then n else if m > last then last + 1 else m, last)
    decreases last + 1 - n
  {
    var f := AfterTime(t, funcs);
    hide Due, FirstDue;
    if n <= last {
      DueIff(n, h, t);
      RunFirst(n, last);
      FilterFirst(f, Call(Step, n), RunCalls(n + 1, last), h);
      AfterTimeSchedule(t, funcs, n + 1, last, h);
    } else {
      RunFirst(last, last);
      FilterLast(f, Call(Finish, last), h);
    }
  }

  /** before_time: the steps that are not yet due, and the finish. */
  lemma {:induction false} BeforeTimeSchedule(t: real, funcs: seq<Func>, n: nat, last: nat, h: real)
    requires h > 0.0 && n <= last + 1
    ensures var m := FirstDue(t, h);
            Filtered(BeforeTime(t, funcs), RunCalls(n, last), h)
            == (if m == 0 || n >= m then [] else StepsFrom(n, if m - 1 <= last then m - 1 else last)) + [Call(Finish, last)]
    decreases last + 1 - n
  {
    var f, m := BeforeTime(t, funcs), FirstDue(t, h);
    hide Due, FirstDue;
    if n <= last {
      DueIff(n, h, t);
      RunFirst(n, last);
      FilterFirst(f, Call(Step, n), RunCalls(n + 1, last), h);
      BeforeTimeSchedule(t, funcs, n + 1, last, h);
      if n < m {
        var e := if m - 1 <= last then m - 1 else last;
        assert StepsFrom(n, e) == [Call(Step, n)] + StepsFrom(n + 1, e);
        assert n + 1 >= m ==> StepsFrom(n + 1, e) == [];
      }
    } else {
      RunFirst(last, last);
      FilterLast(f, Call(Finish, last), h);
    }
  }

  /** A closure that is done forwards no step. */
  lemma {:induction false} DoneForwardsNoStep(funcs: seq<Func>, n: nat, last: nat, h: real)
    requires n <= last + 1
    ensures Filtered(Once(true, funcs), RunCalls(n, last), h) == [Call(Finish, last)]
    ensures Filtered(AtBeginning(true, funcs), RunCalls(n, last), h) == []
    decreases last + 1 - n
  {
    if n <= last {
      RunFirst(n, last);
      FilterFirst(Once(true, funcs), Call(Step, n), RunCalls(n + 1, last), h);
      FilterFirst(AtBeginning(true, funcs), Call(Step, n), RunCalls(n + 1, last), h);
      DoneForwardsNoStep(funcs, n + 1, last, h);
    } else {
      RunFirst(last, last);
      FilterLast(Once(true, funcs), Call(Finish, last), h);
      FilterLast(AtBeginning(true, funcs), Call(Finish, last), h);
    }
  }

  /** at_beginning: the first step of the run and nothing else, not even the finish. */
  lemma AtBeginningSchedule(funcs: seq<Func>, n: nat, last: nat, h: real)
    requires n <= last
    ensures Filtered(AtBeginning(false, funcs), RunCalls(n, last), h) == [Call(Step, n)]
  {
    RunFirst(n, last);
    FilterFirst(AtBeginning(false, funcs), Call(Step, n), RunCalls(n + 1, last), h);
    DoneForwardsNoStep(funcs, n + 1, last, h);
    assert [Call(Step, n)] + [] == [Call(Step, n)];
  }

  /** at_end: one step at the end of the run, then the finish. */
  lemma {:induction false} AtEndSchedule(funcs: seq<Func>, n: nat, last: nat, h: real)
    requires n <= last + 1
    ensures Filtered(AtEnd(funcs), RunCalls(n, last), h) == [Call(Step, last), Call(Finish, last)]
    decreases last + 1 - n
  {
    if n <= last {
      RunFirst(n, last);
      FilterFirst(AtEnd(funcs), Call(Step, n), RunCalls(n + 1, last), h);
      AtEndSchedule(funcs, n + 1, last, h);
    } else {
      RunFirst(last, last);
      FilterLast(AtEnd(funcs), Call(Finish, last), h);
    }
  }

  /** at_time: one step, the first that is due at time t, if the run gets there; the finish always. */
  lemma AtTimeSchedule(t: real, funcs: seq<Func>, n: nat, last: nat, h: real)
    requires h > 0.0 && n <= last
    ensures var m := FirstDue(t, h);
            var calls := Filtered(AtTime(t, funcs), RunCalls(n, last), h);
            Filtered(Once(false, funcs), calls, h)
            == (if m > last then [] else [Call(Step, if n >= m then n else m)]) + [Call(Finish, last)]
  {
    hide FirstDue, Filtered, StepsFrom;
    var m := FirstDue(t, h);
    AfterTimeSchedule(t, [Once(false, funcs)], n, last, h);
    if m > last {
      RunFirst(last, last);
      FilterLast(Once(false, funcs), Call(Finish, last), h);
    } else {
      var s := if n >= m then n else m;
      RunFirst(s, last);
      FilterFirst(Once(false, funcs), Call(Step, s), RunCalls(s + 1, last), h);
      DoneForwardsNoStep(funcs, s + 1, last, h);
    }
  }

  // ----- at_every

  /** ceil(dt/h - 1/2): the interval in time steps. */
  function Interval(dt: real, h: real): int
    requires h > 0.0
  {
    Ceil(Quotient(dt, h) - 0.5)
  }

  /** Exactly when this number is dt/h rounded up. */
  lemma IntervalRoundsUpIff(dt: real, h: real)
    requires h > 0.0
    ensures var q := Quotient(dt, h);
            Interval(dt, h) == Ceil(q) <==> q == q.Floor as real || q - q.Floor as real > 0.5
  {
    hide Quotient;
    var q := Quotient(dt, h);
    var k := Ceil(q);
    CeilIs(q, k);
    CeilIs(q, k - 1);
    CeilIs(q - 0.5, k);
    CeilIs(q - 0.5, k - 1);
    assert k == if q == q.Floor as real then q.Floor else q.Floor + 1;
  }

  lemma IntervalPositive(dt: real, h: real)
    requires h > 0.0
    ensures Interval(dt, h) >= 1 <==> dt > 0.5 * h
  {
    hide Quotient, Ceil;
    CeilIs(Quotient(dt, h) - 0.5, 0);
    QuotientOrder(0.5, dt, h);
  }

  /** Since the last call at step number m, the next one is due after Interval steps. */
  lemma NextDue(n: nat, m: nat, dt: real, h: real)
    requires h > 0.0
    ensures Due(n, h, TimeAt(m, h) + dt - 0.5 * h) <==> n >= m + Interval(dt, h)
  {
    hide Quotient, Ceil;
    CeilIs(Quotient(dt, h) - 0.5, n - m);
    QuotientOrder(n as real - m as real + 0.5, dt, h);
    assert (n as real - m as real + 0.5) * h == n as real * h - m as real * h + 0.5 * h;
    assert (n - m) as real == n as real - m as real;
  }

  /** Steps at m, m + k, m + 2k, ... up to last. */
  function EverySteps(m: nat, k: nat, last: nat): seq<Call>
    requires k >= 1
    decreases last + 1 - m
  {
    if m > last then [] else [Call(Step, m)] + EverySteps(m + k, k, last)
  }

  /** at_every after a call at step number m: every Interval steps, and the finish. */
  lemma {:induction false} AtEveryFrom(dt: real, m: nat, funcs: seq<Func>, n: nat, last: nat, h: real)
    requires h > 0.0 && dt > 0.5 * h && n <= last + 1 && m <= n <= m + Interval(dt, h)
    ensures Interval(dt, h) >= 1
    ensures Filtered(AtEvery(dt, TimeAt(m, h), funcs), RunCalls(n, last), h)
         == EverySteps(m + Interval(dt, h), Interval(dt, h), last) + [Call(Finish, last)]
    decreases last + 1 - n
  {
    hide Interval, TimeAt, Due;
    IntervalPositive(dt, h);
    var f, k := AtEvery(dt, TimeAt(m, h), funcs), Interval(dt, h);
    if n <= last {
      NextDue(n, m, dt, h);
      RunFirst(n, last);
      FilterFirst(f, Call(Step, n), RunCalls(n + 1, last), h);
      if n == m + k {
        AtEveryFrom(dt, n, funcs, n + 1, last, h);
        assert EverySteps(n, k, last) == [Call(Step, n)] + EverySteps(n + k, k, last);
      } else {
        AtEveryFrom(dt, m, funcs, n + 1, last, h);
      }
    } else {
      RunFirst(last, last);
      FilterLast(f, Call(Finish, last), h);
    }
  }

  /** at_every in a run from time 0: exactly the positive multiples of the interval up to the last
      step number, and the finish. */
  lemma AtEverySchedule(dt: real, funcs: seq<Func>, last: nat, h: real)
    requires h > 0.0 && dt > 0.5 * h
    ensures var k := Interval(dt, h);
            && k >= 1
            && Filtered(AtEvery(dt, 0.0, funcs), RunCalls(0, last), h) == EverySteps(k, k, last) + [Call(Finish, last)]
  {
    hide Interval;
    IntervalPositive(dt, h);
    assert TimeAt(0, h) == 0.0;
    AtEveryFrom(dt, 0, funcs, 0, last, h);
  }

  /** at_every in a run that begins later, with a new closure: its first step passes if the interval is
      over by then, and every interval after it. */
  lemma AtEveryLateRun(dt: real, funcs: seq<Func>, n: nat, last: nat, h: real)
    requires h > 0.0 && dt > 0.5 * h && n <= last
    ensures var k := Interval(dt, h);
            && k >= 1
            && Filtered(AtEvery(dt, 0.0, funcs), RunCalls(n, last), h)
               == EverySteps(if n >= k then n else k, k, last) + [Call(Finish, last)]
  {
    hide Interval, Due;
    IntervalPositive(dt, h);
    var f, k := AtEvery(dt, 0.0, funcs), Interval(dt, h);
    assert TimeAt(0, h) == 0.0;
    hide TimeAt;
    if n >= k {
      NextDue(n, 0, dt, h);
      RunFirst(n, last);
      FilterFirst(f, Call(Step, n), RunCalls(n + 1, last), h);
      AtEveryFrom(dt, n, funcs, n + 1, last, h);
      assert EverySteps(n, k, last) == [Call(Step, n)] + EverySteps(n + k, k, last);
    } else {
      AtEveryFrom(dt, 0, funcs, n, last, h);
    }
  }

  /** An input where it does not round up: dt = 1.25 with time steps of 1 is every step, not every
      second one. */
  lemma RoundsDown(funcs: seq<Func>)
    ensures Interval(1.25, 1.0) == 1 && Ceil(Quotient(1.25, 1.0)) == 2
    ensures Filtered(AtEvery(1.25, 0.0, funcs), RunCalls(0, 3), 1.0)
         == [Call(Step, 1), Call(Step, 2), Call(Step, 3), Call(Finish, 3)]
    ensures EverySteps(2, 2, 3) == [Call(Step, 2)]
  {
    AtEverySchedule(1.25, funcs, 3, 1.0);
    assert EverySteps(3, 1, 3) == [Call(Step, 3)];
    assert EverySteps(1, 1, 3) == [Call(Step, 1), Call(Step, 2), Call(Step, 3)];
  }

  /** An interval of half a time step or less lets every step through. */
  lemma {:induction false} AtEveryTiny(dt: real, m: nat, funcs: seq<Func>, n: nat, last: nat, h: real)
    requires h > 0.0 && dt <= 0.5 * h && m <= n <= last + 1
    ensures Filtered(AtEvery(dt, TimeAt(m, h), funcs), RunCalls(n, last), h) == RunCalls(n, last)
    decreases last + 1 - n
  {
    hide Interval, TimeAt, Due;
    IntervalPositive(dt, h);
    var f := AtEvery(dt, TimeAt(m, h), funcs);
    if n <= last {
      NextDue(n, m, dt, h);
      RunFirst(n, last);
      FilterFirst(f, Call(Step, n), RunCalls(n + 1, last), h);
      AtEveryTiny(dt, n, funcs, n + 1, last, h);
    } else {
      RunFirst(last, last);
      FilterLast(f, Call(Finish, last), h);
    }
  }

  lemma {:induction false} EveryStep(m: nat, last: nat)
    ensures EverySteps(m, 1, last) == StepsFrom(m, last)
    decreases last + 1 - m
  {
    if m <= last {
      EveryStep(m + 1, last);
      assert EverySteps(m, 1, last) == [Call(Step, m)] + EverySteps(m + 1, 1, last);
    } else {
      assert EverySteps(m, 1, last) == [];
    }
  }

  /** As documented: after the call at time 0, every k steps and the finish, for every length of the run. */
  ghost predicate PassesEvery(dt: real, funcs: seq<Func>, h: real, k: nat)
    requires k >= 1
  {
    forall last: nat :: last >= 1 ==>
      Filtered(AtEvery(dt, 0.0, funcs), RunCalls(1, last), h) == EverySteps(k, k, last) + [Call(Finish, last)]
  }

  /** Exactly when the schedule is dt rounded up to the next time step: dt is half a time step or
      less, a whole number of steps, or more than half a step beyond one. */
  lemma RoundsUpIff(dt: real, funcs: seq<Func>, h: real)
    requires h > 0.0 && dt > 0.0
    ensures var q := Quotient(dt, h);
            && Ceil(q) >= 1
            && (PassesEvery(dt, funcs, h, Ceil(q)) <==> q <= 0.5 || q == q.Floor as real || q - q.Floor as real > 0.5)
  {
    hide Quotient, Interval, Filtered, StepsFrom, PassesEvery;
    var q := Quotient(dt, h);
    QuotientOrder(0.0, dt, h);
    QuotientOrder(0.5, dt, h);
    CeilIs(q, 0);
    if q <= 0.5 {
      assert Ceil(q) == 1;
      TinyPassesEvery(dt, funcs, h);
    } else {
      IntervalRoundsUpIff(dt, h);
      IntervalPositive(dt, h);
      PassesInterval(dt, funcs, h);
      if PassesEvery(dt, funcs, h, Ceil(q)) {
        SameInterval(dt, funcs, h, Interval(dt, h), Ceil(q));
      }
    }
  }

  lemma TinyPassesEvery(dt: real, funcs: seq<Func>, h: real)
    requires h > 0.0 && dt <= 0.5 * h
    ensures PassesEvery(dt, funcs, h, 1)
  {
    assert TimeAt(0, h) == 0.0;
    hide Filtered, TimeAt;
    forall last: nat | last >= 1
      ensures Filtered(AtEvery(dt, 0.0, funcs), RunCalls(1, last), h) == EverySteps(1, 1, last) + [Call(Finish, last)]
    {
      AtEveryTiny(dt, 0, funcs, 1, last, h);
      EveryStep(1, last);
    }
  }

  lemma PassesInterval(dt: real, funcs: seq<Func>, h: real)
    requires h > 0.0 && dt > 0.5 * h
    ensures Interval(dt, h) >= 1 && PassesEvery(dt, funcs, h, Interval(dt, h))
  {
    assert TimeAt(0, h) == 0.0;
    hide Filtered, TimeAt, Interval;
    IntervalPositive(dt, h);
    forall last: nat | last >= 1
      ensures Filtered(AtEvery(dt, 0.0, funcs), RunCalls(1, last), h)
           == EverySteps(Interval(dt, h), Interval(dt, h), last) + [Call(Finish, last)]
    {
      AtEveryFrom(dt, 0, funcs, 1, last, h);
    }
  }

  /** A schedule has one interval: the runs up to the smaller of the two differ. */
  lemma SameInterval(dt: real, funcs: seq<Func>, h: real, i: nat, k: nat)
    requires i >= 1 && k >= 1 && PassesEvery(dt, funcs, h, i) && PassesEvery(dt, funcs, h, k)
    ensures i == k
  {
    hide Filtered;
    var last := if i < k then i else k;
    assert EverySteps(i, i, last) + [Call(Finish, last)] == EverySteps(k, k, last) + [Call(Finish, last)];
    assert |EverySteps(i, i, last)| == |EverySteps(k, k, last)|;
  }

  // ----- times that are documented to count from the start of the run

  /** Exactly when after_time counts from the start of a run that begins at step number n, as
      documented: the run starts at time 0, or the time is due at once. */
  lemma AfterTimeFromStartIff(t: real, funcs: seq<Func>, n: nat, h: real)
    requires h > 0.0
    ensures var m := FirstDue(t, h);
            (forall last: nat :: last >= n + m ==> Filtered(AfterTime(t, funcs), RunCalls(n, last), h) == RunCalls(n + m, last))
            <==> n == 0 || m == 0
  {
    hide FirstDue, Filtered, RunCalls;
    var m := FirstDue(t, h);
    forall last: nat | last >= n + m
      ensures Filtered(AfterTime(t, funcs), RunCalls(n, last), h) == RunCalls(if n >= m then n else m, last)
    {
      AfterTimeSchedule(t, funcs, n, last, h);
    }
    if n > 0 && m > 0 {
      var last := n + m;
      RunLength(n + m, last);
      RunLength(if n >= m then n else m, last);
      assert Filtered(AfterTime(t, funcs), RunCalls(n, last), h) != RunCalls(n + m, last);
    }
  }

  lemma RunLength(n: nat, last: nat)
    requires n <= last + 1
    ensures |RunCalls(n, last)| == last + 2 - n
  {
    StepCount(n, last);
  }

  /** The same for before_time, of which the steps before the m-th of the run are documented. */
  lemma BeforeTimeFromStartIff(t: real, funcs: seq<Func>, n: nat, h: real)
    requires h > 0.0
    ensures var m := FirstDue(t, h);
            (forall last: nat :: last >= n + m ==>
               Filtered(BeforeTime(t, funcs), RunCalls(n, last), h) == StepsBelow(n, n + m) + [Call(Finish, last)])
            <==> n == 0 || m == 0
  {
    hide FirstDue, Filtered, RunCalls, StepsFrom;
    var m := FirstDue(t, h);
    forall last: nat | last >= n + m
      ensures Filtered(BeforeTime(t, funcs), RunCalls(n, last), h) == StepsBelow(n, if n >= m then n else m) + [Call(Finish, last)]
    {
      BeforeTimeSchedule(t, funcs, n, last, h);
    }
    if n > 0 && m > 0 {
      var last := n + m;
      BelowLength(n, n + m);
      BelowLength(n, if n >= m then n else m);
      assert Filtered(BeforeTime(t, funcs), RunCalls(n, last), h) != StepsBelow(n, n + m) + [Call(Finish, last)];
    }
  }

  /** "step" at the step numbers from n to before m. */
  function StepsBelow(n: nat, m: nat): seq<Call>
    requires n <= m
  {
    if n == m then [] else StepsFrom(n, m - 1)
  }

  lemma BelowLength(n: nat, m: nat)
    requires n <= m
    ensures |StepsBelow(n, m)| == m - n
  {
    if n < m {
      StepCount(n, m - 1);
    }
  }

  /** And for at_time, whose one call is documented at the m-th step of the run. */
  lemma AtTimeFromStartIff(t: real, funcs: seq<Func>, n: nat, h: real)
    requires h > 0.0
    ensures var m := FirstDue(t, h);
            (forall last: nat :: last >= n + m ==>
               Filtered(Once(false, funcs), Filtered(AtTime(t, funcs), RunCalls(n, last), h), h) == [Call(Step, n + m), Call(Finish, last)])
            <==> n == 0 || m == 0
  {
    hide FirstDue, Filtered, RunCalls, StepsFrom;
    var m := FirstDue(t, h);
    forall last: nat | last >= n + m
      ensures Filtered(Once(false, funcs), Filtered(AtTime(t, funcs), RunCalls(n, last), h), h)
           == [Call(Step, if n >= m then n else m), Call(Finish, last)]
    {
      AtTimeSchedule(t, funcs, n, last, h);
    }
    if n > 0 && m > 0 {
      var last := n + m;
      assert Filtered(Once(false, funcs), Filtered(AtTime(t, funcs), RunCalls(n, last), h), h)
          != [Call(Step, n + m), Call(Finish, last)];
    }
  }

  /** A second run that begins at time 5: after_time(3) passes its first step. */
  lemma SecondRun(funcs: seq<Func>)
    ensures FirstDue(3.0, 1.0) == 3
    ensures Filtered(AfterTime(3.0, funcs), RunCalls(5, 9), 1.0) == RunCalls(5, 9) != RunCalls(8, 9)
  {
    AfterTimeSchedule(3.0, funcs, 5, 9, 1.0);
    hide Filtered, StepsFrom;
    RunLength(5, 9);
    RunLength(8, 9);
  }

  lemma MultipleSteps(i: nat, k: nat)
    ensures (i + 1) * k == i * k + k && 1 * k == k
  {
  }

  /** Call number i of these is at step number (i + 1) * k, and all multiples up to last are there. */
  lemma {:induction false} EveryMultiple(j: nat, k: nat, last: nat, i: nat)
    requires k >= 1
    ensures i < |EverySteps(j * k, k, last)| <==> (j + i) * k <= last
    ensures i < |EverySteps(j * k, k, last)| ==> EverySteps(j * k, k, last)[i] == Call(Step, (j + i) * k)
    decreases i
  {
    MultipleSteps(j, k);
    if i == 0 {
      assert (j + 0) * k == j * k;
    } else {
      EveryMultiple(j + 1, k, last, i - 1);
      assert (j + 1 + (i - 1)) * k == (j + i) * k;
      if j * k > last {
        assert (j + i) * k >= j * k by { ProductOrder(j, j + i, k); }
      }
    }
  }

  lemma ProductOrder(a: nat, b: nat, k: nat)
    requires a <= b
    ensures a * k <= b * k
  {
  }

  // ----- bodies in a run from time 0

  /** A body under at_every is called at the multiples of the interval, and sees the finish if it
      takes `todo`. */
  lemma BodyAtEvery(dt: real, id: nat, takesTodo: bool, last: nat, h: real)
    requires h > 0.0 && dt > 0.5 * h
    ensures var k := Interval(dt, h);
            && k >= 1
            && Deliver([AtEvery(dt, 0.0, [Body(id, takesTodo)])], RunCalls(0, last), h).1
               == Seen(id, takesTodo, EverySteps(k, k, last) + [Call(Finish, last)])
  {
    hide Interval, Deliver, Filtered, EverySteps, Seen;
    var f := AtEvery(dt, 0.0, [Body(id, takesTodo)]);
    AtEverySchedule(dt, f.funcs, last, h);
    CombinatorFilters(f, RunCalls(0, last), h);
    BodySees(id, takesTodo, EverySteps(Interval(dt, h), Interval(dt, h), last) + [Call(Finish, last)], h);
  }

  /** A body under at_time is called once, when its time is reached, if the run gets there. */
  lemma BodyAtTime(t: real, id: nat, takesTodo: bool, last: nat, h: real)
    requires h > 0.0
    ensures var m := FirstDue(t, h);
            Deliver([AtTime(t, [Body(id, takesTodo)])], RunCalls(0, last), h).1
            == Seen(id, takesTodo, (if m > last then [] else [Call(Step, m)]) + [Call(Finish, last)])
  {
    hide FirstDue, Deliver, Filtered, Seen;
    var inner := Once(false, [Body(id, takesTodo)]);
    var f := AtTime(t, inner.funcs);
    AtTimeSchedule(t, inner.funcs, 0, last, h);
    CombinatorFilters(f, RunCalls(0, last), h);
    CombinatorFilters(inner, Filtered(f, RunCalls(0, last), h), h);
    var m := FirstDue(t, h);
    BodySees(id, takesTodo, (if m > last then [] else [Call(Step, m)]) + [Call(Finish, last)], h);
  }

  /** A body under at_time whose time is reached is called once, as documented, exactly if it does not
      take `todo`; else it also gets the finish. */
  lemma AtTimeOnceIff(t: real, id: nat, takesTodo: bool, last: nat, h: real)
    requires h > 0.0 && FirstDue(t, h) <= last
    ensures |Deliver([AtTime(t, [Body(id, takesTodo)])], RunCalls(0, last), h).1| == 1 <==> !takesTodo
  {
    hide FirstDue, Deliver;
    BodyAtTime(t, id, takesTodo, last, h);
    SeenTwo(id, takesTodo, FirstDue(t, h), last);
  }

  lemma SeenTwo(id: nat, takesTodo: bool, m: nat, last: nat)
    ensures |Seen(id, takesTodo, [Call(Step, m)] + [Call(Finish, last)])| == if takesTodo then 2 else 1
  {
    var s, f := Call(Step, m), Call(Finish, last);
    assert [s] + [f] == [s, f] && [s, f][..1] == [s] && [s][..0] == [];
    assert |Seen(id, takesTodo, [s])| == 1;
    assert Seen(id, takesTodo, [s, f]) == Seen(id, takesTodo, [s]) + if takesTodo then [Event(id, f)] else [];
  }
}
