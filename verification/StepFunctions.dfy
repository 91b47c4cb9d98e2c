/** Step functions and the combinators around them (python/simulation.py:5285-5433): what each one
    passes on of the calls it gets over a whole run. */
module StepFunctions {

  datatype Todo = Step | Finish

  /** A call at time step n. */
  datatype Call = Call(todo: Todo, n: nat)

  /** A step function with the state of its closure. A body is a user function of one argument, or
      of two if it takes `todo`. Once is the inner function of at_time. */
  datatype Func =
    | Body(id: nat, takesTodo: bool)
    | Combined(funcs: seq<Func>)
    | AfterTime(t: real, funcs: seq<Func>)
    | BeforeTime(t: real, funcs: seq<Func>)
    | AtBeginning(done: bool, funcs: seq<Func>)
    | AtEnd(funcs: seq<Func>)
    | AtEvery(dt: real, tlast: real, funcs: seq<Func>)
    | Once(done: bool, funcs: seq<Func>)

  function AtTime(t: real, funcs: seq<Func>): Func { AfterTime(t, [Once(false, funcs)]) }

  /** A body was called. */
  datatype Event = Event(id: nat, call: Call)

  /** round_time at time step n. */
  function TimeAt(n: nat, h: real): real { n as real * h }

  predicate Due(n: nat, h: real, t: real) { TimeAt(n, h) >= t }

  /** Number of combinators and bodies. */
  function Size(f: Func): (k: nat)
    ensures k >= 1
  {
    if f.Body? then 1 else 1 + SizeAll(f.funcs)
  }

  function SizeAll(fs: seq<Func>): nat { if fs == [] then 0 else Size(fs[0]) + SizeAll(fs[1..]) }

  // ----- specification: a combinator forwards some calls to its functions

  function Forwarded(f: Func, c: Call, h: real): seq<Call>
    requires !f.Body?
  {
    match f
    case Combined(_) => [c]
    case AfterTime(t, _) => if c.todo == Finish || Due(c.n, h, t) then [c] else []
    case BeforeTime(t, _) => if c.todo == Finish || !Due(c.n, h, t) then [c] else []
    case AtBeginning(done, _) => if done then [] else [c]
    case AtEnd(_) => if c.todo == Finish then [Call(Step, c.n), Call(Finish, c.n)] else []
    case AtEvery(dt, tlast, _) => if c.todo == Finish || Due(c.n, h, tlast + dt - 0.5 * h) then [c] else []
    case Once(done, _) => if !done || c.todo == Finish then [c] else []
  }

  /** The closure after the call. */
  function Updated(f: Func, c: Call, h: real, funcs: seq<Func>): Func
    requires !f.Body?
  {
    match f
    case AtBeginning(_, _) => AtBeginning(true, funcs)
    case AtEvery(dt, tlast, _) =>
      AtEvery(dt, if c.todo == Finish || Due(c.n, h, tlast + dt - 0.5 * h) then TimeAt(c.n, h) else tlast, funcs)
    case Once(done, _) => Once(done || c.todo == Step, funcs)
    case Combined(_) => Combined(funcs)
    case AfterTime(t, _) => AfterTime(t, funcs)
    case BeforeTime(t, _) => BeforeTime(t, funcs)
    case AtEnd(_) => AtEnd(funcs)
  }

  function EvalOne(f: Func, c: Call, h: real): (r: (Func, seq<Event>))
    ensures Size(r.0) == Size(f)
    decreases Size(f), 0, 0
  {
    if f.Body? then (f, if f.takesTodo || c.todo == Step then [Event(f.id, c)] else [])
    else
      var (funcs, events) := Deliver(f.funcs, Forwarded(f, c, h), h);
      (Updated(f, c, h, funcs), events)
  }

  /** One call to every function of a list, in order. */
  function EvalAll(fs: seq<Func>, c: Call, h: real): (r: (seq<Func>, seq<Event>))
    ensures SizeAll(r.0) == SizeAll(fs)
    decreases SizeAll(fs), 1, 0
  {
    if fs == [] then ([], [])
    else
      var (f, events) := EvalOne(fs[0], c, h);
      var (rest, more) := EvalAll(fs[1..], c, h);
      ([f] + rest, events + more)
  }

  /** A sequence of calls to every function of a list. */
  function Deliver(fs: seq<Func>, calls: seq<Call>, h: real): (r: (seq<Func>, seq<Event>))
    ensures SizeAll(r.0) == SizeAll(fs)
    decreases SizeAll(fs), 2, |calls|
  {
    if calls == [] then (fs, [])
    else
      var (gs, events) := Deliver(fs, calls[..|calls| - 1], h);
      var (rs, more) := EvalAll(gs, calls[|calls| - 1], h);
      (rs, events + more)
  }

  /** The functions of a list are called in their order. */
  lemma {:induction false} EvalAllConcat(fs: seq<Func>, gs: seq<Func>, c: Call, h: real)
    ensures var (rs, events) := EvalAll(fs, c, h);
            var (ks, more) := EvalAll(gs, c, h);
            EvalAll(fs + gs, c, h) == (rs + ks, events + more)
  {
    hide EvalOne, EvalAll;
    EvalAllFirst(fs, c, h);
    EvalAllFirst(fs + gs, c, h);
    var (ks, more) := EvalAll(gs, c, h);
    if fs == [] {
      assert fs + gs == gs && [] + ks == ks && [] + more == more;
    } else {
      EvalAllConcat(fs[1..], gs, c, h);
      assert (fs + gs)[0] == fs[0] && (fs + gs)[1..] == fs[1..] + gs;
      AppendTwice([EvalOne(fs[0], c, h).0], EvalAll(fs[1..], c, h).0, ks);
      AppendTwice(EvalOne(fs[0], c, h).1, EvalAll(fs[1..], c, h).1, more);
    }
  }

  lemma EvalAllFirst(fs: seq<Func>, c: Call, h: real)
    ensures fs == [] ==> EvalAll(fs, c, h) == ([], [])
    ensures fs != [] ==> EvalAll(fs, c, h) == ([EvalOne(fs[0], c, h).0] + EvalAll(fs[1..], c, h).0,
                                              EvalOne(fs[0], c, h).1 + EvalAll(fs[1..], c, h).1)
  {
    hide EvalOne;
  }

  lemma AppendTwice<T>(a: seq<T>, b: seq<T>, c: seq<T>)
    ensures a + (b + c) == (a + b) + c
  {
  }

  /** Two user functions in a list: the step goes to the first, then to the second. */
  lemma TwoBodies(a: nat, b: nat, n: nat, h: real)
    ensures EvalAll([Body(a, false), Body(b, false)], Call(Step, n), h).1 == [Event(a, Call(Step, n)), Event(b, Call(Step, n))]
  {
    var f, g, c := Body(a, false), Body(b, false), Call(Step, n);
    assert [f, g][1..] == [g] && [g][1..] == [];
    assert EvalAll([g], c, h).1 == [Event(b, c)];
  }

  // ----- a combinator over a sequence of calls

  lemma {:induction false} DeliverConcat(fs: seq<Func>, a: seq<Call>, b: seq<Call>, h: real)
    ensures var (gs, events) := Deliver(fs, a, h);
            var (rs, more) := Deliver(gs, b, h);
            Deliver(fs, a + b, h) == (rs, events + more)
  {
    hide EvalAll;
    if b == [] {
      assert a + b == a;
      var (gs, events) := Deliver(fs, a, h);
      assert Deliver(gs, b, h) == (gs, []);
      assert events + [] == events;
    } else {
      var front, last := b[..|b| - 1], b[|b| - 1];
      DeliverConcat(fs, a, front, h);
      assert (a + b)[..|a + b| - 1] == a + front;
      var (gs, e1) := Deliver(fs, a, h);
      var (ks, e2) := Deliver(gs, front, h);
      var e3 := EvalAll(ks, last, h).1;
      assert (e1 + e2) + e3 == e1 + (e2 + e3);
    }
  }

  /** Everything that f forwards of a sequence of calls. */
  function Filtered(f: Func, calls: seq<Call>, h: real): seq<Call>
    requires !f.Body?
    decreases |calls|
  {
    if calls == [] then []
    else Forwarded(f, calls[0], h) + Filtered(Updated(f, calls[0], h, f.funcs), calls[1..], h)
  }

  /** Only the closure of f itself decides what is forwarded. */
  lemma {:induction false} FilteredIgnoresFuncs(f: Func, funcs: seq<Func>, calls: seq<Call>, h: real)
    requires !f.Body?
    ensures Filtered(WithFuncs(f, funcs), calls, h) == Filtered(f, calls, h)
    decreases |calls|
  {
    if calls != [] {
      var g := Updated(f, calls[0], h, f.funcs);
      assert Updated(WithFuncs(f, funcs), calls[0], h, funcs) == WithFuncs(g, funcs);
      FilteredIgnoresFuncs(g, funcs, calls[1..], h);
    }
  }

  function WithFuncs(f: Func, funcs: seq<Func>): (g: Func)
    requires !f.Body?
    ensures !g.Body? && g.funcs == funcs
  {
    match f
    case Combined(_) => Combined(funcs)
    case AfterTime(t, _) => AfterTime(t, funcs)
    case BeforeTime(t, _) => BeforeTime(t, funcs)
    case AtBeginning(done, _) => AtBeginning(done, funcs)
    case AtEnd(_) => AtEnd(funcs)
    case AtEvery(dt, tlast, _) => AtEvery(dt, tlast, funcs)
    case Once(done, _) => Once(done, funcs)
  }

  lemma EvalSingle(f: Func, c: Call, h: real)
    ensures EvalAll([f], c, h) == ([EvalOne(f, c, h).0], EvalOne(f, c, h).1)
  {
    assert [f][1..] == [];
    assert EvalAll([], c, h) == ([], []);
    var (g, events) := EvalOne(f, c, h);
    assert [g] + [] == [g] && events + [] == events;
  }

  /** Over any sequence of calls, a combinator does what its functions do with the calls that it
      forwards. */
  lemma {:induction false} CombinatorFilters(f: Func, calls: seq<Call>, h: real)
    requires !f.Body?
    ensures var r := Deliver([f], calls, h);
            && |r.0| == 1 && !r.0[0].Body?
            && Deliver(f.funcs, Filtered(f, calls, h), h) == (r.0[0].funcs, r.1)
    decreases |calls|
  {
    if calls != [] {
      var c, rest := calls[0], calls[1..];
      assert calls == [c] + rest;
      DeliverConcat([f], [c], rest, h);
      DeliverFirst([f], c, h);
      EvalSingle(f, c, h);
      var (g, events) := EvalOne(f, c, h);
      CombinatorFilters(g, rest, h);
      FilteredAfter(f, c, g.funcs, rest, h);
      DeliverConcat(f.funcs, Forwarded(f, c, h), Filtered(g, rest, h), h);
    }
  }

  lemma DeliverFirst(fs: seq<Func>, c: Call, h: real)
    ensures Deliver(fs, [c], h) == EvalAll(fs, c, h)
  {
    assert [c][..0] == [];
    assert Deliver(fs, [], h) == (fs, []);
    assert [] + EvalAll(fs, c, h).1 == EvalAll(fs, c, h).1;
  }

  lemma FilteredAfter(f: Func, c: Call, funcs: seq<Func>, rest: seq<Call>, h: real)
    requires !f.Body?
    ensures Filtered(f, [c] + rest, h) == Forwarded(f, c, h) + Filtered(Updated(f, c, h, funcs), rest, h)
  {
    var g := Updated(f, c, h, f.funcs);
    assert ([c] + rest)[1..] == rest;
    assert Updated(f, c, h, funcs) == WithFuncs(g, funcs);
    FilteredIgnoresFuncs(g, funcs, rest, h);
  }

  /** A body of two arguments sees every call, one of a single argument only the steps. */
  lemma {:induction false} BodySees(id: nat, takesTodo: bool, calls: seq<Call>, h: real)
    ensures Deliver([Body(id, takesTodo)], calls, h) == ([Body(id, takesTodo)], Seen(id, takesTodo, calls))
  {
    if calls != [] {
      BodySees(id, takesTodo, calls[..|calls| - 1], h);
      EvalSingle(Body(id, takesTodo), calls[|calls| - 1], h);
    }
  }

  function Seen(id: nat, takesTodo: bool, calls: seq<Call>): seq<Event> {
    if calls == [] then []
    else
      var c := calls[|calls| - 1];
      Seen(id, takesTodo, calls[..|calls| - 1]) + if takesTodo || c.todo == Step then [Event(id, c)] else []
  }
}
