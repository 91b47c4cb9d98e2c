/** find_root_deriv and memoize (python/geom.py:1800-1890): Newton's method with bounds that
    are evaluated only when a step needs them, and a table of function values. */
module Newton {
  import opened Options
  import opened Reals

  /** f returns the value and the derivative. */
  datatype Problem = Problem(f: real -> (real, real), tol: real, xMin: real, xMax: real)

  /** A bound is a number or one of the two unevaluated pick_bound closures. */
  datatype Bound = Num(x: real) | LazyNegative | LazyPositive

  /** The arguments of one call newton(x, a, b, dx). */
  datatype State = State(x: real, a: Bound, b: Bound, dx: real)

  datatype Outcome =
    | Next(st: State)
    | Root(x: real)
    | NotBracketed          // raised by pick_bound
    | InnerRaise            // the raise inside newton
    | ZeroDivisionError

  // ----- one call of newton as a function of its arguments

  function Value(p: Problem, x: real): real { p.f(x).0 }

  function Slope(p: Problem, x: real): real { p.f(x).1 }

  function PickBound(p: Problem, negative: bool): Option<real> {
    var lo, hi := Value(p, p.xMin), Value(p, p.xMax);
    if (if negative then lo < 0.0 else lo > 0.0) then Some(p.xMin)
    else if (if negative then hi < 0.0 else hi > 0.0) then Some(p.xMax)
    else None
  }

  function Force(p: Problem, b: Bound): Option<real> {
    match b
    case Num(x) => Some(x)
    case LazyNegative => PickBound(p, true)
    case LazyPositive => PickBound(p, false)
  }

  /** in_bounds: the Newton step from x lands strictly between a and b. */
  predicate InBounds(x: real, f: real, df: real, a: real, b: real) {
    (f - df * (x - a)) * (f - df * (x - b)) < 0.0
  }

  function NewLower(st: State, f: real): Bound { if f < 0.0 then Num(st.x) else st.a }

  function NewUpper(st: State, f: real): Bound { if f > 0.0 then Num(st.x) else st.b }

  /** The step would turn back on the previous one. */
  predicate TurnsBack(dx: real, f: real, df: real)
    requires df != 0.0
  {
    dx * Quotient(f, df) < 0.0
  }

  /** The bounds that in_bounds is tested against. */
  function Tested(p: Problem, st: State): (real, real) {
    if st.a.Num? && st.b.Num? then (st.a.x, st.b.x) else (p.xMin, p.xMax)
  }

  predicate Small(dx: real, tol: real, x: real) { Abs(dx) < Abs(tol * x) }

  function Bisect(p: Problem, st: State, f: real): Outcome {
    var av, bv := Force(p, st.a), Force(p, st.b);
    if av.None? || bv.None? then NotBracketed
    else
      var a', b' := NewLower(st, f), NewUpper(st, f);
      Next(State((av.value + bv.value) * 0.5,
                 if st.a == a' then Num(av.value) else a',
                 if st.b == b' then Num(bv.value) else b',
                 0.5 * (bv.value - av.value)))
  }

  function ForcedValue(p: Problem, b: Bound): Option<real> {
    var x := Force(p, b);
    if x.Some? then Some(Value(p, x.value)) else None
  }

  /** Whether the values at the two bounds have different signs. */
  function CheckSigns(p: Problem, a: Bound, b: Bound): Option<Outcome> {
    var fa, fb := ForcedValue(p, a), ForcedValue(p, b);
    if fa.None? || fb.None? then Some(NotBracketed)
    else if fa.value * fb.value > 0.0 then Some(InnerRaise)
    else None
  }

  /** The check that both bounds still bracket the root; None when it passes. */
  function Check(p: Problem, st: State, f: real, df: real): Option<Outcome> {
    if st.dx == p.xMax - p.xMin then None
    else if df == 0.0 then Some(ZeroDivisionError)
    else if !TurnsBack(st.dx, f, df) then None
    else CheckSigns(p, NewLower(st, f), NewUpper(st, f))
  }

  /** A Newton step if it stays in bounds, else bisection. */
  function Advance(p: Problem, st: State, f: real, df: real): Outcome {
    if InBounds(st.x, f, df, Tested(p, st).0, Tested(p, st).1) && df != 0.0 then
      var q := Quotient(f, df);
      Next(State(st.x - q, NewLower(st, f), NewUpper(st, f), q))
    else Bisect(p, st, f)
  }

  function Step(p: Problem, st: State): Outcome {
    if Small(st.dx, p.tol, st.x) then Root(st.x)
    else
      var f, df := Value(p, st.x), Slope(p, st.x);
      if f == 0.0 then Root(st.x)
      else
        var c := Check(p, st, f, df);
        if c.Some? then c.value else Advance(p, st, f, df)
  }

  /** With slope zero the test of in_bounds is f*f < 0, so the guard above hides no division. */
  lemma FlatIsOutOfBounds(x: real, f: real, a: real, b: real)
    ensures !InBounds(x, f, 0.0, a, b)
  {
    SquareSign(f, f * f);
    assert f - 0.0 * (x - a) == f && f - 0.0 * (x - b) == f;
  }

  // ----- the invariant of every run

  /** A closed interval. */
  datatype Span = Span(lo: real, hi: real) {
    predicate Has(x: real) { lo <= x <= hi }

    function With(x: real): Span { Span(if x < lo then x else lo, if x > hi then x else hi) }
  }

  /** The smallest interval that holds both endpoints and the guess. */
  function Hull(p: Problem, guess: real): Span { Span(p.xMin, p.xMin).With(p.xMax).With(guess) }

  predicate Covers(i: Span, p: Problem) { i.Has(p.xMin) && i.Has(p.xMax) }

  predicate LowerBound(p: Problem, i: Span, a: Bound) {
    a == LazyNegative || (a.Num? && i.Has(a.x) && Value(p, a.x) < 0.0)
  }

  predicate UpperBound(p: Problem, i: Span, b: Bound) {
    b == LazyPositive || (b.Num? && i.Has(b.x) && Value(p, b.x) > 0.0)
  }

  predicate Invariant(p: Problem, i: Span, st: State) {
    Covers(i, p) && i.Has(st.x) && LowerBound(p, i, st.a) && UpperBound(p, i, st.b)
  }

  /** Some endpoint is on the wanted side; otherwise that bound cannot be found. */
  predicate HasNegativeEnd(p: Problem) { Value(p, p.xMin) < 0.0 || Value(p, p.xMax) < 0.0 }

  predicate HasPositiveEnd(p: Problem) { Value(p, p.xMin) > 0.0 || Value(p, p.xMax) > 0.0 }

  /** Forcing a pair of bounds brackets a root, unless an endpoint of that sign does not exist. */
  lemma ForcedBrackets(p: Problem, i: Span, a: Bound, b: Bound)
    requires Covers(i, p) && LowerBound(p, i, a) && UpperBound(p, i, b)
    ensures var av, bv := Force(p, a), Force(p, b);
            && (av.Some? ==> i.Has(av.value) && Value(p, av.value) < 0.0)
            && (bv.Some? ==> i.Has(bv.value) && Value(p, bv.value) > 0.0)
            && (av.None? ==> a == LazyNegative && !HasNegativeEnd(p))
            && (bv.None? ==> b == LazyPositive && !HasPositiveEnd(p))
            && (av.Some? && a == LazyNegative ==> av.value == if Value(p, p.xMin) < 0.0 then p.xMin else p.xMax)
            && (bv.Some? && b == LazyPositive ==> bv.value == if Value(p, p.xMin) > 0.0 then p.xMin else p.xMax)
  {
  }

  lemma NewBounds(p: Problem, i: Span, st: State)
    requires Invariant(p, i, st)
    ensures LowerBound(p, i, NewLower(st, Value(p, st.x))) && UpperBound(p, i, NewUpper(st, Value(p, st.x)))
  {
  }

  /** Strictly between two points, in either order. */
  predicate Between(y: real, a: real, b: real) { a < y < b || b < y < a }

  /** in_bounds tells exactly whether the Newton step lands strictly between a and b. */
  lemma InBoundsIff(x: real, f: real, df: real, a: real, b: real)
    ensures InBounds(x, f, df, a, b) <==> df != 0.0 && Between(x - Quotient(f, df), a, b)
  {
    if df == 0.0 {
      FlatIsOutOfBounds(x, f, a, b);
    } else {
      var q := f / df;
      var y := x - q;
      assert q * df == f;
      var u, v := f - df * (x - a), f - df * (x - b);
      assert u == df * (a - y) by { Expand(df, q, x, a, f); }
      assert v == df * (b - y) by { Expand(df, q, x, b, f); }
      SameSide(df, a - y, b - y, u, v);
    }
  }

  lemma Expand(df: real, q: real, x: real, a: real, f: real)
    requires q * df == f
    ensures f - df * (x - a) == df * (a - (x - q))
  {
  }

  lemma SameSide(d: real, s: real, t: real, u: real, v: real)
    requires d != 0.0 && u == d * s && v == d * t
    ensures u * v < 0.0 <==> (s < 0.0 && t > 0.0) || (s > 0.0 && t < 0.0)
  {
    var dd, st := d * d, s * t;
    assert u * v == dd * st;
    SquareSign(d, dd);
    NegativeProduct(s, t, st);
    NegativeProduct(dd, st, dd * st);
  }

  lemma NegativeProduct(s: real, t: real, p: real)
    requires p == s * t
    ensures p < 0.0 <==> (s < 0.0 && t > 0.0) || (s > 0.0 && t < 0.0)
  {
    if s >= 0.0 && t >= 0.0 {
      ProductSign(s, t, p);
    } else if s <= 0.0 && t <= 0.0 {
      ProductSign(-s, -t, p);
    } else if s < 0.0 {
      ProductSign(-s, t, -p);
    } else {
      ProductSign(s, -t, -p);
    }
  }

  lemma OppositeSigns(a: real, b: real)
    requires a < 0.0 && b > 0.0
    ensures a * b < 0.0
  {
    ProductSign(-a, b, (-a) * b);
  }

  lemma MidpointInside(i: Span, a: real, b: real)
    requires i.Has(a) && i.Has(b)
    ensures i.Has((a + b) * 0.5)
  {
  }

  /** The new point is the middle, and dx half the length, of the old bracket, whose forced ends
      have negative and positive values; an end that the value at x improves on moves to x. */
  predicate HalvesBracket(p: Problem, st: State, n: State) {
    var av, bv := Force(p, st.a), Force(p, st.b);
    && av.Some? && bv.Some?
    && Value(p, av.value) < 0.0 < Value(p, bv.value)
    && n.x == (av.value + bv.value) * 0.5 && n.dx == 0.5 * (bv.value - av.value)
    && n.a == Num(if Value(p, st.x) < 0.0 then st.x else av.value)
    && n.b == Num(if Value(p, st.x) > 0.0 then st.x else bv.value)
  }

  lemma QuotientTimes(f: real, df: real)
    requires df != 0.0
    ensures Quotient(f, df) * df == f
  {
  }

  lemma SignsDiffer(p: Problem, i: Span, a: Bound, b: Bound)
    requires Covers(i, p) && LowerBound(p, i, a) && UpperBound(p, i, b)
    ensures var o := CheckSigns(p, a, b);
            o.None? || (o.value == NotBracketed && (!HasNegativeEnd(p) || !HasPositiveEnd(p)))
  {
    hide Value, Force;
    ForcedBrackets(p, i, a, b);
    var av, bv := Force(p, a), Force(p, b);
    if av.Some? && bv.Some? {
      OppositeSigns(Value(p, av.value), Value(p, bv.value));
    }
  }

  lemma CheckOutcome(p: Problem, i: Span, st: State)
    requires Invariant(p, i, st)
    ensures match Check(p, st, Value(p, st.x), Slope(p, st.x))
            case None => true
            case Some(o) =>
              || (o == NotBracketed && (!HasNegativeEnd(p) || !HasPositiveEnd(p)))
              || (o == ZeroDivisionError && Slope(p, st.x) == 0.0 && st.dx != p.xMax - p.xMin)
  {
    hide TurnsBack, Value, Slope, CheckSigns, NewLower, NewUpper, LowerBound, UpperBound;
    NewBounds(p, i, st);
    SignsDiffer(p, i, NewLower(st, Value(p, st.x)), NewUpper(st, Value(p, st.x)));
  }

  lemma BisectOutcome(p: Problem, i: Span, st: State)
    requires Invariant(p, i, st) && Value(p, st.x) != 0.0
    ensures match Bisect(p, st, Value(p, st.x))
            case Next(n) => Invariant(p, i, n) && HalvesBracket(p, st, n)
            case o => o == NotBracketed && (!HasNegativeEnd(p) || !HasPositiveEnd(p))
  {
    hide Value, Force;
    ForcedBrackets(p, i, st.a, st.b);
    NumIsForced(p, st.a);
    NumIsForced(p, st.b);
    if Force(p, st.a).Some? && Force(p, st.b).Some? {
      MidpointInside(i, Force(p, st.a).value, Force(p, st.b).value);
    }
  }

  lemma NumIsForced(p: Problem, b: Bound)
    ensures b.Num? ==> Force(p, b) == Some(b.x)
  {
  }

  /** A call returns its point exactly for a value of zero or a last step shorter than tol times it. */
  lemma ReturnsRootIff(p: Problem, st: State)
    ensures Step(p, st).Root? <==> Value(p, st.x) == 0.0 || Abs(st.dx) < Abs(p.tol * st.x)
    ensures Step(p, st).Root? ==> Step(p, st).x == st.x
  {
    hide InBounds, TurnsBack, Quotient, ForcedValue, Bisect;
    BisectsOn(p, st, Value(p, st.x));
  }

  lemma BisectsOn(p: Problem, st: State, f: real)
    ensures !Bisect(p, st, f).Root?
  {
  }

  /** Between which points a Newton step has to land: the bounds if both are known, else the endpoints. */
  predicate Lands(p: Problem, st: State, y: real) {
    if st.a.Num? && st.b.Num? then Between(y, st.a.x, st.b.x) else Between(y, p.xMin, p.xMax)
  }

  /** The Newton step, and the bound on the side of the value moved to x. */
  predicate IsNewtonStep(p: Problem, st: State, n: State) {
    && n.x == st.x - n.dx && n.dx * Slope(p, st.x) == Value(p, st.x)
    && n.a == (if Value(p, st.x) < 0.0 then Num(st.x) else st.a)
    && n.b == (if Value(p, st.x) > 0.0 then Num(st.x) else st.b)
  }

  lemma TestedIff(p: Problem, st: State, f: real, df: real)
    ensures InBounds(st.x, f, df, Tested(p, st).0, Tested(p, st).1) <==> df != 0.0 && Lands(p, st, st.x - Quotient(f, df))
  {
    hide InBounds, Quotient;
    InBoundsIff(st.x, f, df, Tested(p, st).0, Tested(p, st).1);
  }

  /** What one call does: the bracket is kept, the inner raise never happens, the Newton step is taken
      exactly if it lands strictly between the bounds, else the old bracket is halved. */
  lemma StepKeepsBracket(p: Problem, i: Span, st: State)
    requires Invariant(p, i, st)
    ensures match Step(p, st)
            case Next(n) =>
              && Invariant(p, i, n)
              && var f, df := Value(p, st.x), Slope(p, st.x);
              if df != 0.0 && Lands(p, st, st.x - f / df) then IsNewtonStep(p, st, n) else HalvesBracket(p, st, n)
            case Root(x) => i.Has(x) && x == st.x && (Value(p, x) == 0.0 || Abs(st.dx) < Abs(p.tol * x))
            case NotBracketed => !HasNegativeEnd(p) || !HasPositiveEnd(p)
            case InnerRaise => false
            case ZeroDivisionError => Slope(p, st.x) == 0.0 && st.dx != p.xMax - p.xMin
  {
    hide Small, Lands, Value, Slope, Check, Advance, IsNewtonStep, HalvesBracket, Invariant;
    InvariantHolds(p, i, st);
    CheckOutcome(p, i, st);
    ReturnsRootIff(p, st);
    if Value(p, st.x) != 0.0 {
      AdvanceOutcome(p, i, st);
    }
  }

  lemma InvariantHolds(p: Problem, i: Span, st: State)
    requires Invariant(p, i, st)
    ensures i.Has(st.x)
  {
  }

  lemma AdvanceOutcome(p: Problem, i: Span, st: State)
    requires Invariant(p, i, st) && Value(p, st.x) != 0.0
    ensures var f, df := Value(p, st.x), Slope(p, st.x);
            match Advance(p, st, f, df)
            case Next(n) =>
              && Invariant(p, i, n)
              && if df != 0.0 && Lands(p, st, st.x - f / df) then IsNewtonStep(p, st, n) else HalvesBracket(p, st, n)
            case o => o == NotBracketed && (!HasNegativeEnd(p) || !HasPositiveEnd(p))
  {
    hide InBounds, Lands, Value, Slope, Bisect, HalvesBracket;
    var f, df := Value(p, st.x), Slope(p, st.x);
    NewBounds(p, i, st);
    TestedIff(p, st, f, df);
    BisectOutcome(p, i, st);
    if df != 0.0 {
      QuotientTimes(f, df);
      NewtonInside(p, i, st);
    }
  }

  lemma NewtonInside(p: Problem, i: Span, st: State)
    requires Invariant(p, i, st) && Slope(p, st.x) != 0.0
    ensures Lands(p, st, st.x - Quotient(Value(p, st.x), Slope(p, st.x))) ==> i.Has(st.x - Quotient(Value(p, st.x), Slope(p, st.x)))
  {
    hide Quotient;
  }

  /** No endpoint has the sign that a bound still has to be looked for with. */
  predicate Lacks(p: Problem, negative: bool, positive: bool) {
    (negative && !HasNegativeEnd(p)) || (positive && !HasPositiveEnd(p))
  }

  /** Exactly when a call that does not return raises: for a slope of zero after the first call, and for
      want of an endpoint with the sign of a bound that the step needs and that is not known yet. The
      check needs the bounds if the step turns back on the one before; bisection always does. */
  lemma ErrorsIff(p: Problem, i: Span, st: State)
    requires Invariant(p, i, st) && !Step(p, st).Root?
    ensures var f, df := Value(p, st.x), Slope(p, st.x);
            var later := st.dx != p.xMax - p.xMin;
            && (Step(p, st) == ZeroDivisionError <==> later && df == 0.0)
            && (Step(p, st) == NotBracketed <==>
                  || (later && df != 0.0 && st.dx * (f / df) < 0.0
                      && Lacks(p, st.a == LazyNegative && f > 0.0, st.b == LazyPositive && f < 0.0))
                  || (!(later && df == 0.0) && !(df != 0.0 && Lands(p, st, st.x - f / df))
                      && Lacks(p, st.a == LazyNegative, st.b == LazyPositive)))
  {
    hide Small, InBounds, Lands, Value, Slope, HasNegativeEnd, HasPositiveEnd, CheckSigns, Bisect, Quotient;
    var f, df := Value(p, st.x), Slope(p, st.x);
    ReturnsRootIff(p, st);
    TestedIff(p, st, f, df);
    SignsLack(p, i, NewLower(st, f), NewUpper(st, f)) by { NewBounds(p, i, st); }
    BisectLacks(p, i, st, f);
    if df != 0.0 {
      QuotientIs(f, df);
    }
  }

  lemma QuotientIs(f: real, df: real)
    requires df != 0.0
    ensures Quotient(f, df) == f / df
  {
  }

  lemma SignsLack(p: Problem, i: Span, a: Bound, b: Bound)
    requires Covers(i, p) && LowerBound(p, i, a) && UpperBound(p, i, b)
    ensures CheckSigns(p, a, b) == if Lacks(p, a == LazyNegative, b == LazyPositive) then Some(NotBracketed) else None
  {
    hide Value;
    SignsDiffer(p, i, a, b);
  }

  lemma BisectLacks(p: Problem, i: Span, st: State, f: real)
    requires Invariant(p, i, st)
    ensures Bisect(p, st, f) == NotBracketed <==> Lacks(p, st.a == LazyNegative, st.b == LazyPositive)
    ensures Bisect(p, st, f) != NotBracketed ==> Bisect(p, st, f).Next?
  {
    hide Value;
  }

  // ----- whole runs

  function Initial(p: Problem, guess: real): State {
    State(guess, LazyNegative, LazyPositive, p.xMax - p.xMin)
  }

  /** The outcome after at most n further calls. */
  function Run(p: Problem, st: State, n: nat): Outcome
    decreases n
  {
    if n == 0 then Next(st)
    else
      var o := Step(p, st);
      if o.Next? then Run(p, o.st, n - 1) else o
  }

  /** On every run all points and bounds stay in the hull of the endpoints and the guess, with the
      right signs; when the endpoints have opposite signs the only possible error is a zero slope. */
  lemma {:induction false} RunKeepsBracket(p: Problem, i: Span, st: State, n: nat)
    requires Invariant(p, i, st)
    ensures match Run(p, st, n)
            case Next(s) => Invariant(p, i, s)
            case Root(x) => i.Has(x)
            case NotBracketed => !HasNegativeEnd(p) || !HasPositiveEnd(p)
            case InnerRaise => false
            case ZeroDivisionError => exists x :: i.Has(x) && Slope(p, x) == 0.0
    decreases n
  {
    hide Step, HalvesBracket, InBounds;
    if n > 0 {
      StepKeepsBracket(p, i, st);
      if Step(p, st).Next? {
        RunKeepsBracket(p, i, Step(p, st).st, n - 1);
      }
    }
  }

  /** The root that a run returns is a zero, or was reached by a step shorter than tol times it. */
  lemma {:induction false} RootReached(p: Problem, st: State, n: nat) returns (m: nat, last: State)
    requires Run(p, st, n).Root?
    ensures m < n && Run(p, st, m) == Next(last) && last.x == Run(p, st, n).x
    ensures Value(p, last.x) == 0.0 || Abs(last.dx) < Abs(p.tol * last.x)
    decreases n
  {
    hide Step;
    ReturnsRootIff(p, st);
    var o := Step(p, st);
    if o.Root? {
      m, last := 0, st;
    } else {
      var m', last' := RootReached(p, o.st, n - 1);
      m, last := m' + 1, last';
    }
  }

  /** After m calls a run stands at `last`, whose point x is a zero or was reached by a short step. */
  ghost predicate LastStep(p: Problem, st: State, m: nat, last: State, x: real) {
    Run(p, st, m) == Next(last) && last.x == x && (Value(p, x) == 0.0 || Abs(last.dx) < Abs(p.tol * x))
  }

  lemma RootHasStep(p: Problem, st: State, n: nat)
    ensures Run(p, st, n).Root? ==> exists m: nat, last :: m < n && LastStep(p, st, m, last, Run(p, st, n).x)
  {
    hide Run;
    if Run(p, st, n).Root? {
      var m, last := RootReached(p, st, n);
      assert LastStep(p, st, m, last, Run(p, st, n).x);
    }
  }

  lemma RunOn(p: Problem, st: State, n: nat)
    ensures Run(p, st, 0) == Next(st)
    ensures n > 0 ==> Run(p, st, n) == if Step(p, st).Next? then Run(p, Step(p, st).st, n - 1) else Step(p, st)
  {
    hide Step;
  }

  // ----- a run that does not end

  /** Value and slope of a function that is negative at -2, -1 and 1 and positive at 2; the tangents
      at 1 and -1 meet the axis at each other. */
  function Swing(x: real): (real, real) {
    if x == 1.0 then (-1.0, -0.5)
    else if x == -1.0 then (-1.0, 0.5)
    else if x > 1.0 then (1.0, 1.0)
    else (-1.0, -1.0)
  }

  const Swinging := Problem(Swing, 0.001, -2.0, 2.0)

  /** At 1 or -1, with the upper bound still lazy and the lower bound the point before. */
  predicate Swings(st: State) {
    && (st.x == 1.0 || st.x == -1.0) && st.b == LazyPositive
    && (st.a == LazyNegative || st.a == Num(-st.x))
    && (st.dx == 4.0 || (st.dx == -2.0 * st.x && st.a.Num?))
  }

  lemma SwingStep(st: State)
    requires Swings(st)
    ensures var o := Step(Swinging, st); o.Next? && Swings(o.st)
  {
    hide Quotient, Swing;
    SwingValues();
    SwingQuotients();
    assert ForcedValue(Swinging, Num(st.x)) == Some(-1.0);
    assert ForcedValue(Swinging, LazyPositive) == Some(1.0);
    assert Check(Swinging, st, Value(Swinging, st.x), Slope(Swinging, st.x)).None?;
    assert InBounds(st.x, -1.0, -0.5 * st.x, -2.0, 2.0);
  }

  lemma SwingValues()
    ensures Swinging.f(1.0) == (-1.0, -0.5) && Swinging.f(-1.0) == (-1.0, 0.5)
    ensures Swinging.f(-2.0).0 == -1.0 && Swinging.f(2.0).0 == 1.0
  {
  }

  lemma SwingQuotients()
    ensures Quotient(-1.0, -0.5) == 2.0 && Quotient(-1.0, 0.5) == -2.0
  {
  }

  lemma {:induction false} SwingsOn(st: State, n: nat)
    requires Swings(st)
    ensures Run(Swinging, st, n).Next?
    decreases n
  {
    hide Step, Swings;
    if n > 0 {
      SwingStep(st);
      SwingsOn(Step(Swinging, st).st, n - 1);
    }
  }

  /** Endpoints of opposite sign and nonzero slopes do not make a run end. */
  lemma RunNeedNotEnd()
    ensures HasNegativeEnd(Swinging) && HasPositiveEnd(Swinging) && Swinging.xMin <= 1.0 <= Swinging.xMax
    ensures forall x :: Slope(Swinging, x) != 0.0
    ensures forall n: nat :: Run(Swinging, Initial(Swinging, 1.0), n).Next?
  {
    SwingValues();
    forall n: nat ensures Run(Swinging, Initial(Swinging, 1.0), n).Next? {
      SwingsOn(Initial(Swinging, 1.0), n);
    }
  }

  // ----- memoize

  class Memo {
    const f: real -> (real, real)
    var tab: map<real, (real, real)>
    ghost var calls: seq<real>     // the points f itself was called at, in order

    ghost predicate Valid()
      reads this
    {
      && (forall y :: y in tab ==> tab[y] == f(y))
      && (forall y :: y in tab <==> y in calls)
      && (forall i, j :: 0 <= i < j < |calls| ==> calls[i] != calls[j])
    }

    constructor (f: real -> (real, real))
      ensures Valid() && this.f == f && calls == []
    {
      this.f := f;
      tab := map[];
      calls := [];
    }

    /** The value of f, computed at most once for each argument. */
    method Call(y: real) returns (r: (real, real))
      requires Valid()
      modifies this
      ensures Valid() && r == f(y)
      ensures calls == old(calls) + (if y in old(tab) then [] else [y])
      ensures tab.Keys == old(tab.Keys) + {y}
    {
      if y in tab {
        r := tab[y];
      } else {
        r := f(y);
        tab := tab[y := r];
        calls := calls + [y];
      }
    }
  }

  // ----- the search as it runs, with the table

  class RootFinder {
    const p: Problem
    const memo: Memo

    ghost predicate Valid()
      reads this, memo
    {
      memo.f == p.f && memo.Valid()
    }

    constructor (p: Problem)
      ensures Valid() && this.p == p && memo.calls == [] && fresh(memo)
    {
      this.p := p;
      memo := new Memo(p.f);
    }

    /** pick_bound evaluates both endpoints before it looks at either. */
    method Pick(negative: bool) returns (r: Option<real>)
      requires Valid()
      modifies memo
      ensures Valid() && r == PickBound(p, negative)
      ensures Evaluates(old(memo.tab.Keys), memo.tab.Keys, {p.xMin, p.xMax})
      ensures p.xMin in memo.tab && p.xMax in memo.tab
    {
      var lo := memo.Call(p.xMin);
      var hi := memo.Call(p.xMax);
      if (if negative then lo.0 < 0.0 else lo.0 > 0.0) {
        r := Some(p.xMin);
      } else if (if negative then hi.0 < 0.0 else hi.0 > 0.0) {
        r := Some(p.xMax);
      } else {
        r := None;
      }
    }

    method Lazy(b: Bound) returns (r: Option<real>)
      requires Valid() && Known(b, memo.tab.Keys)
      modifies memo
      ensures Valid() && r == Force(p, b)
      ensures Evaluates(old(memo.tab.Keys), memo.tab.Keys, if b.Num? then {} else {p.xMin, p.xMax})
      ensures r.Some? ==> r.value in memo.tab.Keys
    {
      match b
      case Num(x) => r := Some(x);
      case LazyNegative => r := Pick(true);
      case LazyPositive => r := Pick(false);
    }

    /** The value at a bound that is forced first. */
    method ValueAt(b: Bound) returns (r: Option<real>)
      requires Valid() && Known(b, memo.tab.Keys)
      modifies memo
      ensures Valid() && r == ForcedValue(p, b)
      ensures Evaluates(old(memo.tab.Keys), memo.tab.Keys, if b.Num? then {} else {p.xMin, p.xMax})
    {
      hide Force, Memo.Valid;
      var x := Lazy(b);
      if x.None? {
        return None;
      }
      var fx := memo.Call(x.value);
      return Some(fx.0);
    }

    /** The product of the values at the two bounds, each forced and evaluated in turn. */
    method CheckForced(a: Bound, b: Bound) returns (r: Option<Outcome>)
      requires Valid() && Known(a, memo.tab.Keys) && Known(b, memo.tab.Keys)
      modifies memo
      ensures Valid() && r == CheckSigns(p, a, b) && (r.Some? ==> !r.value.Next?)
      ensures Evaluates(old(memo.tab.Keys), memo.tab.Keys, if a.Num? && b.Num? then {} else {p.xMin, p.xMax})
    {
      hide Force, Memo.Valid, Evaluates;
      var fa := ValueAt(a);
      if fa.None? {
        NoMorePoints(old(memo.tab.Keys), memo.tab.Keys, memo.tab.Keys, !a.Num?, !b.Num?, {p.xMin, p.xMax});
        return Some(NotBracketed);
      }
      ghost var between := memo.tab.Keys;
      KnownStays(b, old(memo.tab.Keys), between, if a.Num? then {} else {p.xMin, p.xMax});
      var fb := ValueAt(b);
      NoMorePoints(old(memo.tab.Keys), between, memo.tab.Keys, !a.Num?, !b.Num?, {p.xMin, p.xMax});
      return if fb.None? then Some(NotBracketed) else if fa.value * fb.value > 0.0 then Some(InnerRaise) else None;
    }

    /** The bracket check of one call. */
    method CheckBracket(st: State, f: real, df: real) returns (r: Option<Outcome>)
      requires Valid() && st.x in memo.tab.Keys && Known(st.a, memo.tab.Keys) && Known(st.b, memo.tab.Keys)
      modifies memo
      ensures Valid() && r == Check(p, st, f, df) && (r.Some? ==> !r.value.Next?)
      ensures Evaluates(old(memo.tab.Keys), memo.tab.Keys, if ChecksLazily(p, st, f, df) then {p.xMin, p.xMax} else {})
    {
      hide TurnsBack, CheckSigns, NewLower, NewUpper, Memo.Valid;
      if st.dx == p.xMax - p.xMin {
        return None;
      }
      if df == 0.0 {
        return Some(ZeroDivisionError);
      }
      if !TurnsBack(st.dx, f, df) {
        return None;
      }
      NewBoundsKnown(st, f, memo.tab.Keys);
      r := CheckForced(NewLower(st, f), NewUpper(st, f));
    }

    /** One call of newton. Besides x it evaluates f at the endpoints only, and not even there
        unless a bound that is still lazy is needed. */
    method NewtonStep(st: State) returns (o: Outcome)
      requires Valid() && Known(st.a, memo.tab.Keys) && Known(st.b, memo.tab.Keys)
      modifies memo
      ensures Valid() && o == Step(p, st)
      ensures Evaluates(old(memo.tab.Keys), memo.tab.Keys, {st.x} + (if ForcesBounds(p, st) then {p.xMin, p.xMax} else {}))
      ensures o.Next? ==> Known(o.st.a, memo.tab.Keys) && Known(o.st.b, memo.tab.Keys)
    {
      hide Small, AdvancesLazily, ChecksLazily, Check, Advance, Memo.Valid;
      if Small(st.dx, p.tol, st.x) {
        return Root(st.x);
      }
      var fx := memo.Call(st.x);
      var f, df := fx.0, fx.1;
      if f == 0.0 {
        return Root(st.x);
      }
      var c := CheckBracket(st, f, df);
      if c.Some? {
        return c.value;
      }
      o := AdvanceStep(st, f, df);
    }

    method AdvanceStep(st: State, f: real, df: real) returns (o: Outcome)
      requires Valid() && st.x in memo.tab.Keys && Known(st.a, memo.tab.Keys) && Known(st.b, memo.tab.Keys)
      modifies memo
      ensures Valid() && o == Advance(p, st, f, df)
      ensures Evaluates(old(memo.tab.Keys), memo.tab.Keys, if AdvancesLazily(p, st, f, df) then {p.xMin, p.xMax} else {})
      ensures o.Next? ==> Known(o.st.a, memo.tab.Keys) && Known(o.st.b, memo.tab.Keys)
    {
      hide InBounds, Quotient, Bisect, NewLower, NewUpper, Memo.Valid;
      var isInBounds := if st.a.Num? && st.b.Num? then InBounds(st.x, f, df, st.a.x, st.b.x)
                        else InBounds(st.x, f, df, p.xMin, p.xMax);
      if df == 0.0 {
        FlatIsOutOfBounds(st.x, f, Tested(p, st).0, Tested(p, st).1);
      }
      if isInBounds {
        NewBoundsKnown(st, f, memo.tab.Keys);
        return Next(State(st.x - Quotient(f, df), NewLower(st, f), NewUpper(st, f), Quotient(f, df)));
      }
      o := BisectStep(st, f);
    }

    /** Bisection of the old bracket, with the bounds forced. */
    method BisectStep(st: State, f: real) returns (o: Outcome)
      requires Valid() && st.x in memo.tab.Keys && Known(st.a, memo.tab.Keys) && Known(st.b, memo.tab.Keys)
      modifies memo
      ensures Valid() && o == Bisect(p, st, f)
      ensures Evaluates(old(memo.tab.Keys), memo.tab.Keys, if st.a.Num? && st.b.Num? then {} else {p.xMin, p.xMax})
      ensures o.Next? ==> Known(o.st.a, memo.tab.Keys) && Known(o.st.b, memo.tab.Keys)
    {
      hide Force, PickBound, Memo.Valid;
      var av := Lazy(st.a);
      if av.None? {
        return NotBracketed;
      }
      var bv := Lazy(st.b);
      if bv.None? {
        return NotBracketed;
      }
      var a', b' := NewLower(st, f), NewUpper(st, f);
      var dx' := 0.5 * (bv.value - av.value);
      var a'' := if st.a == a' then Num(av.value) else a';
      var b'' := if st.b == b' then Num(bv.value) else b';
      o := Next(State((av.value + bv.value) * 0.5, a'', b'', dx'));
    }

    /** At most maxCalls calls of newton. f is never evaluated twice at a point, nor outside the hull
        of the endpoints and the guess; for a guess between them that is the interval itself. */
    method FindRoot(guess: Option<real>, maxCalls: nat) returns (o: Outcome)
      requires Valid() && memo.calls == []
      modifies memo
      ensures Valid()
      ensures o == Run(p, Initial(p, StartAt(p, guess)), maxCalls)
      ensures var x := if guess.Some? then guess.value else (p.xMin + p.xMax) * 0.5;
              Initial(p, StartAt(p, guess)) == State(x, LazyNegative, LazyPositive, p.xMax - p.xMin)
      ensures forall y :: y in memo.calls ==> Hull(p, StartAt(p, guess)).Has(y)
      ensures o.Root? ==> exists m: nat, last :: m < maxCalls && LastStep(p, Initial(p, StartAt(p, guess)), m, last, o.x)
      ensures p.xMin <= p.xMax && (guess.Some? ==> p.xMin <= guess.value <= p.xMax) ==>
                forall y :: y in memo.calls ==> p.xMin <= y <= p.xMax
    {
      hide Step, Run, Invariant, HalvesBracket, InBounds, LastStep;
      var x := if guess.Some? then guess.value else (p.xMin + p.xMax) * 0.5;
      var st := Initial(p, x);
      ghost var start, i := st, Hull(p, x);
      InitialInvariant(p, x);
      o := Next(st);
      for n := 0 to maxCalls
        invariant Valid() && o == Next(st)
        invariant Run(p, start, maxCalls) == Run(p, st, maxCalls - n)
        invariant Invariant(p, i, st) && Known(st.a, memo.tab.Keys) && Known(st.b, memo.tab.Keys)
        invariant forall y :: y in memo.calls ==> i.Has(y)
      {
        PointsInside(p, i, st);
        StepKeepsBracket(p, i, st);
        RunOn(p, st, maxCalls - n);
        o := NewtonStep(st);
        if !o.Next? {
          RootHasStep(p, start, maxCalls);
          return;
        }
        st := o.st;
      }
      RunOn(p, st, 0);
    }
  }

  /** x_guess, or the middle of the interval. */
  function StartAt(p: Problem, guess: Option<real>): real {
    if guess.Some? then guess.value else (p.xMin + p.xMax) * 0.5
  }

  /** Going from the points `before` to the points `after`, f was called at points of `more` only. */
  ghost predicate Evaluates(before: set<real>, after: set<real>, more: set<real>) {
    before <= after <= before + more
  }

  /** Two rounds of evaluations, either of which may evaluate nothing. */
  lemma NoMorePoints(before: set<real>, between: set<real>, after: set<real>, first: bool, second: bool, more: set<real>)
    requires Evaluates(before, between, if first then more else {})
    requires Evaluates(between, after, if second then more else {}) || after == between
    ensures Evaluates(before, after, if first || second then more else {})
  {
  }

  lemma KnownStays(b: Bound, before: set<real>, after: set<real>, more: set<real>)
    requires Known(b, before) && Evaluates(before, after, more)
    ensures Known(b, after)
  {
  }

  ghost predicate Known(b: Bound, points: set<real>) { b.Num? ==> b.x in points }

  /** The check needs a bound that has not been evaluated yet. */
  predicate ChecksLazily(p: Problem, st: State, f: real, df: real) {
    && st.dx != p.xMax - p.xMin && df != 0.0 && TurnsBack(st.dx, f, df)
    && !(NewLower(st, f).Num? && NewUpper(st, f).Num?)
  }

  /** Bisection needs a bound that has not been evaluated yet. */
  predicate AdvancesLazily(p: Problem, st: State, f: real, df: real) {
    !InBounds(st.x, f, df, Tested(p, st).0, Tested(p, st).1) && !(st.a.Num? && st.b.Num?)
  }

  /** A lazy bound is needed: by the check, or because the Newton step is out of bounds. */
  predicate ForcesBounds(p: Problem, st: State) {
    var f, df := Value(p, st.x), Slope(p, st.x);
    ChecksLazily(p, st, f, df) || AdvancesLazily(p, st, f, df)
  }

  lemma InitialInvariant(p: Problem, guess: real)
    ensures Invariant(p, Hull(p, guess), Initial(p, guess))
  {
  }

  lemma PointsInside(p: Problem, i: Span, st: State)
    requires Invariant(p, i, st)
    ensures i.Has(st.x) && i.Has(p.xMin) && i.Has(p.xMax)
  {
  }

  lemma NewBoundsKnown(st: State, f: real, points: set<real>)
    requires st.x in points && Known(st.a, points) && Known(st.b, points)
    ensures Known(NewLower(st, f), points) && Known(NewUpper(st, f), points)
  {
  }
}
