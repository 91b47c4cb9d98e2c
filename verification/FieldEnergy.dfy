/** Energy densities computed in place (libpympb/pympb.cpp:1599-1701): the densities of N points
    overwrite the buffer that holds the 3N complex field components they are computed from. */
module FieldEnergy {
  import opened Options
  import opened Vectors
  import opened Tensors

  // ----- the field in its buffer: re and im of three components for each point

  function RePart(b: seq<real>, i: nat): Vector3
    requires 6 * i + 5 < |b|
  {
    Vector3(b[6 * i], b[6 * i + 2], b[6 * i + 4])
  }

  function ImPart(b: seq<real>, i: nat): Vector3
    requires 6 * i + 5 < |b|
  {
    Vector3(b[6 * i + 1], b[6 * i + 3], b[6 * i + 5])
  }

  /** comp_sqr0 ... comp_sqr5, and their sums. */
  datatype Six = Six(c0: real, c1: real, c2: real, c3: real, c4: real, c5: real) {

    function Plus(s: Six): Six { Six(c0 + s.c0, c1 + s.c1, c2 + s.c2, c3 + s.c3, c4 + s.c4, c5 + s.c5) }

    function Total(): real { c0 + c1 + c2 + c3 + c4 + c5 }
  }

  const SixZero := Six(0.0, 0.0, 0.0, 0.0, 0.0, 0.0)

  function Products(fRe: Vector3, fIm: Vector3, re: Vector3, im: Vector3): Six {
    Six(fRe.x * re.x, fIm.x * im.x, fRe.y * re.y, fIm.y * im.y, fRe.z * re.z, fIm.z * im.z)
  }

  /** What point i contributes under the tensor A. */
  function ComponentsAt(b: seq<real>, A: Sym, i: nat): Six
    requires 6 * i + 5 < |b|
  {
    Products(A.Full().Apply(RePart(b, i)), A.Full().Apply(ImPart(b, i)), RePart(b, i), ImPart(b, i))
  }

  /** The energy density of the field at point i: the quadratic form of A on its real and
      imaginary part. */
  function Density(b: seq<real>, A: Sym, i: nat): real
    requires 6 * i + 5 < |b|
  {
    A.Form(RePart(b, i), RePart(b, i)) + A.Form(ImPart(b, i), ImPart(b, i))
  }

  lemma ComponentsTotal(b: seq<real>, A: Sym, i: nat)
    requires 6 * i + 5 < |b|
    ensures ComponentsAt(b, A, i).Total() == Density(b, A, i)
  {
    hide Matrix.Apply;
  }

  const One := Sym(1.0, 1.0, 1.0, 0.0, 0.0, 0.0)

  lemma OneIsIdentity(v: Vector3)
    ensures One.Full().Apply(v) == v
  {
  }

  /** Without a tensor the density is the squared modulus of the field. */
  lemma DensityOfOne(b: seq<real>, i: nat)
    requires 6 * i + 5 < |b|
    ensures Density(b, One, i) == RePart(b, i).Dot(RePart(b, i)) + ImPart(b, i).Dot(ImPart(b, i))
  {
    hide Matrix.Apply, Vector3.Dot;
    OneIsIdentity(RePart(b, i));
    OneIsIdentity(ImPart(b, i));
  }

  // ----- sums over the first n points

  function ComponentSum(b: seq<real>, tensors: seq<Sym>, n: nat): Six
    requires n <= |tensors| && 6 * n <= |b|
  {
    if n == 0 then SixZero else ComponentSum(b, tensors, n - 1).Plus(ComponentsAt(b, tensors[n - 1], n - 1))
  }

  function EnergySum(b: seq<real>, tensors: seq<Sym>, n: nat): real
    requires n <= |tensors| && 6 * n <= |b|
  {
    if n == 0 then 0.0 else EnergySum(b, tensors, n - 1) + Density(b, tensors[n - 1], n - 1)
  }

  /** The six component sums account for all of the energy. */
  lemma {:induction false} ComponentsAddUp(b: seq<real>, tensors: seq<Sym>, n: nat)
    requires n <= |tensors| && 6 * n <= |b|
    ensures ComponentSum(b, tensors, n).Total() == EnergySum(b, tensors, n)
  {
    hide Density, ComponentsAt;
    if n > 0 {
      ComponentsAddUp(b, tensors, n - 1);
      ComponentsTotal(b, tensors[n - 1], n - 1);
    }
  }

  lemma FormSign(A: Sym, v: Vector3)
    requires PositiveDefinite(A)
    ensures A.Form(v, v) >= 0.0 && (A.Form(v, v) == 0.0 <==> v == Zero3)
  {
    if v == Zero3 {
      FormComponents(A, v, v);
    }
  }

  ghost predicate Vanishes(b: seq<real>, i: nat)
    requires 6 * i + 5 < |b|
  {
    RePart(b, i) == Zero3 && ImPart(b, i) == Zero3
  }

  /** Densities of positive-definite tensors are non-negative and vanish only with the field. */
  lemma {:induction false} DensitySign(b: seq<real>, A: Sym, i: nat)
    requires 6 * i + 5 < |b| && PositiveDefinite(A)
    ensures Density(b, A, i) >= 0.0
    ensures Density(b, A, i) == 0.0 <==> Vanishes(b, i)
  {
    hide Sym.Form;
    FormSign(A, RePart(b, i));
    FormSign(A, ImPart(b, i));
  }

  /** So does the total: it is zero exactly for the zero field. */
  lemma {:induction false} EnergySign(b: seq<real>, tensors: seq<Sym>, n: nat)
    requires n <= |tensors| && 6 * n <= |b|
    requires forall i :: 0 <= i < n ==> PositiveDefinite(tensors[i])
    ensures EnergySum(b, tensors, n) >= 0.0
    ensures EnergySum(b, tensors, n) == 0.0 <==> forall i :: 0 <= i < n ==> Vanishes(b, i)
  {
    hide Density, Vanishes;
    if n > 0 {
      EnergySign(b, tensors, n - 1);
      DensitySign(b, tensors[n - 1], n - 1);
    }
  }

  // ----- the computation

  /** toupper of the C locale. */
  function ToUpper(c: char): char { if 'a' <= c <= 'z' then (c as int - 32) as char else c }

  /** strchr("dhb", c), which also finds the terminating zero. */
  predicate IsFieldType(c: char) { c == 'd' || c == 'h' || c == 'b' || c == '\0' }

  /** The letters change case, letter by letter; everything else stays. */
  lemma ToUpperIs(c: char)
    ensures 'a' <= c <= 'z' ==> 'A' <= ToUpper(c) <= 'Z' && ToUpper(c) as int - 'A' as int == c as int - 'a' as int
    ensures !('a' <= c <= 'z') ==> ToUpper(c) == c
  {
    assert 'a' as int == 97 && 'A' as int == 65 && 'z' as int == 122 && 'Z' as int == 90;
  }

  lemma ToUpperLeaves(c: char)
    requires IsFieldType(c)
    ensures IsFieldType(ToUpper(c)) ==> ToUpper(c) == '\0'
  {
    assert 'd' as int == 100 && 'h' as int == 104 && 'b' as int == 98;
  }

  /** The share of a component in the energy e. */
  function Share(part: real, e: real): real { part / if e == 0.0 then 1.0 else e }

  function Shares(c: Six, e: real): seq<real> {
    [Share(c.c0, e), Share(c.c1, e), Share(c.c2, e), Share(c.c3, e), Share(c.c4, e), Share(c.c5, e)]
  }

  /** The energy per grid point times the cell volume. */
  function PerCell(e: real, vol: real, points: nat): real
    requires points >= 1
  {
    e * vol / points as real
  }

  /** Seven numbers: the energy of the cell, of which each grid point is a part of equal volume, and the
      six parts of it; the parts themselves when there is no energy. */
  predicate IsReport(r: seq<real>, e: real, c: Six, vol: real, points: nat) {
    && |r| == 7 && r[0] * points as real == e * vol
    && var unit := if e == 0.0 then 1.0 else e;
    && r[1] * unit == c.c0 && r[2] * unit == c.c1 && r[3] * unit == c.c2
    && r[4] * unit == c.c3 && r[5] * unit == c.c4 && r[6] * unit == c.c5
  }

  lemma ReportIs(e: real, c: Six, vol: real, points: nat)
    requires points >= 1
    ensures IsReport([PerCell(e, vol, points)] + Shares(c, e), e, c, vol, points)
  {
    PerCellTimes(e, vol, points);
    ShareTimes(c.c0, e);
    ShareTimes(c.c1, e);
    ShareTimes(c.c2, e);
    ShareTimes(c.c3, e);
    ShareTimes(c.c4, e);
    ShareTimes(c.c5, e);
    hide PerCell, Share;
  }

  lemma PerCellTimes(e: real, vol: real, points: nat)
    requires points >= 1
    ensures PerCell(e, vol, points) * points as real == e * vol
  {
  }

  lemma ShareTimes(part: real, e: real)
    ensures Share(part, e) * (if e == 0.0 then 1.0 else e) == part
  {
  }

  class ModeSolver {
    /** curfield, read as reals; energy_density is the same memory. */
    var curfield: Option<array<real>>
    var curfieldType: char
    const N: nat
    const epsInv: seq<Sym>
    const muInv: Option<seq<Sym>>
    const vol: real
    const points: nat

    ghost predicate Valid()
      reads this
    {
      && |epsInv| == N && (muInv.Some? ==> |muInv.value| == N) && points >= 1
      && (curfield.Some? ==> curfield.value.Length >= 6 * N)
    }

    constructor (N: nat, epsInv: seq<Sym>, muInv: Option<seq<Sym>>, vol: real, points: nat)
      requires |epsInv| == N && (muInv.Some? ==> |muInv.value| == N) && points >= 1
      ensures Valid() && curfield == None && curfieldType == '-'
    {
      this.N, this.epsInv, this.muInv, this.vol, this.points := N, epsInv, muInv, vol, points;
      curfield, curfieldType := None, '-';
    }

    /** The tensor that the loaded field is weighed with at each point. */
    function Weights(): (w: seq<Sym>)
      reads this
      requires |epsInv| == N && (muInv.Some? ==> |muInv.value| == N)
      ensures |w| == N
    {
      if curfieldType == 'd' then epsInv
      else if curfieldType == 'b' && muInv.Some? then muInv.value
      else seq(N, i => One)
    }

    lemma WeightsByType()
      requires Valid()
      ensures var w := Weights();
              && (curfieldType == 'd' ==> w == epsInv)
              && (curfieldType == 'b' && muInv.Some? ==> w == muInv.value)
              && (curfieldType != 'd' && (curfieldType != 'b' || muInv.None?) ==> forall i :: 0 <= i < N ==> w[i] == One)
    {
    }

    /** field[0..3] at point i: the tensor times the field, or the field itself. */
    method LoadField(b: array<real>, i: nat) returns (fRe: Vector3, fIm: Vector3)
      requires Valid() && i < N && b.Length >= 6 * N
      ensures fRe == Weights()[i].Full().Apply(RePart(b[..], i)) && fIm == Weights()[i].Full().Apply(ImPart(b[..], i))
      ensures curfieldType == 'd' ==>
                fRe == epsInv[i].Full().Apply(RePart(b[..], i)) && fIm == epsInv[i].Full().Apply(ImPart(b[..], i))
      ensures curfieldType == 'b' && muInv.Some? ==>
                fRe == muInv.value[i].Full().Apply(RePart(b[..], i)) && fIm == muInv.value[i].Full().Apply(ImPart(b[..], i))
      ensures curfieldType != 'd' && (curfieldType != 'b' || muInv.None?) ==> fRe == RePart(b[..], i) && fIm == ImPart(b[..], i)
    {
      hide Matrix.Apply;
      var re, im := Vector3(b[6 * i], b[6 * i + 2], b[6 * i + 4]), Vector3(b[6 * i + 1], b[6 * i + 3], b[6 * i + 5]);
      if curfieldType == 'd' {
        fRe, fIm := epsInv[i].Full().Apply(re), epsInv[i].Full().Apply(im);
      } else if curfieldType == 'b' && muInv.Some? {
        fRe, fIm := muInv.value[i].Full().Apply(re), muInv.value[i].Full().Apply(im);
      } else {
        fRe, fIm := re, im;
        OneIsIdentity(re);
        OneIsIdentity(im);
      }
    }

    /** compute_field_energy_internal. Everything is computed from the field as it was on entry,
        although the densities replace its first N reals one by one. */
    method ComputeFieldEnergyInternal() returns (energySum: real, compSum: Six)
      requires Valid() && curfield.Some?
      modifies this`curfieldType, curfield.value
      ensures Valid() && curfieldType == ToUpper(old(curfieldType))
      ensures var b, w := old(curfield.value[..]), old(Weights());
              && (old(curfieldType) == 'd' ==> w == epsInv)
              && (old(curfieldType) == 'b' && muInv.Some? ==> w == muInv.value)
              && (old(curfieldType) != 'd' && (old(curfieldType) != 'b' || muInv.None?) ==> forall i :: 0 <= i < N ==> w[i] == One)
              && energySum == EnergySum(b, w, N) && compSum == ComponentSum(b, w, N)
              && (forall i :: 0 <= i < N ==> curfield.value[i] == Density(b, w[i], i))
              && (forall j :: N <= j < |b| ==> curfield.value[j] == b[j])
    {
      hide Density, ComponentsAt, Matrix.Apply, Sym.Form, Weights, RePart, ImPart;
      WeightsByType();
      var buffer := curfield.value;
      ghost var b, w := buffer[..], Weights();
      energySum, compSum := 0.0, SixZero;
      for i := 0 to N
        invariant curfieldType == old(curfieldType)
        invariant energySum == EnergySum(b, w, i) && compSum == ComponentSum(b, w, i)
        invariant forall a :: 0 <= a < i ==> buffer[a] == Density(b, w[a], a)
        invariant forall a :: i <= a < buffer.Length ==> buffer[a] == b[a]
      {
        var fRe, fIm := LoadField(buffer, i);
        SameParts(buffer[..], b, i);
        var sqr := Six(fRe.x * buffer[6 * i], fIm.x * buffer[6 * i + 1], fRe.y * buffer[6 * i + 2],
                       fIm.y * buffer[6 * i + 3], fRe.z * buffer[6 * i + 4], fIm.z * buffer[6 * i + 5]);
        assert sqr == ComponentsAt(b, w[i], i) by { SameProducts(b, w[i], i, fRe, fIm, sqr); }
        ComponentsTotal(b, w[i], i);
        compSum := compSum.Plus(sqr);
        buffer[i] := sqr.c0 + sqr.c1 + sqr.c2 + sqr.c3 + sqr.c4 + sqr.c5;
        energySum := energySum + buffer[i];
      }
      curfieldType := ToUpper(curfieldType);
    }

    /** compute_field_energy: the energy and the fraction in each of the six components, or nothing
        if no field is loaded. A second call without reloading the field returns nothing and
        changes nothing. */
    method ComputeFieldEnergy() returns (result: seq<real>)
      requires Valid()
      modifies this`curfieldType, if curfield.Some? then {curfield.value} else {}
      ensures Valid()
      ensures old(curfield.None? || !IsFieldType(curfieldType) || (curfieldType == 'h' && muInv.Some?)) ==>
                result == [] && curfieldType == old(curfieldType)
                && (curfield.Some? ==> curfield.value[..] == old(if curfield.Some? then curfield.value[..] else []))
      ensures old(curfield.Some? && IsFieldType(curfieldType) && !(curfieldType == 'h' && muInv.Some?)) ==>
                var b, w := old(if curfield.Some? then curfield.value[..] else []), old(Weights());
                var e := EnergySum(b, w, N);
                && result == [PerCell(e, vol, points)] + Shares(ComponentSum(b, w, N), e)
                && IsReport(result, e, ComponentSum(b, w, N), vol, points)
                && (forall i :: 0 <= i < N ==> curfield.value[i] == Density(b, w[i], i))
                && (IsFieldType(curfieldType) ==> curfieldType == '\0')
    {
      hide Density, ComponentsAt, ComponentSum, EnergySum, Share, PerCell, ToUpper, IsReport;
      if curfield.None? || !IsFieldType(curfieldType) {
        return [];
      }
      if curfieldType == 'h' && muInv.Some? {
        return [];
      }
      ToUpperLeaves(curfieldType);
      var e, c := ComputeFieldEnergyInternal();
      ReportIs(e, c, vol, points);
      result := [PerCell(e, vol, points), Share(c.c0, e), Share(c.c1, e), Share(c.c2, e), Share(c.c3, e),
                 Share(c.c4, e), Share(c.c5, e)];
    }
  }

  lemma SameParts(b: seq<real>, b': seq<real>, i: nat)
    requires 6 * i + 5 < |b| == |b'| && forall j :: 6 * i <= j < 6 * i + 6 ==> b[j] == b'[j]
    ensures RePart(b, i) == RePart(b', i) && ImPart(b, i) == ImPart(b', i)
  {
  }

  lemma SameProducts(b: seq<real>, A: Sym, i: nat, fRe: Vector3, fIm: Vector3, sqr: Six)
    requires 6 * i + 5 < |b|
    requires fRe == A.Full().Apply(RePart(b, i)) && fIm == A.Full().Apply(ImPart(b, i))
    requires sqr == Six(fRe.x * b[6 * i], fIm.x * b[6 * i + 1], fRe.y * b[6 * i + 2], fIm.y * b[6 * i + 3],
                        fRe.z * b[6 * i + 4], fIm.z * b[6 * i + 5])
    ensures sqr == ComponentsAt(b, A, i)
  {
    hide Matrix.Apply;
  }

  function Total(s: seq<real>): real { if s == [] then 0.0 else Total(s[..|s| - 1]) + s[|s| - 1] }

  /** The six shares add up to one, or to zero for the zero field. */
  lemma SharesAddUp(b: seq<real>, tensors: seq<Sym>, n: nat)
    requires n <= |tensors| && 6 * n <= |b|
    requires forall i :: 0 <= i < n ==> PositiveDefinite(tensors[i])
    ensures Total(Shares(ComponentSum(b, tensors, n), EnergySum(b, tensors, n)))
         == if forall i :: 0 <= i < n ==> Vanishes(b, i) then 0.0 else 1.0
  {
    hide EnergySum, ComponentSum, Vanishes, Share;
    ComponentsAddUp(b, tensors, n);
    EnergySign(b, tensors, n);
    ShareTotal(ComponentSum(b, tensors, n), EnergySum(b, tensors, n));
  }

  lemma ShareTotal(c: Six, e: real)
    requires c.Total() == e
    ensures Total(Shares(c, e)) == if e == 0.0 then 0.0 else 1.0
  {
    hide Share;
    var s := Shares(c, e);
    assert s[..5] == [s[0], s[1], s[2], s[3], s[4]];
    assert s[..5][..4] == [s[0], s[1], s[2], s[3]];
    TotalOfFour(s[0], s[1], s[2], s[3]);
    assert Total(s) == s[0] + s[1] + s[2] + s[3] + s[4] + s[5];
    QuotientSum(c, e);
  }

  lemma TotalOfFour(a: real, b: real, c: real, d: real)
    ensures Total([a, b, c, d]) == a + b + c + d
  {
    assert [a, b, c, d][..3] == [a, b, c] && [a, b, c][..2] == [a, b] && [a, b][..1] == [a] && [a][..0] == [];
    assert Total([a]) == a;
    assert Total([a, b]) == a + b;
    assert Total([a, b, c]) == a + b + c;
  }

  lemma QuotientSum(c: Six, e: real)
    requires c.Total() == e
    ensures Share(c.c0, e) + Share(c.c1, e) + Share(c.c2, e) + Share(c.c3, e) + Share(c.c4, e) + Share(c.c5, e)
         == if e == 0.0 then 0.0 else 1.0
  {
    if e != 0.0 {
      var r := 1.0 / e;
      assert c.c0 * r + c.c1 * r + c.c2 * r + c.c3 * r + c.c4 * r + c.c5 * r == (c.c0 + c.c1 + c.c2 + c.c3 + c.c4 + c.c5) * r;
    }
  }
}
