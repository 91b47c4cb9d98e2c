/** The neighbour loop of mode_solver::mean_epsmu (libpympb/pympb.cpp:345-409): from the objects
    found at the sample points around a pixel it picks two, or gives up. */
module NeighbourScan {
  import opened Options
  import opened Vectors

  datatype Material = Material(tag: nat, isVariable: bool, isFile: bool)

  datatype Object = Object(index: nat, material: Material)

  /** One sample point: the object there (none in the background), the lattice shift of its
      image, its precedence id, and the material used for it. */
  datatype Sample = Sample(o: Option<Object>, shift: Vector3, id: nat, mat: Material)

  /** o1/id1/mat1/shiftby1 and o2/id2/mat2/shiftby2; None stands for id == -1. */
  datatype Pair = Pair(first: Option<Sample>, second: Option<Sample>)

  type Same = (Material, Material) -> bool

  /** material_type_equal is an equivalence. */
  ghost predicate Equivalence(same: Same) {
    && (forall a :: same(a, a))
    && (forall a, b :: same(a, b) ==> same(b, a))
    && (forall a, b, c :: same(a, b) && same(b, c) ==> same(a, c))
  }

  /** An object id determines its material. */
  ghost predicate IdsDetermine(samples: seq<Sample>) {
    forall i, j :: 0 <= i < |samples| && 0 <= j < |samples| && samples[i].id == samples[j].id
      ==> samples[i].mat == samples[j].mat
  }

  predicate SameImage(s: Sample, p: Option<Sample>) {
    p.Some? && s.id == p.value.id && s.shift == p.value.shift
  }

  /** One pass of the loop body; None when it gives up. */
  function Step(same: Same, st: Pair, s: Sample): Option<Pair> {
    if SameImage(s, st.first) || SameImage(s, st.second) then Some(st)
    else if st.first.None? then Some(Pair(Some(s), st.second))
    else if st.second.None? then Some(Pair(st.first, Some(s)))
    else
      var a, b := st.first.value, st.second.value;
      if s.id >= a.id && s.id >= b.id && (a.id == b.id || same(a.mat, b.mat)) then
        Some(Pair(st.first, Some(s)))
      else if !(a.id < b.id && (a.id == s.id || same(a.mat, s.mat)))
           && !(b.id < a.id && (b.id == s.id || same(b.mat, s.mat))) then
        None
      else
        Some(st)
  }

  function Scan(same: Same, samples: seq<Sample>): Option<Pair> {
    if |samples| == 0 then Some(Pair(None, None))
    else
      var st := Scan(same, samples[..|samples| - 1]);
      if st.None? then None else Step(same, st.value, samples[|samples| - 1])
  }

  /** The loop over the neighbours; id1 and id2 start at -1. */
  method ScanNeighbours(same: Same, samples: seq<Sample>) returns (ok: bool, st: Pair)
    ensures ok <==> Scan(same, samples).Some?
    ensures ok ==> Scan(same, samples) == Some(st)
  {
    var first: Option<Sample>, second: Option<Sample> := None, None;
    for i := 0 to |samples|
      invariant Scan(same, samples[..i]) == Some(Pair(first, second))
    {
      var s := samples[i];
      assert samples[..i + 1][..i] == samples[..i];
      if !(SameImage(s, first) || SameImage(s, second)) {
        if first == None {
          first := Some(s);
        } else if second == None
            || (s.id >= first.value.id && s.id >= second.value.id
                && (first.value.id == second.value.id || same(first.value.mat, second.value.mat))) {
          second := Some(s);
        } else if !(first.value.id < second.value.id
                    && (first.value.id == s.id || same(first.value.mat, s.mat)))
               && !(second.value.id < first.value.id
                    && (second.value.id == s.id || same(second.value.mat, s.mat))) {
          GivesUp(same, samples, i + 1);
          return false, Pair(first, second);
        }
      }
    }
    assert samples[..|samples|] == samples;
    return true, Pair(first, second);
  }

  /** Giving up on a prefix is giving up. */
  lemma {:induction false} GivesUp(same: Same, samples: seq<Sample>, n: nat)
    requires n <= |samples| && Scan(same, samples[..n]).None?
    ensures Scan(same, samples).None?
    decreases |samples| - n
  {
    if n == |samples| {
      assert samples[..n] == samples;
    } else {
      assert samples[..n + 1][..n] == samples[..n];
      GivesUp(same, samples, n + 1);
    }
  }

  // ----- soundness

  /** Every sample is one of the two picked objects' material; and apart from the picked image
      with the larger id, whose overlap gives the fill, every sample is the other one's material. */
  ghost predicate Explains(same: Same, st: Pair, x: Sample) {
    && st.first.Some?
    && (st.second.None? ==> SameImage(x, st.first))
    && (st.second.Some? ==>
          var a, b := st.first.value, st.second.value;
          && (a.id > b.id ==> SameImage(x, st.first) || same(b.mat, x.mat))
          && (a.id < b.id ==> SameImage(x, st.second) || same(a.mat, x.mat))
          && (a.id == b.id ==> same(a.mat, x.mat)))
  }

  lemma StepExplains(same: Same, samples: seq<Sample>, st: Pair, s: Sample, x: Sample)
    requires Equivalence(same)
    requires Step(same, st, s).Some?
    requires x == s || Explains(same, st, x)
    requires st.first.Some? ==> (st.first.value.id == s.id ==> st.first.value.mat == s.mat)
    requires st.second.Some? ==> (st.second.value.id == s.id ==> st.second.value.mat == s.mat)
    requires st.first.None? ==> st.second.None?
    requires st.first.Some? ==> (st.first.value.id == x.id ==> st.first.value.mat == x.mat)
    requires st.second.Some? ==> (st.second.value.id == x.id ==> st.second.value.mat == x.mat)
    requires st.first.Some? && st.second.Some? ==>
               (st.first.value.id == st.second.value.id ==> st.first.value.mat == st.second.value.mat)
    ensures Explains(same, Step(same, st, s).value, x)
  {
  }

  /** If the scan does not give up, the two picked objects explain every visited sample. */
  lemma {:induction false} ScanExplains(same: Same, samples: seq<Sample>)
    requires Equivalence(same) && IdsDetermine(samples)
    requires Scan(same, samples).Some?
    ensures var st := Scan(same, samples).value;
            && (st.first.Some? ==> st.first.value in samples)
            && (st.second.Some? ==> st.first.Some? && st.second.value in samples)
            && forall i :: 0 <= i < |samples| ==> Explains(same, st, samples[i])
  {
    if |samples| > 0 {
      var n := |samples| - 1;
      var init, s := samples[..n], samples[n];
      ScanExplains(same, init);
      var st, st' := Scan(same, init).value, Scan(same, samples).value;
      forall i | 0 <= i < |samples| ensures Explains(same, st', samples[i]) {
        assert i < n ==> samples[i] == init[i];
        StepExplains(same, samples, st, s, samples[i]);
      }
    }
  }

  /** The claim in its plain form: no third material was seen. */
  lemma ScanSound(same: Same, samples: seq<Sample>)
    requires Equivalence(same) && IdsDetermine(samples)
    requires Scan(same, samples).Some? && |samples| > 0
    ensures var st := Scan(same, samples).value;
            && st.first.Some?
            && forall i :: 0 <= i < |samples| ==>
                 same(st.first.value.mat, samples[i].mat)
                 || (st.second.Some? && same(st.second.value.mat, samples[i].mat))
  {
    ScanExplains(same, samples);
    var st := Scan(same, samples).value;
    assert Explains(same, st, samples[0]);
    forall i | 0 <= i < |samples|
      ensures same(st.first.value.mat, samples[i].mat)
              || (st.second.Some? && same(st.second.value.mat, samples[i].mat))
    {
      assert Explains(same, st, samples[i]);
    }
  }

  // ----- when the scan succeeds

  predicate OtherImage(x: Sample, y: Sample) { x.id != y.id || x.shift != y.shift }

  /** All samples below the largest id share one material. */
  ghost predicate Analysable(same: Same, samples: seq<Sample>) {
    forall x, y, z :: x in samples && y in samples && z in samples && x.id < z.id && y.id < z.id
      ==> same(x.mat, y.mat)
  }

  /** An object that is met in several periodic images has the lowest id of all. */
  ghost predicate RepeatsAreLowest(samples: seq<Sample>) {
    forall x, y, z :: x in samples && y in samples && z in samples && x.id == y.id && x.shift != y.shift
      ==> x.id <= z.id
  }

  ghost predicate MaterialsAgree(x: Sample, y: Sample) { x.id == y.id ==> x.mat == y.mat }

  lemma MembersAgree(samples: seq<Sample>, x: Sample, y: Sample)
    requires IdsDetermine(samples) && x in samples && y in samples
    ensures MaterialsAgree(x, y)
  {
  }

  ghost predicate Subset(t: seq<Sample>, samples: seq<Sample>) { forall x :: x in t ==> x in samples }

  /** The conditions are about the set of samples only. */
  ghost predicate Separable(same: Same, samples: seq<Sample>) {
    IdsDetermine(samples) && Analysable(same, samples) && RepeatsAreLowest(samples)
  }

  lemma SubsetSeparable(same: Same, samples: seq<Sample>, t: seq<Sample>)
    requires Separable(same, samples) && Subset(t, samples)
    ensures Separable(same, t)
  {
    assert IdsDetermine(t) by {
      hide Analysable, RepeatsAreLowest;
      forall i, j | 0 <= i < |t| && 0 <= j < |t| && t[i].id == t[j].id ensures t[i].mat == t[j].mat {
        MembersAgree(samples, t[i], t[j]);
      }
    }
    hide IdsDetermine;
  }

  /** Three images of which no two are below the third with different materials, nor two of one
      object above the third, pass the loop body. */
  lemma TriplePasses(same: Same, a: Sample, b: Sample, s: Sample)
    requires Equivalence(same) && Separable(same, [a, b, s])
    requires OtherImage(a, b) && OtherImage(a, s) && OtherImage(b, s)
    ensures Step(same, Pair(Some(a), Some(b)), s).Some?
  {
    var t := [a, b, s];
    assert t[0] == a && t[1] == b && t[2] == s;
    assert a in t && b in t && s in t;
  }

  /** The two objects picked so far are different images of samples seen. */
  ghost predicate Picks(samples: seq<Sample>, st: Pair) {
    && (st.first.None? ==> st.second.None?)
    && (st.first.Some? ==> st.first.value in samples)
    && (st.second.Some? ==> st.second.value in samples && OtherImage(st.first.value, st.second.value))
  }

  lemma StepSucceeds(same: Same, samples: seq<Sample>, st: Pair, s: Sample)
    requires Equivalence(same) && Separable(same, samples) && Picks(samples, st) && s in samples
    ensures Step(same, st, s).Some? && Picks(samples, Step(same, st, s).value)
  {
    hide Equivalence, Separable;
    if st.second.Some? && !SameImage(s, st.first) && !SameImage(s, st.second) {
      var a, b := st.first.value, st.second.value;
      var t := [a, b, s];
      SubsetSeparable(same, samples, t);
      TriplePasses(same, a, b, s);
    }
  }

  lemma {:induction false} SeparableSucceeds(same: Same, samples: seq<Sample>)
    requires Equivalence(same) && Separable(same, samples)
    ensures var r := Scan(same, samples); r.Some? && Picks(samples, r.value)
  {
    hide Equivalence, Separable, Step;
    if |samples| > 0 {
      var n := |samples| - 1;
      SubsetSeparable(same, samples, samples[..n]);
      SeparableSucceeds(same, samples[..n]);
      StepSucceeds(same, samples, Scan(same, samples[..n]).value, samples[n]);
    }
  }

  lemma ToFront(samples: seq<Sample>, x: Sample) returns (rest: seq<Sample>)
    requires x in samples
    ensures multiset([x] + rest) == multiset(samples)
  {
    var i :| 0 <= i < |samples| && samples[i] == x;
    rest := samples[..i] + samples[i + 1..];
    assert samples == samples[..i] + [x] + samples[i + 1..];
  }

  lemma ThreeScan(same: Same, x: Sample, y: Sample, z: Sample)
    requires OtherImage(x, y) && Step(same, Pair(Some(x), Some(y)), z).None?
    ensures Scan(same, [x, y, z]).None?
  {
    assert [x, y, z][..2] == [x, y] && [x, y][..1] == [x] && [x][..0] == [];
    assert Scan(same, [x]) == Some(Pair(Some(x), None));
    assert Scan(same, [x, y]) == Some(Pair(Some(x), Some(y)));
  }

  lemma ThreeToFront(samples: seq<Sample>, x: Sample, y: Sample, z: Sample) returns (rest: seq<Sample>)
    requires x in samples && y in samples && z in samples
    requires x != y && x != z && y != z
    ensures multiset([x, y, z] + rest) == multiset(samples)
  {
    var r := ToFront(samples, x);
    StaysIn(samples, x, r, y);
    StaysIn(samples, x, r, z);
    var r' := ToFront(r, y);
    StaysIn(r, y, r', z);
    rest := ToFront(r', z);
    assert [x, y, z] + rest == [x] + ([y] + ([z] + rest));
    MultisetCons(x, [y] + ([z] + rest));
    MultisetCons(y, [z] + rest);
    MultisetCons(x, r);
    MultisetCons(y, r');
  }

  lemma MultisetCons(x: Sample, s: seq<Sample>)
    ensures multiset([x] + s) == multiset{x} + multiset(s)
  {
  }

  lemma StaysIn(samples: seq<Sample>, x: Sample, rest: seq<Sample>, y: Sample)
    requires multiset([x] + rest) == multiset(samples)
    requires y in samples && y != x
    ensures y in rest
  {
    assert y in multiset(samples);
    MultisetCons(x, rest);
  }

  /** Two materials below a third image, or two images of one object above another, in that order. */
  lemma BadTriple(same: Same, x: Sample, y: Sample, z: Sample)
    requires (y.id < x.id && z.id < x.id && !same(y.mat, z.mat) && y.id != z.id)
          || (x.id == y.id && x.shift != y.shift && z.id < x.id)
    ensures Step(same, Pair(Some(x), Some(y)), z).None?
  {
  }

  /** Some order of any other sample set makes the scan give up. */
  lemma SomeOrderFails(same: Same, samples: seq<Sample>) returns (t: seq<Sample>)
    requires Equivalence(same) && IdsDetermine(samples) && !Separable(same, samples)
    ensures multiset(t) == multiset(samples) && Scan(same, t).None?
  {
    if !Analysable(same, samples) {
      t := MaterialsFail(same, samples);
    } else {
      t := RepeatsFail(same, samples);
    }
  }

  lemma MaterialsFail(same: Same, samples: seq<Sample>) returns (t: seq<Sample>)
    requires Equivalence(same) && IdsDetermine(samples) && !Analysable(same, samples)
    ensures multiset(t) == multiset(samples) && Scan(same, t).None?
  {
    var x, y, z :| x in samples && y in samples && z in samples && x.id < z.id && y.id < z.id && !same(x.mat, y.mat);
    hide Scan, IdsDetermine, Analysable, Step, Equivalence;
    MembersAgree(samples, x, y);
    Reflexive(same, x.mat);
    BadTriple(same, z, x, y);
    t := OrderThatFails(same, samples, z, x, y);
  }

  lemma Reflexive(same: Same, m: Material)
    requires Equivalence(same)
    ensures same(m, m)
  {
  }

  lemma RepeatsFail(same: Same, samples: seq<Sample>) returns (t: seq<Sample>)
    requires Equivalence(same) && !RepeatsAreLowest(samples)
    ensures multiset(t) == multiset(samples) && Scan(same, t).None?
  {
    var x, y, z :| x in samples && y in samples && z in samples && x.id == y.id && x.shift != y.shift && z.id < x.id;
    hide Scan, RepeatsAreLowest, Step;
    BadTriple(same, x, y, z);
    t := OrderThatFails(same, samples, x, y, z);
  }

  lemma OrderThatFails(same: Same, samples: seq<Sample>, x: Sample, y: Sample, z: Sample) returns (t: seq<Sample>)
    requires x in samples && y in samples && z in samples && x != y && x != z && y != z
    requires OtherImage(x, y) && Step(same, Pair(Some(x), Some(y)), z).None?
    ensures multiset(t) == multiset(samples) && Scan(same, t).None?
  {
    hide Step, Scan;
    var rest := ThreeToFront(samples, x, y, z);
    t := [x, y, z] + rest;
    ThreeScan(same, x, y, z);
    assert t[..3] == [x, y, z];
    GivesUp(same, t, 3);
  }

  lemma PermutedSubset(samples: seq<Sample>, t: seq<Sample>)
    requires multiset(t) == multiset(samples)
    ensures Subset(t, samples)
  {
    forall x | x in t ensures x in samples {
      assert x in multiset(t);
    }
  }

  /** Whether the scan gives up can depend on the order of the neighbours. It succeeds in every order
      exactly when all samples below the largest id share one material and an object that is met in
      several periodic images has the lowest id. */
  lemma SucceedsInEveryOrder(same: Same, samples: seq<Sample>)
    requires Equivalence(same) && IdsDetermine(samples)
    ensures (forall t: seq<Sample> :: multiset(t) == multiset(samples) ==> Scan(same, t).Some?)
        <==> Analysable(same, samples) && RepeatsAreLowest(samples)
  {
    hide Scan, IdsDetermine, Analysable, RepeatsAreLowest, Equivalence, Subset;
    if Separable(same, samples) {
      forall t: seq<Sample> | multiset(t) == multiset(samples) ensures Scan(same, t).Some? {
        PermutedSubset(samples, t);
        SubsetSeparable(same, samples, t);
        SeparableSucceeds(same, t);
      }
    } else {
      var t := SomeOrderFails(same, samples);
    }
  }

  // ----- when no order succeeds

  /** All samples share a material, or all but one image do and that image is above one of them. */
  ghost predicate TwoMaterials(same: Same, samples: seq<Sample>) {
    || (forall x, y :: x in samples && y in samples ==> same(x.mat, y.mat))
    || exists a, b :: a in samples && b in samples && SetsApart(same, samples, a, b)
  }

  ghost predicate SetsApart(same: Same, samples: seq<Sample>, a: Sample, b: Sample) {
    b.id < a.id && forall x :: x in samples ==> SameImage(x, Some(a)) || same(b.mat, x.mat)
  }

  /** With a in front and b after it, the pair stays as it is. */
  lemma {:induction false} PairStays(same: Same, t: seq<Sample>, a: Sample, b: Sample)
    requires |t| >= 2 && t[0] == a && t[1] == b && !same(a.mat, b.mat) && SetsApart(same, t, a, b)
    ensures Scan(same, t) == Some(Pair(Some(a), Some(b)))
  {
    var n := |t| - 1;
    if n == 1 {
      assert t[..1] == [a] && [a][..0] == [];
      assert Scan(same, [a]) == Some(Pair(Some(a), None));
    } else {
      PairStays(same, t[..n], a, b);
      assert t[n] in t;
    }
  }

  /** The first sample has the lowest id of all. */
  ghost predicate StartsLowest(t: seq<Sample>) { forall i :: 0 <= i < |t| ==> t[0].id <= t[i].id }

  lemma {:induction false} OneMaterialScans(same: Same, t: seq<Sample>)
    requires |t| > 0 && StartsLowest(t)
    requires forall x, y :: x in t && y in t ==> same(x.mat, y.mat)
    ensures var r := Scan(same, t);
            && r.Some? && r.value.first == Some(t[0])
            && (r.value.second.Some? ==> r.value.second.value in t)
  {
    var n := |t| - 1;
    if n == 0 {
      assert t[..0] == [];
    } else {
      OneMaterialScans(same, t[..n]);
      var st, s := Scan(same, t[..n]).value, t[n];
      assert t[0] in t && s in t;
      assert t[0].id <= s.id;
    }
  }

  lemma {:induction false} LowestOf(samples: seq<Sample>) returns (x: Sample)
    requires |samples| > 0
    ensures x in samples && forall y :: y in samples ==> x.id <= y.id
  {
    var n := |samples| - 1;
    assert samples[n] in samples;
    if n == 0 {
      x := samples[0];
    } else {
      x := LowestOf(samples[..n]);
      assert samples == samples[..n] + [samples[n]];
      if samples[n].id < x.id {
        x := samples[n];
      }
    }
  }

  lemma OneMaterialOrder(same: Same, samples: seq<Sample>) returns (t: seq<Sample>)
    requires forall x, y :: x in samples && y in samples ==> same(x.mat, y.mat)
    ensures multiset(t) == multiset(samples) && Scan(same, t).Some?
  {
    hide Step;
    if |samples| == 0 {
      t := samples;
    } else {
      var x := LowestOf(samples);
      var rest := ToFront(samples, x);
      t := [x] + rest;
      PermutedSubset(samples, t);
      assert forall i :: 0 <= i < |t| ==> t[i] in t;
      OneMaterialScans(same, t);
    }
  }

  lemma PairOrder(same: Same, samples: seq<Sample>, a: Sample, b: Sample) returns (t: seq<Sample>)
    requires a in samples && b in samples && SetsApart(same, samples, a, b) && !same(a.mat, b.mat)
    ensures multiset(t) == multiset(samples) && Scan(same, t).Some?
  {
    hide Scan;
    var r := ToFront(samples, a);
    StaysIn(samples, a, r, b);
    var rest := ToFront(r, b);
    t := [a] + ([b] + rest);
    MultisetCons(a, [b] + rest);
    MultisetCons(a, r);
    PermutedSubset(samples, t);
    PairStays(same, t, a, b);
  }

  /** Some order succeeds exactly for two materials, one of them that of a single image which is
      above a sample of the other. */
  lemma SucceedsInSomeOrder(same: Same, samples: seq<Sample>)
    requires Equivalence(same) && IdsDetermine(samples)
    ensures (exists t: seq<Sample> :: multiset(t) == multiset(samples) && Scan(same, t).Some?) <==> TwoMaterials(same, samples)
  {
    hide Scan, IdsDetermine;
    if t: seq<Sample> :| multiset(t) == multiset(samples) && Scan(same, t).Some? {
      OrderIsExplained(same, samples, t);
    }
    if TwoMaterials(same, samples) {
      if forall x, y :: x in samples && y in samples ==> same(x.mat, y.mat) {
        var t := OneMaterialOrder(same, samples);
      } else {
        var a, b :| a in samples && b in samples && SetsApart(same, samples, a, b);
        NotAlike(same, samples, a, b);
        var t := PairOrder(same, samples, a, b);
      }
    }
  }

  /** If the two materials were the same, all would be. */
  lemma NotAlike(same: Same, samples: seq<Sample>, a: Sample, b: Sample)
    requires Equivalence(same) && IdsDetermine(samples)
    requires a in samples && b in samples && SetsApart(same, samples, a, b)
    requires !(forall x, y :: x in samples && y in samples ==> same(x.mat, y.mat))
    ensures !same(a.mat, b.mat)
  {
    var x, y :| x in samples && y in samples && !same(x.mat, y.mat);
    if same(a.mat, b.mat) {
      LikeLower(same, samples, a, b, x);
      LikeLower(same, samples, a, b, y);
      assert false;
    }
  }

  lemma LikeLower(same: Same, samples: seq<Sample>, a: Sample, b: Sample, x: Sample)
    requires Equivalence(same) && IdsDetermine(samples) && same(a.mat, b.mat)
    requires a in samples && b in samples && x in samples && SetsApart(same, samples, a, b)
    ensures same(b.mat, x.mat)
  {
    MembersAgree(samples, x, a);
  }

  lemma OrderIsExplained(same: Same, samples: seq<Sample>, t: seq<Sample>)
    requires Equivalence(same) && IdsDetermine(samples)
    requires multiset(t) == multiset(samples) && Scan(same, t).Some?
    ensures TwoMaterials(same, samples)
  {
    hide Scan, IdsDetermine;
    PermutedSubset(samples, t);
    PermutedSubset(t, samples);
    assert IdsDetermine(t) by { SubsetDetermines(samples, t); }
    ScanExplains(same, t);
    var st := Scan(same, t).value;
    forall x | x in samples ensures Explains(same, st, x) {
      assert x in t;
    }
    ExplainedIsTwo(same, samples, st);
  }

  lemma SubsetDetermines(samples: seq<Sample>, t: seq<Sample>)
    requires IdsDetermine(samples) && Subset(t, samples)
    ensures IdsDetermine(t)
  {
    forall i, j | 0 <= i < |t| && 0 <= j < |t| && t[i].id == t[j].id ensures t[i].mat == t[j].mat {
      MembersAgree(samples, t[i], t[j]);
    }
  }

  lemma ExplainedIsTwo(same: Same, samples: seq<Sample>, st: Pair)
    requires Equivalence(same) && IdsDetermine(samples)
    requires st.first.Some? ==> st.first.value in samples
    requires st.second.Some? ==> st.first.Some? && st.second.value in samples
    requires forall x :: x in samples ==> Explains(same, st, x)
    ensures TwoMaterials(same, samples)
  {
    hide IdsDetermine;
    if st.second.Some? && st.first.value.id > st.second.value.id {
      assert SetsApart(same, samples, st.first.value, st.second.value);
    } else if st.second.Some? && st.first.value.id < st.second.value.id {
      assert SetsApart(same, samples, st.second.value, st.first.value);
    } else if samples != [] {
      forall x, y | x in samples && y in samples ensures same(x.mat, y.mat) {
        assert Explains(same, st, x) && Explains(same, st, y);
        Reflexive(same, x.mat);
        MembersAgree(samples, x, y);
      }
    }
  }

  /** Whether the scan gives up depends on the order exactly for samples that some order explains and
      some order does not. */
  lemma OrderMattersIff(same: Same, samples: seq<Sample>)
    requires Equivalence(same) && IdsDetermine(samples)
    ensures (exists t, u: seq<Sample> :: multiset(t) == multiset(u) == multiset(samples) && Scan(same, t).Some? && Scan(same, u).None?)
        <==> TwoMaterials(same, samples) && !(Analysable(same, samples) && RepeatsAreLowest(samples))
  {
    hide Scan, IdsDetermine, Equivalence, TwoMaterials, Analysable, RepeatsAreLowest;
    SucceedsInSomeOrder(same, samples);
    SucceedsInEveryOrder(same, samples);
  }

  /** Such samples: materials A and B in the order of the ids 1, 2 and A again with id 3. */
  lemma OrderMatters(a: Material, b: Material, same: Same)
    requires Equivalence(same) && !same(a, b)
    ensures var x, y, z := Sample(None, Zero3, 1, a), Sample(None, Zero3, 2, b), Sample(None, Zero3, 3, a);
            Scan(same, [x, y, z]).Some? && Scan(same, [z, x, y]).None?
  {
    var x, y, z := Sample(None, Zero3, 1, a), Sample(None, Zero3, 2, b), Sample(None, Zero3, 3, a);
    assert [x, y, z][..2] == [x, y] && [x, y][..1] == [x] && [x][..0] == [];
    assert Scan(same, [x]) == Some(Pair(Some(x), None));
    assert Scan(same, [x, y]) == Some(Pair(Some(x), Some(y)));
    ThreeScan(same, z, x, y);
  }
}
