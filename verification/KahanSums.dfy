// Neumaier-compensated summation over an explicit rounding function. With the identity as rounding
// it is the exact sum the aggregate algebra uses; with round-to-nearest its drift is bounded.
module KahanSums {
  import opened Prelude

  datatype Kahan = Kahan(sum: real, comp: real)

  function Abs(x: real): real {
    if x < 0.0 then -x else x
  }

  /** The rounding error of `k.sum + v`, recovered from the larger operand. */
  function Recovered(fl: real -> real, sum: real, v: real): real {
    var t := fl(sum + v);
    if Abs(sum) >= Abs(v) then fl(fl(sum - t) + v) else fl(fl(v - t) + sum)
  }

  function Added(fl: real -> real, k: Kahan, v: real): Kahan {
    Kahan(fl(k.sum + v), fl(k.comp + Recovered(fl, k.sum, v)))
  }

  function Merged(fl: real -> real, a: Kahan, b: Kahan): Kahan {
    var c := Added(fl, a, b.sum);
    Kahan(c.sum, fl(c.comp + b.comp))
  }

  function TotalOf(fl: real -> real, k: Kahan): real {
    fl(k.sum + k.comp)
  }

  /** A running compensated sum, updated in place. */
  class KahanSum {
    const fl: real -> real
    var sum: real
    var comp: real

    function Contents(): Kahan
      reads this
    {
      Kahan(sum, comp)
    }

    constructor (fl: real -> real)
      ensures this.fl == fl && Contents() == Kahan(0.0, 0.0)
    {
      this.fl := fl;
      sum, comp := 0.0, 0.0;
    }

    method Add(v: real)
      modifies this
      ensures Contents() == Added(fl, old(Contents()), v)
    {
      hide Abs;
      var t := fl(sum + v);
      var e;
      if Abs(sum) >= Abs(v) {
        e := fl(fl(sum - t) + v);
      } else {
        e := fl(fl(v - t) + sum);
      }
      assert e == Recovered(fl, sum, v);
      hide Recovered;
      comp := fl(comp + e);
      sum := t;
    }

    function Total(): real
      reads this
    {
      TotalOf(fl, Contents())
    }

    method Merge(other: Kahan)
      modifies this
      ensures Contents() == Merged(fl, old(Contents()), other)
    {
      Add(other.sum);
      comp := fl(comp + other.comp);
    }
  }

  // ----- what is assumed of the arithmetic: section 4.3.1 of IEEE 754-2019, without overflow -----

  ghost predicate Close(fl: real -> real, u: real, a: real, b: real) {
    Abs(fl(a + b) - (a + b)) <= u * Abs(a + b)
  }

  /** The two-sum step loses nothing when the first operand is the larger one. */
  ghost predicate TwoSumExact(fl: real -> real, a: real, b: real) {
    Abs(a) >= Abs(b) ==> fl(fl(a - fl(a + b)) + b) == (a + b) - fl(a + b)
  }

  ghost predicate RoundsToNearest(fl: real -> real, isFloat: real -> bool, u: real) {
    && u >= 0.0 && isFloat(0.0)
    && (forall x :: isFloat(fl(x)))
    && (forall a, b :: isFloat(a) && isFloat(b) ==> Close(fl, u, a, b))
    && (forall a, b :: isFloat(a) && isFloat(b) ==> TwoSumExact(fl, a, b))
  }

  // ----- any tree of add and merge calls -----

  datatype Calls = Fresh | Add(before: Calls, v: real) | Merge(into: Calls, other: Calls)

  ghost function Run(fl: real -> real, c: Calls): Kahan {
    match c
    case Fresh => Kahan(0.0, 0.0)
    case Add(before, v) => Added(fl, Run(fl, before), v)
    case Merge(into, other) => Merged(fl, Run(fl, into), Run(fl, other))
  }

  /** The true total of every value added anywhere in the tree. */
  ghost function Exact(c: Calls): real {
    match c
    case Fresh => 0.0
    case Add(before, v) => Exact(before) + v
    case Merge(into, other) => Exact(into) + Exact(other)
  }

  ghost function AddUpdate(fl: real -> real, k: Kahan, v: real): real {
    Abs(k.comp + Recovered(fl, k.sum, v))
  }

  /** A merge updates the compensation twice: adding the other sum, then the other compensation. */
  ghost function MergeUpdates(fl: real -> real, k: Kahan, o: Kahan): real {
    AddUpdate(fl, k, o.sum) + Abs(Added(fl, k, o.sum).comp + o.comp)
  }

  /** The summed magnitudes of the compensation updates made in the tree. */
  ghost function Updates(fl: real -> real, c: Calls): real {
    match c
    case Fresh => 0.0
    case Add(before, v) => Updates(fl, before) + AddUpdate(fl, Run(fl, before), v)
    case Merge(into, other) => Updates(fl, into) + Updates(fl, other) + MergeUpdates(fl, Run(fl, into), Run(fl, other))
  }

  ghost predicate Floats(isFloat: real -> bool, c: Calls) {
    match c
    case Fresh => true
    case Add(before, v) => Floats(isFloat, before) && isFloat(v)
    case Merge(into, other) => Floats(isFloat, into) && Floats(isFloat, other)
  }

  lemma RecoveredIsExact(fl: real -> real, isFloat: real -> bool, u: real, sum: real, v: real)
    requires RoundsToNearest(fl, isFloat, u) && isFloat(sum) && isFloat(v)
    ensures Recovered(fl, sum, v) == (sum + v) - fl(sum + v)
    ensures isFloat(Recovered(fl, sum, v)) && isFloat(fl(sum + v))
  {
    assert TwoSumExact(fl, sum, v) && TwoSumExact(fl, v, sum);
    assert sum + v == v + sum;
  }

  lemma RoundsClose(fl: real -> real, isFloat: real -> bool, u: real, a: real, b: real)
    requires RoundsToNearest(fl, isFloat, u) && isFloat(a) && isFloat(b)
    ensures Close(fl, u, a, b) && isFloat(fl(a + b))
  {}

  /** `got` is within u times `budget` of `want`. */
  ghost predicate Drifts(got: real, want: real, u: real, budget: real) {
    Abs(got - want) <= u * budget
  }

  /** Errors add up when the budgets they are charged to do. */
  lemma Accumulate(u: real, total: real, exact: real, a: real, total': real, v: real, b: real)
    requires Drifts(total, exact, u, a) && Drifts(total', total + v, u, b)
    ensures Drifts(total', exact + v, u, a + b)
  {
    assert u * (a + b) == u * a + u * b;
  }

  lemma AccumulateMerge(u: real, tk: real, ek: real, a: real, to: real, eo: real, b: real, total: real, x: real)
    requires Drifts(tk, ek, u, a) && Drifts(to, eo, u, b) && Drifts(total, tk + to, u, x)
    ensures Drifts(total, ek + eo, u, a + b + x)
  {
    assert u * (a + b + x) == u * a + u * b + u * x;
  }

  /** One `add` moves the represented total off the exact one by at most u times the update. */
  lemma AddDrift(fl: real -> real, isFloat: real -> bool, u: real, k: Kahan, v: real)
    requires RoundsToNearest(fl, isFloat, u)
    requires isFloat(k.sum) && isFloat(k.comp) && isFloat(v)
    ensures var r := Added(fl, k, v);
      && isFloat(r.sum) && isFloat(r.comp)
      && Drifts(r.sum + r.comp, k.sum + k.comp + v, u, AddUpdate(fl, k, v))
  {
    hide RoundsToNearest, Recovered;
    RecoveredIsExact(fl, isFloat, u, k.sum, v);
    var e := Recovered(fl, k.sum, v);
    RoundsClose(fl, isFloat, u, k.comp, e);
    assert (fl(k.sum + v) + fl(k.comp + e)) - (k.sum + k.comp + v) == fl(k.comp + e) - (k.comp + e);
  }

  lemma MergeDrift(fl: real -> real, isFloat: real -> bool, u: real, k: Kahan, o: Kahan)
    requires RoundsToNearest(fl, isFloat, u)
    requires isFloat(k.sum) && isFloat(k.comp) && isFloat(o.sum) && isFloat(o.comp)
    ensures var r := Merged(fl, k, o);
      && isFloat(r.sum) && isFloat(r.comp)
      && Drifts(r.sum + r.comp, k.sum + k.comp + (o.sum + o.comp), u, MergeUpdates(fl, k, o))
  {
    hide RoundsToNearest, Recovered, Added;
    AddDrift(fl, isFloat, u, k, o.sum);
    var c := Added(fl, k, o.sum);
    RoundsClose(fl, isFloat, u, c.comp, o.comp);
    Accumulate(u, c.sum + c.comp, k.sum + k.comp + o.sum, AddUpdate(fl, k, o.sum),
               c.sum + fl(c.comp + o.comp), o.comp, Abs(c.comp + o.comp));
  }

  /** `k` represents `exact` up to u times `updates`. */
  ghost predicate Tracks(isFloat: real -> bool, u: real, k: Kahan, exact: real, updates: real) {
    isFloat(k.sum) && isFloat(k.comp) && Drifts(k.sum + k.comp, exact, u, updates)
  }

  lemma FreshTracks(fl: real -> real, isFloat: real -> bool, u: real)
    requires RoundsToNearest(fl, isFloat, u)
    ensures Tracks(isFloat, u, Kahan(0.0, 0.0), 0.0, 0.0)
  {}

  lemma AddTracks(fl: real -> real, isFloat: real -> bool, u: real, k: Kahan, exact: real, updates: real, v: real)
    requires RoundsToNearest(fl, isFloat, u) && Tracks(isFloat, u, k, exact, updates) && isFloat(v)
    ensures Tracks(isFloat, u, Added(fl, k, v), exact + v, updates + AddUpdate(fl, k, v))
  {
    hide RoundsToNearest, Added, AddUpdate, Drifts;
    AddDrift(fl, isFloat, u, k, v);
    var r := Added(fl, k, v);
    Accumulate(u, k.sum + k.comp, exact, updates, r.sum + r.comp, v, AddUpdate(fl, k, v));
  }

  lemma MergeTracks(fl: real -> real, isFloat: real -> bool, u: real,
                    k: Kahan, exact: real, updates: real, o: Kahan, exact': real, updates': real)
    requires RoundsToNearest(fl, isFloat, u)
    requires Tracks(isFloat, u, k, exact, updates) && Tracks(isFloat, u, o, exact', updates')
    ensures Tracks(isFloat, u, Merged(fl, k, o), exact + exact', updates + updates' + MergeUpdates(fl, k, o))
  {
    hide RoundsToNearest, Merged, MergeUpdates, Drifts;
    MergeDrift(fl, isFloat, u, k, o);
    var r := Merged(fl, k, o);
    AccumulateMerge(u, k.sum + k.comp, exact, updates, o.sum + o.comp, exact', updates',
                    r.sum + r.comp, MergeUpdates(fl, k, o));
  }

  /** After any tree of `add` and `merge` calls, sum + comp differs from the exact total by at most
      u times the summed magnitudes of the compensation updates. */
  lemma {:induction false} Drift(fl: real -> real, isFloat: real -> bool, u: real, c: Calls)
    requires RoundsToNearest(fl, isFloat, u) && Floats(isFloat, c)
    ensures Tracks(isFloat, u, Run(fl, c), Exact(c), Updates(fl, c))
  {
    hide RoundsToNearest, Tracks, Added, Merged, AddUpdate, MergeUpdates;
    match c
    case Fresh => FreshTracks(fl, isFloat, u);
    case Add(before, v) =>
      Drift(fl, isFloat, u, before);
      AddTracks(fl, isFloat, u, Run(fl, before), Exact(before), Updates(fl, before), v);
    case Merge(into, other) =>
      Drift(fl, isFloat, u, into);
      Drift(fl, isFloat, u, other);
      MergeTracks(fl, isFloat, u, Run(fl, into), Exact(into), Updates(fl, into),
                  Run(fl, other), Exact(other), Updates(fl, other));
  }

  lemma CloseDrifts(fl: real -> real, u: real, k: Kahan)
    requires Close(fl, u, k.sum, k.comp)
    ensures Drifts(TotalOf(fl, k), k.sum + k.comp + 0.0, u, Abs(k.sum + k.comp))
  {}

  /** The total read at the end adds one rounding of sum + comp to that. */
  lemma TotalDrift(fl: real -> real, isFloat: real -> bool, u: real, c: Calls)
    requires RoundsToNearest(fl, isFloat, u) && Floats(isFloat, c)
    ensures var k := Run(fl, c);
      Drifts(TotalOf(fl, k), Exact(c), u, Updates(fl, c) + Abs(k.sum + k.comp))
  {
    hide Run, Exact, Updates, RoundsToNearest, Abs, Drifts, Close;
    Drift(fl, isFloat, u, c);
    var k := Run(fl, c);
    RoundsClose(fl, isFloat, u, k.sum, k.comp);
    CloseDrifts(fl, u, k);
    Accumulate(u, k.sum + k.comp, Exact(c), Updates(fl, c), TotalOf(fl, k), 0.0, Abs(k.sum + k.comp));
  }

  // ----- where grouping and order do not matter -----

  /** The values added anywhere in the tree. */
  ghost function Values(c: Calls): seq<real> {
    match c
    case Fresh => []
    case Add(before, v) => Values(before) + [v]
    case Merge(into, other) => Values(into) + Values(other)
  }

  /** No running sum in the tree is rounded. */
  ghost predicate Unrounded(fl: real -> real, c: Calls) {
    match c
    case Fresh => true
    case Add(before, v) => Unrounded(fl, before) && fl(Exact(c)) == Exact(c)
    case Merge(into, other) => Unrounded(fl, into) && Unrounded(fl, other) && fl(Exact(c)) == Exact(c)
  }

  /** Every sum in the tree is the exact one, without compensation. */
  ghost predicate ExactThroughout(fl: real -> real, c: Calls) {
    && Run(fl, c) == Kahan(Exact(c), 0.0)
    && match c
       case Fresh => true
       case Add(before, _) => ExactThroughout(fl, before)
       case Merge(into, other) => ExactThroughout(fl, into) && ExactThroughout(fl, other)
  }

  lemma ZeroIsExact(fl: real -> real, isFloat: real -> bool, u: real)
    requires RoundsToNearest(fl, isFloat, u)
    ensures fl(0.0) == 0.0 && fl(0.0 + 0.0) == 0.0
  {
    hide RoundsToNearest;
    assert isFloat(0.0) by { FreshTracks(fl, isFloat, u); }
    RoundsClose(fl, isFloat, u, 0.0, 0.0);
  }

  /** Adding to an exact sum keeps it exact if and only if the new sum is not rounded. */
  lemma ExactAdd(fl: real -> real, isFloat: real -> bool, u: real, sum: real, v: real)
    requires RoundsToNearest(fl, isFloat, u) && isFloat(sum) && isFloat(v)
    ensures fl(sum + v) == sum + v <==> Added(fl, Kahan(sum, 0.0), v) == Kahan(sum + v, 0.0)
    ensures fl(sum + v) == sum + v <==> Merged(fl, Kahan(sum, 0.0), Kahan(v, 0.0)) == Kahan(sum + v, 0.0)
  {
    hide RoundsToNearest, Recovered;
    RecoveredIsExact(fl, isFloat, u, sum, v);
    ZeroIsExact(fl, isFloat, u);
    var r := Added(fl, Kahan(sum, 0.0), v);
    assert r == Kahan(fl(sum + v), fl(0.0 + Recovered(fl, sum, v)));
    if fl(sum + v) == sum + v {
      assert 0.0 + Recovered(fl, sum, v) == 0.0;
      assert r == Kahan(sum + v, 0.0);
    }
    hide Added;
    assert Merged(fl, Kahan(sum, 0.0), Kahan(v, 0.0)) == Kahan(r.sum, fl(r.comp + 0.0));
  }

  /** Sums are exact throughout a tree if and only if none of them is rounded. */
  lemma {:induction false} UnroundedExact(fl: real -> real, isFloat: real -> bool, u: real, c: Calls)
    requires RoundsToNearest(fl, isFloat, u) && Floats(isFloat, c)
    ensures Unrounded(fl, c) <==> ExactThroughout(fl, c)
    ensures isFloat(Run(fl, c).sum)
  {
    hide RoundsToNearest, Added, Merged, Updates, Tracks;
    Drift(fl, isFloat, u, c);
    SumIsFloat(fl, isFloat, u, c);
    match c
    case Fresh =>
    case Add(before, v) =>
      UnroundedExact(fl, isFloat, u, before);
      if ExactThroughout(fl, before) { ExactAdd(fl, isFloat, u, Exact(before), v); }
    case Merge(into, other) =>
      UnroundedExact(fl, isFloat, u, into);
      UnroundedExact(fl, isFloat, u, other);
      if ExactThroughout(fl, into) && ExactThroughout(fl, other) {
        ExactAdd(fl, isFloat, u, Exact(into), Exact(other));
      }
  }

  lemma SumIsFloat(fl: real -> real, isFloat: real -> bool, u: real, c: Calls)
    requires RoundsToNearest(fl, isFloat, u) && Floats(isFloat, c)
    ensures isFloat(Run(fl, c).sum)
  {
    Drift(fl, isFloat, u, c);
  }

  ghost function SumOf(vs: seq<real>): real {
    if vs == [] then 0.0 else vs[0] + SumOf(vs[1..])
  }

  lemma {:induction false} SumConcat(a: seq<real>, b: seq<real>)
    ensures SumOf(a + b) == SumOf(a) + SumOf(b)
  {
    if a == [] {
      assert a + b == b;
    } else {
      assert (a + b)[1..] == a[1..] + b;
      SumConcat(a[1..], b);
    }
  }

  lemma {:induction false} SumPermute(a: seq<real>, b: seq<real>)
    requires multiset(a) == multiset(b)
    ensures SumOf(a) == SumOf(b)
  {
    if a == [] {
      assert |multiset(b)| == 0;
    } else {
      var i := PermutationStep(a, b);
      SumPermute(a[1..], b[..i] + b[i + 1..]);
      SumConcat(b[..i], b[i + 1..]);
      SumConcat(b[..i], b[i..]);
      assert b == b[..i] + b[i..] && b[i..][1..] == b[i + 1..];
    }
  }

  lemma {:induction false} ExactIsSum(c: Calls)
    ensures Exact(c) == SumOf(Values(c))
  {
    match c
    case Fresh =>
    case Add(before, v) =>
      ExactIsSum(before);
      SumConcat(Values(before), [v]);
    case Merge(into, other) =>
      ExactIsSum(into);
      ExactIsSum(other);
      SumConcat(Values(into), Values(other));
  }

  /** Two trees over the same values, in any order and grouping, neither rounding a running sum, end in
      the very same state. */
  lemma UnroundedAgree(fl: real -> real, isFloat: real -> bool, u: real, a: Calls, b: Calls)
    requires RoundsToNearest(fl, isFloat, u) && Floats(isFloat, a) && Floats(isFloat, b)
    requires Unrounded(fl, a) && Unrounded(fl, b) && multiset(Values(a)) == multiset(Values(b))
    ensures Run(fl, a) == Run(fl, b) == Kahan(Exact(a), 0.0)
  {
    hide RoundsToNearest, Run, Exact, Values, Unrounded, Floats;
    UnroundedExact(fl, isFloat, u, a);
    UnroundedExact(fl, isFloat, u, b);
    ExactIsSum(a);
    ExactIsSum(b);
    SumPermute(Values(a), Values(b));
  }

  // ----- where they do -----

  /** Three floats, and rounding to the one of the same sign. */
  predicate Unit(x: real) {
    x == -1.0 || x == 0.0 || x == 1.0
  }

  function Clip(x: real): real {
    if x < 0.0 then -1.0 else if x > 0.0 then 1.0 else 0.0
  }

  /** What is assumed of rounding also holds where rounding happens. */
  lemma ClipRounds()
    ensures RoundsToNearest(Clip, Unit, 0.5) && Clip(1.0 + 1.0) != 1.0 + 1.0
  {}

  function Single(v: real): Calls {
    Add(Fresh, v)
  }

  lemma SingleRun(v: real)
    requires Unit(v)
    ensures Run(Clip, Single(v)) == Kahan(v, 0.0)
  {}

  /** Merging is not associative to the bit: the same three values, grouped either way. */
  lemma GroupingChangesState()
    ensures var a, b, c := Single(1.0), Single(1.0), Single(-1.0);
      && Run(Clip, Merge(Merge(a, b), c)) == Kahan(0.0, 1.0)
      && Run(Clip, Merge(a, Merge(b, c))) == Kahan(1.0, 0.0)
  {
    SingleRun(1.0);
    SingleRun(-1.0);
    assert Merged(Clip, Kahan(1.0, 0.0), Kahan(1.0, 0.0)) == Kahan(1.0, 1.0);
    assert Merged(Clip, Kahan(1.0, 0.0), Kahan(-1.0, 0.0)) == Kahan(0.0, 0.0);
  }

  /** Nor is the total that is read at the end: the same five values in the same order. */
  lemma GroupingChangesTotal()
    ensures var a, b := Single(1.0), Single(-1.0);
      var left, right := Merge(Merge(Merge(Merge(a, a), a), b), b), Merge(a, Merge(a, Merge(a, Merge(b, b))));
      && Values(left) == Values(right)
      && TotalOf(Clip, Run(Clip, left)) == 0.0 && TotalOf(Clip, Run(Clip, right)) == 1.0
  {
    SingleRun(1.0);
    SingleRun(-1.0);
    ClipMerges();
    hide Merged, TotalOf, Single, Values;
    var a, b := Single(1.0), Single(-1.0);
    assert Run(Clip, Merge(Merge(Merge(a, a), a), b)) == Kahan(0.0, 1.0);
    assert Run(Clip, Merge(a, Merge(a, Merge(b, b)))) == Kahan(1.0, -1.0);
    hide Run;
    SameValues();
    ClipTotals();
  }

  lemma ClipMerges()
    ensures var x, y := Kahan(1.0, 0.0), Kahan(-1.0, 0.0);
      && Merged(Clip, x, x) == Merged(Clip, Kahan(1.0, 1.0), x) == Kahan(1.0, 1.0)
      && Merged(Clip, Kahan(1.0, 1.0), y) == Kahan(0.0, 1.0)
      && Merged(Clip, Kahan(0.0, 1.0), y) == Kahan(-1.0, 1.0)
      && Merged(Clip, y, y) == Kahan(-1.0, -1.0)
      && Merged(Clip, x, Kahan(-1.0, -1.0)) == Kahan(0.0, -1.0)
      && Merged(Clip, x, Kahan(0.0, -1.0)) == Kahan(1.0, -1.0)
      && Merged(Clip, x, Kahan(1.0, -1.0)) == Kahan(1.0, 0.0)
  {}

  lemma ClipTotals()
    ensures TotalOf(Clip, Kahan(-1.0, 1.0)) == 0.0 && TotalOf(Clip, Kahan(1.0, 0.0)) == 1.0
  {}

  lemma SameValues()
    ensures var a, b := Single(1.0), Single(-1.0);
      Values(Merge(Merge(Merge(Merge(a, a), a), b), b)) == Values(Merge(a, Merge(a, Merge(a, Merge(b, b)))))
  {
    var a, b := Single(1.0), Single(-1.0);
    assert Values(a) == [1.0] && Values(b) == [-1.0];
    assert Values(Merge(Merge(a, a), a)) == [1.0, 1.0, 1.0];
    assert Values(Merge(a, Merge(b, b))) == [1.0, -1.0, -1.0];
  }

  // ----- exact arithmetic -----

  function Identity(x: real): real { x }

  /** Arithmetic without rounding meets what is assumed of rounding, with u = 0. */
  lemma IdentityRounds()
    ensures RoundsToNearest(Identity, _ => true, 0.0)
  {}

  /** So without rounding any tree of `add` and `merge` calls totals exactly. */
  lemma ExactTotal(c: Calls)
    ensures TotalOf(Identity, Run(Identity, c)) == Exact(c)
  {
    IdentityRounds();
    AnyFloats(c);
    hide Run, Exact, Updates, RoundsToNearest, Floats;
    TotalDrift(Identity, _ => true, 0.0, c);
  }

  lemma {:induction false} AnyFloats(c: Calls)
    ensures Floats(_ => true, c)
  {
    match c
    case Fresh =>
    case Add(before, _) => AnyFloats(before);
    case Merge(into, other) => AnyFloats(into); AnyFloats(other);
  }
}
