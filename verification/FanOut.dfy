// The coordinator's window: tasks are pending, in flight or finished, any in-flight task may finish
// next, and a finished task's place is taken by the next pending one.
module FanOut {
  import opened Prelude

  /** Tasks from `next` on are pending; `slots` holds the outcomes of the finished ones. */
  datatype Fan<+T> = Fan(next: nat, inflight: set<nat>, slots: seq<Option<T>>)

  /** The naturals from `lo` up to, not including, `hi`. */
  function Interval(lo: nat, hi: nat): (s: set<nat>)
    ensures forall i :: i in s <==> lo <= i < hi
    ensures |s| == if lo < hi then hi - lo else 0
    decreases hi - lo
  {
    if lo < hi then {lo} + Interval(lo + 1, hi) else {}
  }

  function EmptySlots<T>(total: nat): (s: seq<Option<T>>)
    ensures |s| == total && forall i :: 0 <= i < total ==> s[i] == None
  {
    seq(total, _ => None)
  }

  function Start<T>(total: nat, width: nat): Fan<T> {
    Fan(MinInt(width, total), Interval(0, MinInt(width, total)), EmptySlots(total))
  }

  /** Task `i` finishes with `v`; keep the window full. */
  function Finish<T>(f: Fan<T>, i: nat, v: T): Fan<T>
    requires i in f.inflight && i < |f.slots|
  {
    if f.next < |f.slots|
    then Fan(f.next + 1, f.inflight - {i} + {f.next}, f.slots[i := Some(v)])
    else Fan(f.next, f.inflight - {i}, f.slots[i := Some(v)])
  }

  ghost function Unfinished<T>(f: Fan<T>): set<nat> {
    set i: nat | 0 <= i < |f.slots| && f.slots[i].None?
  }

  ghost function Pending<T>(f: Fan<T>): set<nat> {
    Interval(f.next, |f.slots|)
  }

  /** Every task is exactly one of pending, in flight or finished, and the number in flight is the
      window or what is left, whichever is smaller. */
  ghost predicate Conserved<T>(f: Fan<T>, width: nat) {
    && f.next <= |f.slots|
    && f.inflight !! Pending(f)
    && f.inflight + Pending(f) == Unfinished(f)
    && |f.inflight| == MinInt(width, |Unfinished(f)|)
  }

  lemma StartConserved<T>(total: nat, width: nat)
    ensures Conserved(Start<T>(total, width), width)
  {
    var f := Start<T>(total, width);
    assert Unfinished(f) == Interval(0, total);
    assert f.inflight + Pending(f) == Unfinished(f);
  }

  lemma FinishSets<T>(f: Fan<T>, i: nat, v: T)
    requires i in f.inflight && i < |f.slots| && f.next <= |f.slots|
    ensures Unfinished(Finish(f, i, v)) == Unfinished(f) - {i}
    ensures f.next < |f.slots| ==> f.next in Pending(f) && Pending(Finish(f, i, v)) == Pending(f) - {f.next}
    ensures f.next == |f.slots| ==> Pending(f) == {} && Pending(Finish(f, i, v)) == {}
  {}

  /** Swapping a finished member of a full window for a pending one keeps it full. */
  lemma Swap(window: set<nat>, pending: set<nat>, width: nat, i: nat, x: nat)
    requires window !! pending && i in window && x in pending
    requires |window| == MinInt(width, |window + pending|)
    ensures var window', pending' := window - {i} + {x}, pending - {x};
      && window' !! pending'
      && window' + pending' == window + pending - {i}
      && |window'| == MinInt(width, |window' + pending'|)
  {
    var window', pending' := window - {i} + {x}, pending - {x};
    assert |window'| == |window|;
    assert |window + pending| == |window| + |pending|;
    assert |window' + pending'| == |window'| + |pending'|;
    assert |pending'| == |pending| - 1;
  }

  /** Finishing a task that is in flight keeps every task accounted for. */
  lemma FinishConserved<T>(f: Fan<T>, width: nat, i: nat, v: T)
    requires Conserved(f, width) && i in f.inflight
    ensures i < |f.slots| && f.slots[i].None? && i < f.next <= |f.slots|
    ensures Conserved(Finish(f, i, v), width)
    ensures Unfinished(Finish(f, i, v)) == Unfinished(f) - {i}
  {
    assert i in Unfinished(f);
    assert i !in Pending(f);
    FinishSets(f, i, v);
    hide Unfinished, Pending;
    if f.next < |f.slots| {
      Swap(f.inflight, Pending(f), width, i, f.next);
    }
  }

  /** When nothing is in flight every slot is filled, so no outcome can be dropped. */
  lemma DrainedIsComplete<T>(f: Fan<T>, width: nat)
    requires Conserved(f, width) && width > 0 && f.inflight == {}
    ensures forall i :: 0 <= i < |f.slots| ==> f.slots[i].Some?
  {
    assert Unfinished(f) == {};
    forall i | 0 <= i < |f.slots| ensures f.slots[i].Some? {
      assert i !in Unfinished(f);
    }
  }

  // ----- whole runs -----

  /** A history of the window from the start, one finished task per step, in any order. */
  ghost predicate History<T(!new)>(fs: seq<Fan<T>>, total: nat, width: nat) {
    && fs != [] && fs[0] == Start(total, width)
    && forall n :: 0 <= n < |fs| - 1 ==> Step(fs[n], fs[n + 1])
  }

  ghost predicate Step<T(!new)>(f: Fan<T>, g: Fan<T>) {
    exists i: nat, v :: i in f.inflight && i < |f.slots| && g == Finish(f, i, v)
  }

  /** In every reachable state tasks are conserved and each step has finished exactly one of them, so
      a run is at most one step per task long. */
  lemma {:induction false} HistoryConserved<T(!new)>(fs: seq<Fan<T>>, total: nat, width: nat)
    requires History(fs, total, width)
    ensures var f := fs[|fs| - 1];
      && Conserved(f, width) && |f.slots| == total
      && |Unfinished(f)| == total - (|fs| - 1)
  {
    if |fs| == 1 {
      StartConserved<T>(total, width);
      assert Unfinished(fs[0]) == Interval(0, total);
    } else {
      var n := |fs| - 2;
      HistoryConserved(fs[..n + 1], total, width);
      assert Step(fs[n], fs[n + 1]);
      var i: nat, v :| i in fs[n].inflight && i < |fs[n].slots| && fs[n + 1] == Finish(fs[n], i, v);
      FinishConserved(fs[n], width, i, v);
      assert i in Unfinished(fs[n]);
    }
  }

  // ----- the orders in which tasks can finish -----

  /** Distinct tasks, the n-th of them among the first n and the window. */
  predicate Allowed(order: seq<nat>, total: nat, width: nat) {
    && (forall n :: 0 <= n < |order| ==> order[n] < total && order[n] < width + n)
    && (forall m, n :: 0 <= m < n < |order| ==> order[m] != order[n])
  }

  /** A history of the window in which the tasks finish in this order, with these outcomes. */
  ghost predicate Follows<T(!new)>(fs: seq<Fan<T>>, order: seq<nat>, vs: seq<T>, total: nat, width: nat) {
    && |fs| == |order| + 1 && |vs| == |order| && fs[0] == Start(total, width)
    && forall n :: 0 <= n < |order| ==>
         order[n] in fs[n].inflight && order[n] < |fs[n].slots| && fs[n + 1] == Finish(fs[n], order[n], vs[n])
  }

  lemma FollowsIsHistory<T(!new)>(fs: seq<Fan<T>>, order: seq<nat>, vs: seq<T>, total: nat, width: nat)
    requires Follows(fs, order, vs, total, width)
    ensures History(fs, total, width)
  {
    forall n | 0 <= n < |fs| - 1 ensures Step(fs[n], fs[n + 1]) {
      assert order[n] in fs[n].inflight && fs[n + 1] == Finish(fs[n], order[n], vs[n]);
    }
  }

  /** What is in flight once the tasks in `order` have finished. */
  ghost predicate InFlightAfter<T>(f: Fan<T>, order: seq<nat>, total: nat, width: nat) {
    && |f.slots| == total && f.next == MinInt(width + |order|, total)
    && forall i: nat :: i in f.inflight <==> i < f.next && i !in order
  }

  lemma FinishInFlight<T>(f: Fan<T>, order: seq<nat>, i: nat, v: T, total: nat, width: nat)
    requires InFlightAfter(f, order, total, width) && i in f.inflight
    requires forall n :: 0 <= n < |order| ==> order[n] < f.next
    ensures i < |f.slots| && InFlightAfter(Finish(f, i, v), order + [i], total, width)
  {
    assert f.next !in order;
    assert forall j: nat :: j in order + [i] <==> j in order || j == i;
  }

  lemma AllowedPrefix(order: seq<nat>, total: nat, width: nat)
    requires order != [] && Allowed(order, total, width)
    ensures var n := |order| - 1; Allowed(order[..n], total, width) && order[n] !in order[..n]
  {}

  lemma AllowedStep(order: seq<nat>, i: nat, total: nat, width: nat)
    requires Allowed(order, total, width) && i !in order && i < MinInt(width + |order|, total)
    ensures Allowed(order + [i], total, width)
  {}

  /** In every history the finished tasks are an allowed order, and those in flight are the tasks
      started and not finished. */
  lemma {:induction false} HistoryAllowed<T(!new)>(fs: seq<Fan<T>>, order: seq<nat>, vs: seq<T>, total: nat, width: nat)
    requires Follows(fs, order, vs, total, width)
    ensures Allowed(order, total, width) && InFlightAfter(fs[|order|], order, total, width)
  {
    if order != [] {
      var n := |order| - 1;
      HistoryAllowed(fs[..n + 1], order[..n], vs[..n], total, width);
      assert order == order[..n] + [order[n]];
      hide Finish;
      FinishInFlight(fs[n], order[..n], order[n], vs[n], total, width);
      AllowedStep(order[..n], order[n], total, width);
    }
  }

  /** Every allowed order is that of some history. */
  lemma {:induction false} AllowedHappens<T(!new)>(order: seq<nat>, vs: seq<T>, total: nat, width: nat)
    returns (fs: seq<Fan<T>>)
    requires Allowed(order, total, width) && |vs| == |order|
    ensures Follows(fs, order, vs, total, width)
  {
    if order == [] {
      fs := [Start(total, width)];
    } else {
      var n := |order| - 1;
      AllowedPrefix(order, total, width);
      var before := AllowedHappens(order[..n], vs[..n], total, width);
      HistoryAllowed(before, order[..n], vs[..n], total, width);
      FollowsStep(before, order[..n], vs[..n], total, width, order[n], vs[n]);
      fs := before + [Finish(before[n], order[n], vs[n])];
      assert order == order[..n] + [order[n]] && vs == vs[..n] + [vs[n]];
    }
  }

  lemma FollowsLength<T(!new)>(fs: seq<Fan<T>>, order: seq<nat>, vs: seq<T>, total: nat, width: nat)
    requires Follows(fs, order, vs, total, width)
    ensures |fs| == |order| + 1 && |vs| == |order|
  {}

  lemma NothingFinished<T(!new)>(fs: seq<Fan<T>>, total: nat, width: nat)
    requires |fs| == 1 && History(fs, total, width)
    ensures Follows(fs, [], [], total, width)
  {}

  /** Every history has an order. */
  lemma {:induction false} HistoryHasOrder<T(!new)>(fs: seq<Fan<T>>, total: nat, width: nat)
    returns (order: seq<nat>, vs: seq<T>)
    requires History(fs, total, width)
    ensures Follows(fs, order, vs, total, width)
  {
    hide Finish, Follows;
    if |fs| == 1 {
      assert Follows(fs, [], [], total, width) by { NothingFinished(fs, total, width); }
      order, vs := [], [];
    } else {
      var n := |fs| - 2;
      order, vs := HistoryHasOrder(fs[..n + 1], total, width);
      assert Step(fs[n], fs[n + 1]);
      var i: nat, v :| i in fs[n].inflight && i < |fs[n].slots| && fs[n + 1] == Finish(fs[n], i, v);
      assert |order| == n by { FollowsLength(fs[..n + 1], order, vs, total, width); }
      FollowsStep(fs[..n + 1], order, vs, total, width, i, v);
      assert fs == fs[..n + 1] + [fs[n + 1]];
      order, vs := order + [i], vs + [v];
    }
  }

  lemma FollowsStep<T(!new)>(fs: seq<Fan<T>>, order: seq<nat>, vs: seq<T>, total: nat, width: nat, i: nat, v: T)
    requires Follows(fs, order, vs, total, width)
    requires i in fs[|order|].inflight && i < |fs[|order|].slots|
    ensures Follows(fs + [Finish(fs[|order|], i, v)], order + [i], vs + [v], total, width)
  {
    hide Finish;
  }

  /** The orders in which tasks can finish are exactly the allowed ones, whatever they come to. */
  lemma OrdersExact<T(!new)>(order: seq<nat>, vs: seq<T>, total: nat, width: nat)
    requires |vs| == |order|
    ensures Allowed(order, total, width) <==>
      exists fs :: History(fs, total, width) && Follows(fs, order, vs, total, width)
  {
    hide Allowed, Follows, History;
    if Allowed(order, total, width) {
      var fs := AllowedHappens(order, vs, total, width);
      FollowsIsHistory(fs, order, vs, total, width);
    } else if fs :| Follows(fs, order, vs, total, width) {
      HistoryAllowed(fs, order, vs, total, width);
    }
  }

  /** Through a window of one, tasks finish in their own order. */
  lemma {:induction false} OneAtATime(order: seq<nat>, total: nat, n: nat)
    requires Allowed(order, total, 1) && n < |order|
    ensures order[n] == n
    decreases n
  {
    if order[n] < n { OneAtATime(order, total, order[n]); }
  }

  /** `for _ in 0..in_flight { pending.next() ... }`: fill the window. */
  method Prime<T>(total: nat, width: nat) returns (f: Fan<T>)
    ensures f == Start(total, width)
  {
    hide Interval;
    var next: nat, inflight: set<nat> := 0, {};
    for n := 0 to width
      invariant next == MinInt(n, total)
      invariant inflight == Interval(0, next)
    {
      if next < total {
        assert Interval(0, next) + {next} == Interval(0, next + 1);
        inflight := inflight + {next};
        next := next + 1;
      }
    }
    f := Fan(next, inflight, EmptySlots(total));
  }
}
