// SUM and AVG under rounding: whatever way the rows were split, ordered and merged, what an
// accumulator holds differs from the exact answer by no more than its own additions account for.
module Rounding {
  import opened Prelude
  import opened Numerals
  import opened JsonModel
  import opened KahanSums
  import opened QueryModel
  import opened Accumulators
  import opened Partials
  import opened Lanes

  // ----- the state of one accumulator after any plan, under rounding -----

  function FoldedWith(fl: real -> real, agg: Agg, rows: seq<Row>): Accum {
    if rows == [] then Zero(agg) else FoldWith(fl, agg, FoldedWith(fl, agg, rows[..|rows| - 1]), rows[|rows| - 1])
  }

  /** One group's accumulator after the plan; none if the group is empty. */
  ghost function PlanState(fl: real -> real, agg: Agg, q: Query, show: Json -> string, k: Key, w: Work): Option<Accum> {
    match w
    case Scan(rows) =>
      var members := Members(q, show, rows, k);
      if members == [] then None else Some(FoldedWith(fl, agg, members))
    case Combine(l, r) =>
      match (PlanState(fl, agg, q, show, k, l), PlanState(fl, agg, q, show, k, r))
      case (Some(a), Some(b)) => Some(MergeWith(fl, a, b))
      case (Some(a), None) => Some(a)
      case (None, b) => b
  }

  lemma {:induction false} FoldedExactly(agg: Agg, rows: seq<Row>)
    ensures FoldedWith(Identity, agg, rows) == Folded(agg, rows)
  {
    hide FoldWith, Zero;
    if rows != [] { FoldedExactly(agg, rows[..|rows| - 1]); }
  }

  /** Without rounding this is the accumulator in the plan's partial. */
  lemma {:induction false} PlanStateExactly(q: Query, show: Json -> string, k: Key, w: Work, i: nat)
    requires i < |q.aggregates|
    ensures var g, s := WorkGroups(q, show, w), PlanState(Identity, q.aggregates[i], q, show, k, w);
      && (k in g <==> s.Some?)
      && (k in g ==> |g[k]| == |q.aggregates| && s == Some(g[k][i]))
  {
    hide MergeWith, MapGroups, Members, FoldedWith, Folded;
    match w
    case Scan(rows) =>
      MapIsFold(q, show, rows, k, i);
      FoldedExactly(q.aggregates[i], Members(q, show, rows, k));
    case Combine(l, r) =>
      PlanStateExactly(q, show, k, l, i);
      PlanStateExactly(q, show, k, r, i);
  }

  // ----- what is charged to a compensated sum -----

  /** A compensated sum with the exact total of what was added to it, the summed magnitudes of its
      compensation updates, and the summed errors of converting values to floats. */
  datatype Ledger = Ledger(k: Kahan, added: real, updates: real, converted: real)

  ghost function Blank(): Ledger {
    Ledger(Kahan(0.0, 0.0), 0.0, 0.0, 0.0)
  }

  ghost function Put(fl: real -> real, l: Ledger, x: real): Ledger {
    Ledger(Added(fl, l.k, fl(x)), l.added + fl(x), l.updates + AddUpdate(fl, l.k, fl(x)), l.converted + Abs(fl(x) - x))
  }

  ghost function Join(fl: real -> real, l: Ledger, m: Ledger): Ledger {
    Ledger(Merged(fl, l.k, m.k), l.added + m.added, l.updates + m.updates + MergeUpdates(fl, l.k, m.k),
           l.converted + m.converted)
  }

  /** What was added is `exact` up to conversions, and the sum tracks what was added. */
  ghost predicate Sound(isFloat: real -> bool, u: real, l: Ledger, exact: real) {
    Tracks(isFloat, u, l.k, l.added, l.updates) && Abs(l.added - exact) <= l.converted
  }

  lemma BlankSound(fl: real -> real, isFloat: real -> bool, u: real)
    requires RoundsToNearest(fl, isFloat, u)
    ensures Sound(isFloat, u, Blank(), 0.0)
  {
    hide RoundsToNearest, Tracks;
    FreshTracks(fl, isFloat, u);
  }

  lemma FloatsOnly(fl: real -> real, isFloat: real -> bool, u: real, x: real)
    requires RoundsToNearest(fl, isFloat, u)
    ensures isFloat(fl(x))
  {}

  lemma PutSound(fl: real -> real, isFloat: real -> bool, u: real, l: Ledger, exact: real, x: real)
    requires RoundsToNearest(fl, isFloat, u) && Sound(isFloat, u, l, exact)
    ensures Sound(isFloat, u, Put(fl, l, x), exact + x)
  {
    hide RoundsToNearest, Tracks, Added, AddUpdate;
    FloatsOnly(fl, isFloat, u, x);
    AddTracks(fl, isFloat, u, l.k, l.added, l.updates, fl(x));
  }

  lemma JoinSound(fl: real -> real, isFloat: real -> bool, u: real, l: Ledger, x: real, m: Ledger, y: real)
    requires RoundsToNearest(fl, isFloat, u) && Sound(isFloat, u, l, x) && Sound(isFloat, u, m, y)
    ensures Sound(isFloat, u, Join(fl, l, m), x + y)
  {
    hide RoundsToNearest, Tracks, Merged, MergeUpdates;
    MergeTracks(fl, isFloat, u, l.k, l.added, l.updates, m.k, m.added, m.updates);
  }

  // ----- SUM and AVG with their charges -----

  /** A SUM in the integer lane, a SUM in the float lane, or an AVG. */
  datatype Audit = Whole(i: int) | Loose(l: Ledger) | Average(l: Ledger, count: nat)
  {
    ghost function State(): Accum {
      match this
      case Whole(i) => IntSum(i)
      case Loose(l) => Accum.Sum(l.k)
      case Average(l, n) => Accum.Avg(l.k, n)
    }
  }

  ghost function Spill(fl: real -> real, a: int, b: real): Audit {
    Loose(Put(fl, Put(fl, Blank(), a as real), b))
  }

  ghost function FoldAudit(fl: real -> real, agg: Agg, a: Audit, row: Row): Audit {
    match agg
    case Sum(f) =>
      (match (a, CellNumber(row, f))
       case (Whole(s), Some(Int(v))) =>
         (match CheckedAdd(s, v) case Some(t) => Whole(t) case None => Spill(fl, s, v as real))
       case (Whole(s), Some(Float(v))) => Spill(fl, s, v)
       case (Loose(l), Some(num)) => Loose(Put(fl, l, num.Real()))
       case _ => a)
    case Avg(f) =>
      (match (a, CellF64(row, f))
       case (Average(l, n), Some(v)) => Average(Put(fl, l, v), SaturatingAdd(n, 1))
       case _ => a)
    case _ => a
  }

  ghost function MergeAudit(fl: real -> real, a: Audit, b: Audit): Audit {
    match (a, b)
    case (Whole(x), Whole(y)) =>
      (match CheckedAdd(x, y) case Some(t) => Whole(t) case None => Spill(fl, x, y as real))
    case (Whole(x), Loose(m)) => Loose(Join(fl, Put(fl, Blank(), x as real), m))
    case (Loose(l), Whole(y)) => Loose(Put(fl, l, y as real))
    case (Loose(l), Loose(m)) => Loose(Join(fl, l, m))
    case (Average(l, x), Average(m, y)) => Average(Join(fl, l, m), SaturatingAdd(x, y))
    case _ => a
  }

  ghost function ZeroAudit(agg: Agg): Audit {
    if agg.Avg? then Average(Blank(), 0) else Whole(0)
  }

  ghost function ScanAudit(fl: real -> real, agg: Agg, rows: seq<Row>): Audit {
    if rows == [] then ZeroAudit(agg)
    else FoldAudit(fl, agg, ScanAudit(fl, agg, rows[..|rows| - 1]), rows[|rows| - 1])
  }

  ghost function PlanAudit(fl: real -> real, agg: Agg, q: Query, show: Json -> string, k: Key, w: Work): Option<Audit> {
    match w
    case Scan(rows) =>
      var members := Members(q, show, rows, k);
      if members == [] then None else Some(ScanAudit(fl, agg, members))
    case Combine(l, r) =>
      match (PlanAudit(fl, agg, q, show, k, l), PlanAudit(fl, agg, q, show, k, r))
      case (Some(a), Some(b)) => Some(MergeAudit(fl, a, b))
      case (Some(a), None) => Some(a)
      case (None, b) => b
  }

  /** The state is exact in the integer lane, and otherwise within its charges of the exact total. */
  ghost predicate Accounts(isFloat: real -> bool, u: real, agg: Agg, a: Audit, t: Tally)
    requires Kind(agg, t)
  {
    match agg
    case Sum(_) =>
      (match a
       case Whole(i) => i as real == t.gain - t.loss
       case Loose(l) => Sound(isFloat, u, l, t.gain - t.loss)
       case Average(_, _) => false)
    case Avg(_) => a.Average? && Sound(isFloat, u, a.l, t.v) && a.count == MinInt(t.n, U64_MAX)
    case _ => false
  }

  // ----- charges keep up with the state -----

  lemma FoldState(fl: real -> real, agg: Agg, a: Audit, row: Row)
    requires (agg.Sum? && !a.Average?) || (agg.Avg? && a.Average?)
    ensures FoldAudit(fl, agg, a, row).State() == FoldWith(fl, agg, a.State(), row)
    ensures FoldAudit(fl, agg, a, row).Average? <==> a.Average?
  {
    hide CellNumber, CellF64, CheckedAdd, Added, AddUpdate, Abs;
  }

  lemma MergeState(fl: real -> real, a: Audit, b: Audit)
    requires a.Average? <==> b.Average?
    ensures MergeAudit(fl, a, b).State() == MergeWith(fl, a.State(), b.State())
    ensures MergeAudit(fl, a, b).Average? <==> a.Average?
  {
    hide CheckedAdd, Added, Merged, AddUpdate, MergeUpdates, Abs;
  }

  lemma SpillSound(fl: real -> real, isFloat: real -> bool, u: real, a: int, b: real)
    requires RoundsToNearest(fl, isFloat, u)
    ensures Spill(fl, a, b).Loose? && Sound(isFloat, u, Spill(fl, a, b).l, a as real + b)
  {
    hide RoundsToNearest, Sound, Put, Blank;
    BlankSound(fl, isFloat, u);
    PutSound(fl, isFloat, u, Blank(), 0.0, a as real);
    PutSound(fl, isFloat, u, Put(fl, Blank(), a as real), a as real, b);
  }

  lemma FoldAccounts(fl: real -> real, isFloat: real -> bool, u: real, agg: Agg, a: Audit, t: Tally, row: Row)
    requires RoundsToNearest(fl, isFloat, u) && (agg.Sum? || agg.Avg?)
    requires Kind(agg, t) && Accounts(isFloat, u, agg, a, t)
    ensures Kind(agg, Plus(t, RowTally(agg, row)))
    ensures Accounts(isFloat, u, agg, FoldAudit(fl, agg, a, row), Plus(t, RowTally(agg, row)))
  {
    hide RoundsToNearest, Sound, Put, Spill, CellNumber, CellF64;
    RowKind(agg, row);
    if agg.Sum? {
      match (a, CellNumber(row, agg.field))
      case (Whole(s), Some(num)) => SpillSound(fl, isFloat, u, s, num.Real());
      case (Loose(l), Some(num)) => PutSound(fl, isFloat, u, l, t.gain - t.loss, num.Real());
      case _ =>
    } else {
      match CellF64(row, agg.field)
      case Some(v) => PutSound(fl, isFloat, u, a.l, t.v, v);
      case None =>
    }
  }

  lemma MergeAccounts(fl: real -> real, isFloat: real -> bool, u: real, agg: Agg, a: Audit, t: Tally,
                      b: Audit, s: Tally)
    requires RoundsToNearest(fl, isFloat, u) && (agg.Sum? || agg.Avg?) && Kind(agg, t) && Kind(agg, s)
    requires Accounts(isFloat, u, agg, a, t) && Accounts(isFloat, u, agg, b, s)
    ensures Kind(agg, Plus(t, s)) && Accounts(isFloat, u, agg, MergeAudit(fl, a, b), Plus(t, s))
  {
    hide RoundsToNearest, Sound, Put, Join, Spill, Blank;
    if agg.Sum? {
      var x, y := t.gain - t.loss, s.gain - s.loss;
      match (a, b)
      case (Whole(i), Whole(j)) => SpillSound(fl, isFloat, u, i, j as real);
      case (Whole(i), Loose(m)) =>
        BlankSound(fl, isFloat, u);
        PutSound(fl, isFloat, u, Blank(), 0.0, i as real);
        JoinSound(fl, isFloat, u, Put(fl, Blank(), i as real), x, m, y);
      case (Loose(l), Whole(j)) => PutSound(fl, isFloat, u, l, x, j as real);
      case (Loose(l), Loose(m)) => JoinSound(fl, isFloat, u, l, x, m, y);
    } else {
      JoinSound(fl, isFloat, u, a.l, t.v, b.l, s.v);
    }
  }

  // ----- main results -----

  /** The plan of a run: its shards scanned one by one and merged in that order. */
  ghost function ReducePlan(data: seq<seq<Row>>): Work {
    if data == [] then Scan([]) else Combine(ReducePlan(data[..|data| - 1]), Scan(data[|data| - 1]))
  }

  lemma {:induction false} ReduceIsPlan(q: Query, show: Json -> string, data: seq<seq<Row>>)
    ensures WorkGroups(q, show, ReducePlan(data)) == ReduceGroups(Map(rows => MapShard(q, show, rows), data))
    ensures WorkRows(ReducePlan(data)) == Flatten(data)
  {
    hide MapGroups, MergeGroups;
    var parts := Map(rows => MapShard(q, show, rows), data);
    if data == [] {
      NothingMapped(q, show);
    } else {
      var n := |data| - 1;
      ReduceIsPlan(q, show, data[..n]);
      assert parts[..n] == Map(rows => MapShard(q, show, rows), data[..n]);
    }
  }

  lemma NothingMapped(q: Query, show: Json -> string)
    ensures MapGroups(q, show, []) == map[]
  {}

  ghost predicate AuditFits(agg: Agg, a: Audit) {
    (agg.Sum? && !a.Average?) || (agg.Avg? && a.Average?)
  }

  lemma {:induction false} ScanDrift(fl: real -> real, isFloat: real -> bool, u: real, agg: Agg, rows: seq<Row>)
    requires RoundsToNearest(fl, isFloat, u) && (agg.Sum? || agg.Avg?)
    ensures AuditFits(agg, ScanAudit(fl, agg, rows))
    ensures ScanAudit(fl, agg, rows).State() == FoldedWith(fl, agg, rows)
    ensures Accounts(isFloat, u, agg, ScanAudit(fl, agg, rows), TallyOf(agg, rows))
  {
    hide RoundsToNearest, Sound, FoldAudit, FoldWith, Plus, RowTally, Audit.State;
    if rows == [] {
      ZeroDrift(fl, isFloat, u, agg);
    } else {
      var front, row := rows[..|rows| - 1], rows[|rows| - 1];
      ScanDrift(fl, isFloat, u, agg, front);
      FoldState(fl, agg, ScanAudit(fl, agg, front), row);
      FoldAccounts(fl, isFloat, u, agg, ScanAudit(fl, agg, front), TallyOf(agg, front), row);
    }
  }

  lemma ZeroDrift(fl: real -> real, isFloat: real -> bool, u: real, agg: Agg)
    requires RoundsToNearest(fl, isFloat, u) && (agg.Sum? || agg.Avg?)
    ensures AuditFits(agg, ZeroAudit(agg)) && ZeroAudit(agg).State() == Zero(agg)
    ensures Accounts(isFloat, u, agg, ZeroAudit(agg), TallyOf(agg, []))
  {
    hide RoundsToNearest, Sound;
    BlankSound(fl, isFloat, u);
  }

  /** Under every plan a group's SUM or AVG is within the charges of its own additions and merges of
      the exact total of the group's rows; in the integer lane it is that total. */
  lemma {:induction false} PlanDrift(fl: real -> real, isFloat: real -> bool, u: real, agg: Agg, q: Query,
                                     show: Json -> string, k: Key, w: Work)
    requires RoundsToNearest(fl, isFloat, u) && (agg.Sum? || agg.Avg?)
    ensures var members, s, a := Members(q, show, WorkRows(w), k), PlanState(fl, agg, q, show, k, w),
              PlanAudit(fl, agg, q, show, k, w);
      && (members == [] <==> s.None?) && (members == [] <==> a.None?)
      && (a.Some? ==> AuditFits(agg, a.value) && s == Some(a.value.State())
                      && Accounts(isFloat, u, agg, a.value, TallyOf(agg, members)))
  {
    hide RoundsToNearest, Accounts, MergeAudit, MergeWith, ScanAudit, FoldedWith, TallyOf, Plus, Audit.State, Members;
    match w
    case Scan(rows) => ScanDrift(fl, isFloat, u, agg, Members(q, show, rows, k));
    case Combine(l, r) =>
      PlanDrift(fl, isFloat, u, agg, q, show, k, l);
      PlanDrift(fl, isFloat, u, agg, q, show, k, r);
      var x, y := Members(q, show, WorkRows(l), k), Members(q, show, WorkRows(r), k);
      MembersConcat(q, show, WorkRows(l), WorkRows(r), k);
      var a, b := PlanAudit(fl, agg, q, show, k, l), PlanAudit(fl, agg, q, show, k, r);
      if a.Some? && b.Some? {
        MergeState(fl, a.value, b.value);
        MergeAccounts(fl, isFloat, u, agg, a.value, TallyOf(agg, x), b.value, TallyOf(agg, y));
        TallyConcat(agg, x, y);
      } else if a.Some? {
        assert x + y == x;
      } else {
        assert x + y == y;
      }
  }

  ghost function Scaled(u: real, budget: real): real {
    u * budget
  }

  /** The total read from the state: exact in the integer lane, one rounding of sum + comp elsewhere. */
  ghost function Reading(fl: real -> real, a: Audit): real {
    if a.Whole? then a.i as real else TotalOf(fl, a.l.k)
  }

  /** How far that may be off: nothing in the integer lane, elsewhere the charges and that rounding. */
  ghost function Margin(u: real, a: Audit): real {
    if a.Whole? then 0.0 else Scaled(u, a.l.updates + Abs(a.l.k.sum + a.l.k.comp)) + a.l.converted
  }

  ghost function ExactOf(agg: Agg, t: Tally): real
    requires (agg.Sum? || agg.Avg?) && Kind(agg, t)
  {
    if agg.Sum? then t.gain - t.loss else t.v
  }

  lemma Triangle(got: real, added: real, exact: real, u: real, budget: real, converted: real)
    requires Drifts(got, added + 0.0, u, budget) && Abs(added - exact) <= converted
    ensures Abs(got - exact) <= Scaled(u, budget) + converted
  {}

  lemma ReadWithin(fl: real -> real, isFloat: real -> bool, u: real, l: Ledger, exact: real)
    requires RoundsToNearest(fl, isFloat, u) && Sound(isFloat, u, l, exact)
    ensures Abs(TotalOf(fl, l.k) - exact) <= Scaled(u, l.updates + Abs(l.k.sum + l.k.comp)) + l.converted
  {
    hide RoundsToNearest, Close, Drifts, TotalOf, Abs, Scaled;
    RoundsClose(fl, isFloat, u, l.k.sum, l.k.comp);
    CloseDrifts(fl, u, l.k);
    var read := Abs(l.k.sum + l.k.comp);
    Accumulate(u, l.k.sum + l.k.comp, l.added, l.updates, TotalOf(fl, l.k), 0.0, read);
    Triangle(TotalOf(fl, l.k), l.added, exact, u, l.updates + read, l.converted);
  }

  lemma ReadAccounts(fl: real -> real, isFloat: real -> bool, u: real, agg: Agg, a: Audit, t: Tally)
    requires RoundsToNearest(fl, isFloat, u) && (agg.Sum? || agg.Avg?) && Kind(agg, t)
    requires Accounts(isFloat, u, agg, a, t)
    ensures Abs(Reading(fl, a) - ExactOf(agg, t)) <= Margin(u, a)
  {
    hide RoundsToNearest, Sound, TotalOf, Scaled;
    if !a.Whole? { ReadWithin(fl, isFloat, u, a.l, ExactOf(agg, t)); }
  }

  /** Two plans over the same rows, in any order, read totals of SUM or AVG that differ by at most the
      margins of both; AVG divides them by the same count. */
  lemma PlansAgreeWithin(fl: real -> real, isFloat: real -> bool, u: real, agg: Agg, q: Query, show: Json -> string,
                         k: Key, v: Work, w: Work)
    requires RoundsToNearest(fl, isFloat, u) && (agg.Sum? || agg.Avg?)
    requires multiset(WorkRows(v)) == multiset(WorkRows(w)) && Members(q, show, WorkRows(v), k) != []
    ensures var a, b := PlanAudit(fl, agg, q, show, k, v), PlanAudit(fl, agg, q, show, k, w);
      && a.Some? && b.Some? && AuditFits(agg, a.value) && AuditFits(agg, b.value)
      && Abs(Reading(fl, a.value) - Reading(fl, b.value)) <= Margin(u, a.value) + Margin(u, b.value)
      && (agg.Avg? ==> a.value.count == b.value.count)
  {
    hide RoundsToNearest, Sound, Reading, Margin, PlanAudit, PlanState, WorkRows, Members, TallyOf;
    PlanDrift(fl, isFloat, u, agg, q, show, k, v);
    PlanDrift(fl, isFloat, u, agg, q, show, k, w);
    var x, y := Members(q, show, WorkRows(v), k), Members(q, show, WorkRows(w), k);
    MembersPermute(q, show, WorkRows(v), WorkRows(w), k);
    TallyPermute(agg, x, y);
    var t := TallyOf(agg, x);
    ReadAccounts(fl, isFloat, u, agg, PlanAudit(fl, agg, q, show, k, v).value, t);
    ReadAccounts(fl, isFloat, u, agg, PlanAudit(fl, agg, q, show, k, w).value, t);
  }
}
