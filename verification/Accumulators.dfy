// One aggregate's running state, its fold and merge, and what that state stands for: a tally
// computed directly from the contributing rows.
module Accumulators {
  import opened Prelude
  import opened Numerals
  import opened JsonModel
  import opened KahanSums
  import Q = QueryModel

  datatype Accum =
    | Count(n: nat)
    | IntSum(i: int)
    | Sum(k: Kahan)
    | Min(lo: Option<real>)
    | Max(hi: Option<real>)
    | Avg(total: Kahan, count: nat)

  function SaturatingAdd(a: nat, b: nat): nat {
    MinInt(a + b, U64_MAX)
  }

  function CheckedAdd(a: int, b: int): Option<int> {
    Within(Some(a + b), I128_MIN, I128_MAX)
  }

  /** An integer sum carried over to the float lane, and one more value. `fl` rounds. */
  function Promoted(fl: real -> real, a: int, b: real): Accum {
    Sum(Added(fl, Added(fl, Kahan(0.0, 0.0), fl(a as real)), fl(b)))
  }

  function LesserOf(a: Option<real>, b: Option<real>): Option<real> {
    if a.None? then b else if b.None? then a else Some(if a.value <= b.value then a.value else b.value)
  }

  function GreaterOf(a: Option<real>, b: Option<real>): Option<real> {
    if a.None? then b else if b.None? then a else Some(if a.value >= b.value then a.value else b.value)
  }

  function Zero(agg: Q.Agg): Accum {
    match agg
    case Count => Count(0)
    case Sum(_) => IntSum(0)
    case Min(_) => Min(None)
    case Max(_) => Max(None)
    case Avg(_) => Avg(Kahan(0.0, 0.0), 0)
  }

  /** `Accum::merge` under rounding: position-wise, a variant mismatch leaving the left side alone. */
  function MergeWith(fl: real -> real, a: Accum, b: Accum): Accum {
    match (a, b)
    case (Count(x), Count(y)) => Count(SaturatingAdd(x, y))
    case (IntSum(x), IntSum(y)) =>
      (match CheckedAdd(x, y)
       case Some(s) => IntSum(s)
       case None => Promoted(fl, x, y as real))
    case (IntSum(x), Sum(k)) => Sum(Merged(fl, Added(fl, Kahan(0.0, 0.0), fl(x as real)), k))
    case (Sum(k), IntSum(y)) => Sum(Added(fl, k, fl(y as real)))
    case (Sum(k), Sum(l)) => Sum(Merged(fl, k, l))
    case (Min(x), Min(y)) => Min(LesserOf(x, y))
    case (Max(x), Max(y)) => Max(GreaterOf(x, y))
    case (Avg(k, x), Avg(l, y)) => Avg(Merged(fl, k, l), SaturatingAdd(x, y))
    case _ => a
  }

  /** The merge over exact reals. */
  function Merge(a: Accum, b: Accum): Accum {
    MergeWith(Identity, a, b)
  }

  function FoldSumWith(fl: real -> real, acc: Accum, num: Num): Accum {
    match (acc, num)
    case (IntSum(s), Int(v)) =>
      (match CheckedAdd(s, v)
       case Some(t) => IntSum(t)
       case None => Promoted(fl, s, v as real))
    case (IntSum(s), Float(v)) => Promoted(fl, s, v)
    case (Sum(k), _) => Sum(Added(fl, k, fl(num.Real())))
    case _ => acc
  }

  function FoldSum(acc: Accum, num: Num): Accum {
    FoldSumWith(Identity, acc, num)
  }

  function CellF64(row: Row, f: string): Option<real> {
    if f in row then AsReal(row[f]) else None
  }

  function CellNumber(row: Row, f: string): Option<Num> {
    if f in row then AsNumber(row[f]) else None
  }

  /** `Agg::fold` under rounding: one row's contribution; missing and non-numeric cells are skipped. */
  function FoldWith(fl: real -> real, agg: Q.Agg, acc: Accum, row: Row): Accum {
    match agg
    case Count => if acc.Count? then Count(SaturatingAdd(acc.n, 1)) else acc
    case Sum(f) =>
      (match CellNumber(row, f)
       case Some(num) => FoldSumWith(fl, acc, num)
       case None => acc)
    case Min(f) =>
      var v := CellF64(row, f);
      if acc.Min? && v.Some? then Min(LesserOf(acc.lo, v)) else acc
    case Max(f) =>
      var v := CellF64(row, f);
      if acc.Max? && v.Some? then Max(GreaterOf(acc.hi, v)) else acc
    case Avg(f) =>
      var v := CellF64(row, f);
      if acc.Avg? && v.Some? then Avg(Added(fl, acc.total, fl(v.value)), SaturatingAdd(acc.count, 1))
      else acc
  }

  /** The fold over exact reals. */
  function Fold(agg: Q.Agg, acc: Accum, row: Row): Accum {
    FoldWith(Identity, agg, acc, row)
  }

  function FinalizeValue(acc: Accum): Json {
    match acc
    case Count(n) => Number(Int(n))
    case IntSum(i) => Number(Int(i))
    case Sum(k) => Number(Float(k.sum + k.comp))
    case Min(m) => if m.Some? then Number(Float(m.value)) else Null
    case Max(m) => if m.Some? then Number(Float(m.value)) else Null
    case Avg(k, n) => if n == 0 then Null else Number(Float((k.sum + k.comp) / n as real))
  }

  // ----- what an accumulator stands for -----

  /** The aggregate's answer over a set of rows, independent of how it was accumulated. A total
      keeps the gains (sum of the positive cells) apart from the losses (magnitudes of the negative
      ones), and says whether every contributing cell was an integer. */
  datatype Tally =
    | Rows(n: nat)
    | Total(integral: bool, gain: real, loss: real)
    | Low(m: Option<real>)
    | High(m: Option<real>)
    | Mean(v: real, n: nat)

  ghost function RowTally(agg: Q.Agg, row: Row): Tally {
    match agg
    case Count => Rows(1)
    case Sum(f) =>
      (match CellNumber(row, f)
       case Some(num) =>
         var v := num.Real();
         if v >= 0.0 then Total(num.Int?, v, 0.0) else Total(num.Int?, 0.0, -v)
       case None => Total(true, 0.0, 0.0))
    case Min(f) => Low(CellF64(row, f))
    case Max(f) => High(CellF64(row, f))
    case Avg(f) =>
      (match CellF64(row, f)
       case Some(v) => Mean(v, 1)
       case None => Mean(0.0, 0))
  }

  ghost function Empty(agg: Q.Agg): Tally {
    match agg
    case Count => Rows(0)
    case Sum(_) => Total(true, 0.0, 0.0)
    case Min(_) => Low(None)
    case Max(_) => High(None)
    case Avg(_) => Mean(0.0, 0)
  }

  ghost predicate Kind(agg: Q.Agg, t: Tally) {
    match agg
    case Count => t.Rows?
    case Sum(_) => t.Total? && t.gain >= 0.0 && t.loss >= 0.0
    case Min(_) => t.Low?
    case Max(_) => t.High?
    case Avg(_) => t.Mean?
  }

  ghost function Plus(a: Tally, b: Tally): Tally {
    match (a, b)
    case (Rows(x), Rows(y)) => Rows(x + y)
    case (Total(i, v, m), Total(j, w, n)) => Total(i && j, v + w, m + n)
    case (Low(x), Low(y)) => Low(LesserOf(x, y))
    case (High(x), High(y)) => High(GreaterOf(x, y))
    case (Mean(v, x), Mean(w, y)) => Mean(v + w, x + y)
    case _ => a
  }

  ghost function TallyOf(agg: Q.Agg, rows: seq<Row>): (t: Tally)
    ensures Kind(agg, t)
  {
    if rows == [] then Empty(agg)
    else Plus(TallyOf(agg, rows[..|rows| - 1]), RowTally(agg, rows[|rows| - 1]))
  }

  /** Neither the gains nor the losses leave the i128 range, so no partial sum can. */
  ghost predicate InRange(t: Tally)
    requires t.Total?
  {
    t.gain <= I128_MAX as real && t.loss <= -I128_MIN as real
  }

  /** `acc` holds exactly the answer `t`. The integer lane is left only when a contributing cell was
      not an integer or some partial sum may leave the i128 range. */
  ghost predicate Represents(acc: Accum, t: Tally) {
    match (acc, t)
    case (Count(n), Rows(m)) => n == MinInt(m, U64_MAX)
    case (IntSum(i), Total(integral, gain, loss)) =>
      integral && i as real == gain - loss && I128_MIN <= i <= I128_MAX
    case (Sum(k), Total(integral, gain, loss)) => k == Kahan(gain - loss, 0.0) && (integral ==> !InRange(t))
    case (Min(x), Low(y)) => x == y
    case (Max(x), High(y)) => x == y
    case (Avg(k, n), Mean(v, m)) => k == Kahan(v, 0.0) && n == MinInt(m, U64_MAX)
    case _ => false
  }

  /** What the state of one aggregate says in plain terms. A sum whose gains and losses fit i128 is
      in the integer lane exactly when every cell is an integer, one whose total does not fit never
      is, and in either lane its value is the exact total. A count is the row count, saturated. */
  ghost predicate ExactLane(agg: Q.Agg, acc: Accum, t: Tally)
    requires Kind(agg, t)
  {
    match agg
    case Count => acc == Count(MinInt(t.n, U64_MAX))
    case Sum(_) =>
      && (acc.IntSum? || acc.Sum?)
      && (InRange(t) ==> (acc.IntSum? <==> t.integral))
      && (acc.IntSum? ==> t.integral && acc.i as real == t.gain - t.loss && I128_MIN <= acc.i <= I128_MAX)
      && (acc.Sum? ==> acc.k.sum + acc.k.comp == t.gain - t.loss)
    case Min(_) => acc == Min(t.m)
    case Max(_) => acc == Max(t.m)
    case Avg(_) => acc.Avg? && acc.total.sum + acc.total.comp == t.v && acc.count == MinInt(t.n, U64_MAX)
  }

  lemma RepresentsExactly(agg: Q.Agg, acc: Accum, t: Tally)
    requires Kind(agg, t) && Represents(acc, t)
    ensures ExactLane(agg, acc, t)
  {}

  lemma ZeroRepresents(agg: Q.Agg)
    ensures Represents(Zero(agg), Empty(agg)) && Kind(agg, Empty(agg))
  {}

  /** Merging adds up what the two sides stand for, saturation and overflow included. */
  lemma MergeRepresents(agg: Q.Agg, a: Accum, t: Tally, b: Accum, s: Tally)
    requires Represents(a, t) && Represents(b, s) && Kind(agg, t) && Kind(agg, s)
    ensures Represents(Merge(a, b), Plus(t, s))
  {}

  /** Folding a row adds that row's contribution. */
  lemma FoldRepresents(agg: Q.Agg, acc: Accum, t: Tally, row: Row)
    requires Represents(acc, t) && Kind(agg, t)
    ensures Represents(Fold(agg, acc, row), Plus(t, RowTally(agg, row)))
  {
    hide CellNumber, CellF64;
  }

  /** The tally alone decides the lane: a cell is not an integer, or no partial sum can leave the
      i128 range, or the total itself is out of range. */
  ghost predicate Settled(t: Tally) {
    t.Total? && t.integral ==> InRange(t) || !(I128_MIN as real <= t.gain - t.loss <= I128_MAX as real)
  }

  /** Two states standing for the same answer differ at most in the lane of an overflowing sum. */
  lemma RepresentsUnique(a: Accum, b: Accum, t: Tally)
    requires Represents(a, t) && Represents(b, t)
    ensures Widened(a) == Widened(b)
    ensures Settled(t) ==> a == b
  {}

  /** The state with its sum moved to the float lane. */
  function Widened(acc: Accum): Accum {
    match acc
    case IntSum(i) => Sum(Kahan(i as real, 0.0))
    case _ => acc
  }

  lemma FinalizeWidened(a: Accum)
    ensures Widen(FinalizeValue(Widened(a))) == Widen(FinalizeValue(a))
  {}

  /** What is read from a compensated state is its total, compensation included; AVG divides it by the
      count. */
  lemma FinalizeReads(k: Kahan, n: nat)
    ensures FinalizeValue(Accum.Sum(k)) == Number(Float(TotalOf(Identity, k)))
    ensures n > 0 ==> FinalizeValue(Accum.Avg(k, n)).Number?
    ensures n > 0 ==> FinalizeValue(Accum.Avg(k, n)).n.Real() * n as real == TotalOf(Identity, k)
    ensures FinalizeValue(Accum.Avg(k, 0)) == Null
  {
    if n > 0 { QuotientBack(k.sum + k.comp, n as real); }
  }

  lemma QuotientBack(total: real, n: real)
    requires n > 0.0
    ensures (total / n) * n == total
  {}

  // ----- tallies form a commutative monoid over rows -----

  lemma PlusLaws(a: Tally, b: Tally, c: Tally, agg: Q.Agg)
    requires Kind(agg, a) && Kind(agg, b) && Kind(agg, c)
    ensures Plus(a, b) == Plus(b, a) && Kind(agg, Plus(a, b))
    ensures Plus(Plus(a, b), c) == Plus(a, Plus(b, c))
    ensures Plus(a, Empty(agg)) == a
  {}

  lemma {:induction false} TallyConcat(agg: Q.Agg, a: seq<Row>, b: seq<Row>)
    ensures TallyOf(agg, a + b) == Plus(TallyOf(agg, a), TallyOf(agg, b))
  {
    hide Plus, RowTally, Empty;
    if b == [] {
      assert a + b == a;
      PlusLaws(TallyOf(agg, a), TallyOf(agg, a), TallyOf(agg, a), agg);
    } else {
      var front, last := b[..|b| - 1], b[|b| - 1];
      assert (a + b)[..|a + b| - 1] == a + front;
      TallyConcat(agg, a, front);
      RowKind(agg, last);
      PlusLaws(TallyOf(agg, a), TallyOf(agg, front), RowTally(agg, last), agg);
    }
  }

  lemma RowKind(agg: Q.Agg, row: Row)
    ensures Kind(agg, RowTally(agg, row)) && Kind(agg, Empty(agg))
  {
    hide CellNumber, CellF64;
  }

  // ----- the tallies mean what the aggregates are named for -----

  /** The numeric cells of a column, in row order. */
  ghost function Column(f: string, rows: seq<Row>): seq<real> {
    if rows == [] then []
    else
      var v := CellF64(rows[|rows| - 1], f);
      Column(f, rows[..|rows| - 1]) + if v.Some? then [v.value] else []
  }

  /** MIN is absent without numeric cells, otherwise attained and a lower bound; MAX dually. */
  lemma {:induction false} ExtremesAreExtreme(f: string, rows: seq<Row>)
    ensures var c, lo, hi := Column(f, rows), TallyOf(Q.Min(f), rows).m, TallyOf(Q.Max(f), rows).m;
      && (lo.None? <==> c == []) && (hi.None? <==> c == [])
      && (lo.Some? ==> lo.value in c && forall x :: x in c ==> lo.value <= x)
      && (hi.Some? ==> hi.value in c && forall x :: x in c ==> x <= hi.value)
  {
    hide TallyOf, Column, CellF64;
    NoExtremes(f);
    if rows != [] {
      var front, row := rows[..|rows| - 1], rows[|rows| - 1];
      ExtremesAreExtreme(f, front);
      ExtremesStep(f, rows);
    }
  }

  lemma NoExtremes(f: string)
    ensures Column(f, []) == [] && TallyOf(Q.Min(f), []) == Low(None) && TallyOf(Q.Max(f), []) == High(None)
  {}

  lemma ExtremesStep(f: string, rows: seq<Row>)
    requires rows != []
    ensures var front, v := rows[..|rows| - 1], CellF64(rows[|rows| - 1], f);
      && TallyOf(Q.Min(f), rows).m == LesserOf(TallyOf(Q.Min(f), front).m, v)
      && TallyOf(Q.Max(f), rows).m == GreaterOf(TallyOf(Q.Max(f), front).m, v)
      && Column(f, rows) == Column(f, front) + if v.Some? then [v.value] else []
  {
    hide CellF64;
  }
}
