// When the lane of an integer sum depends on how the rows were split and ordered: exactly when some
// group's cells are all integers whose total fits i128 but whose gains or losses alone do not.
module Lanes {
  import opened Prelude
  import opened Numerals
  import opened JsonModel
  import opened QueryModel
  import opened Accumulators
  import opened Partials

  // ----- one accumulator, folded over the rows of its group -----

  function Folded(agg: Agg, rows: seq<Row>): Accum {
    if rows == [] then Zero(agg) else Fold(agg, Folded(agg, rows[..|rows| - 1]), rows[|rows| - 1])
  }

  /** Within a group every accumulator is its aggregate folded over the group's rows. */
  lemma {:induction false} MapIsFold(q: Query, show: Json -> string, rows: seq<Row>, k: Key, i: nat)
    requires i < |q.aggregates|
    ensures k in MapGroups(q, show, rows) <==> Members(q, show, rows, k) != []
    ensures k in MapGroups(q, show, rows) ==>
      && |MapGroups(q, show, rows)[k]| == |q.aggregates|
      && MapGroups(q, show, rows)[k][i] == Folded(q.aggregates[i], Members(q, show, rows, k))
  {
    hide Fold, Zero;
    if rows != [] {
      var front, row := rows[..|rows| - 1], rows[|rows| - 1];
      MapIsFold(q, show, front, k, i);
      if q.Keeps(row) && q.GroupKey(show, row) == k {
        assert Members(q, show, rows, k)[..|Members(q, show, front, k)|] == Members(q, show, front, k);
      } else {
        assert Members(q, show, rows, k) == Members(q, show, front, k);
      }
    }
  }

  // ----- integer cells -----

  /** The cell of `row` counts as an integer in the i128 range, or not at all. */
  predicate Whole(f: string, row: Row) {
    match CellNumber(row, f)
    case None => true
    case Some(Int(i)) => I128_MIN <= i <= I128_MAX
    case Some(Float(_)) => false
  }

  function Units(f: string, row: Row): int {
    match CellNumber(row, f)
    case Some(Int(i)) => i
    case _ => 0
  }

  function TotalUnits(f: string, rows: seq<Row>): int {
    if rows == [] then 0 else TotalUnits(f, rows[..|rows| - 1]) + Units(f, rows[|rows| - 1])
  }

  ghost predicate AllWhole(f: string, rows: seq<Row>) {
    forall row :: row in rows ==> Whole(f, row)
  }

  function Gains(f: string, rows: seq<Row>): seq<Row> {
    Filter(rows, (row: Row) => Units(f, row) >= 0)
  }

  function Losses(f: string, rows: seq<Row>): seq<Row> {
    Filter(rows, (row: Row) => Units(f, row) < 0)
  }

  /** In the integer lane the state is the exact total. */
  lemma {:induction false} IntegerLane(f: string, rows: seq<Row>)
    requires AllWhole(f, rows)
    ensures Folded(Agg.Sum(f), rows).IntSum? || Folded(Agg.Sum(f), rows).Sum?
    ensures Folded(Agg.Sum(f), rows).IntSum? ==>
      Folded(Agg.Sum(f), rows).i == TotalUnits(f, rows) && I128_MIN <= TotalUnits(f, rows) <= I128_MAX
  {
    hide CellNumber;
    if rows != [] {
      IntegerLane(f, rows[..|rows| - 1]);
      assert Whole(f, rows[|rows| - 1]);
    }
  }

  /** The integer lane, once left, is not entered again. */
  lemma {:induction false} LaneStaysLeft(f: string, a: seq<Row>, b: seq<Row>)
    requires Folded(Agg.Sum(f), a).Sum?
    ensures Folded(Agg.Sum(f), a + b).Sum?
  {
    hide CellNumber;
    if b == [] {
      assert a + b == a;
    } else {
      assert (a + b)[..|a + b| - 1] == a + b[..|b| - 1];
      LaneStaysLeft(f, a, b[..|b| - 1]);
    }
  }

  /** One more whole cell keeps the integer lane if the new total fits. */
  lemma StayInLane(f: string, done: seq<Row>, row: Row)
    requires Folded(Agg.Sum(f), done).IntSum? && Whole(f, row)
    requires I128_MIN <= Folded(Agg.Sum(f), done).i + Units(f, row) <= I128_MAX
    ensures Folded(Agg.Sum(f), done + [row]) == IntSum(Folded(Agg.Sum(f), done).i + Units(f, row))
  {
    hide CellNumber;
    assert (done + [row])[..|done|] == done;
    hide Folded;
  }

  lemma {:induction false} OneSign(f: string, rows: seq<Row>)
    ensures (forall row :: row in rows ==> Units(f, row) >= 0) ==> TotalUnits(f, rows) >= 0
    ensures (forall row :: row in rows ==> Units(f, row) <= 0) ==> TotalUnits(f, rows) <= 0
  {
    hide Units;
    if rows != [] { OneSign(f, rows[..|rows| - 1]); }
  }

  // ----- an order that stays in the integer lane -----

  /** Alternating against the sign of the running total, whole cells whose total fits can always be
      ordered so that no partial sum overflows. */
  lemma {:induction false} Interleave(f: string, done: seq<Row>, gains: seq<Row>, losses: seq<Row>)
    returns (order: seq<Row>)
    requires Folded(Agg.Sum(f), done).IntSum? && I128_MIN <= Folded(Agg.Sum(f), done).i <= I128_MAX
    requires AllWhole(f, gains) && AllWhole(f, losses)
    requires forall row :: row in gains ==> Units(f, row) >= 0
    requires forall row :: row in losses ==> Units(f, row) <= 0
    requires I128_MIN <= Folded(Agg.Sum(f), done).i + TotalUnits(f, gains) + TotalUnits(f, losses) <= I128_MAX
    ensures multiset(order) == multiset(gains) + multiset(losses)
    ensures Folded(Agg.Sum(f), done + order).IntSum?
    decreases |gains| + |losses|
  {
    hide Folded, Units, Whole;
    var c := Folded(Agg.Sum(f), done).i;
    assert gains != [] ==> gains == gains[..|gains| - 1] + [gains[|gains| - 1]];
    assert losses != [] ==> losses == losses[..|losses| - 1] + [losses[|losses| - 1]];
    if gains == [] && losses == [] {
      order := [];
      assert done + order == done;
    } else if losses == [] || (c < 0 && gains != []) {
      var front, row := gains[..|gains| - 1], gains[|gains| - 1];
      assert row in gains;
      OneSign(f, front);
      InRangeUnits(f, row);
      StayInLane(f, done, row);
      var rest := Interleave(f, done + [row], front, losses);
      order := Next(done, front, row, losses, rest);
    } else {
      var front, row := losses[..|losses| - 1], losses[|losses| - 1];
      assert row in losses;
      OneSign(f, front);
      InRangeUnits(f, row);
      StayInLane(f, done, row);
      var rest := Interleave(f, done + [row], gains, front);
      order := Next(done, front, row, gains, rest);
    }
  }

  /** Putting the row taken off the end of one part in front of the ordered rest. */
  lemma Next(done: seq<Row>, front: seq<Row>, row: Row, other: seq<Row>, rest: seq<Row>) returns (order: seq<Row>)
    requires multiset(rest) == multiset(front) + multiset(other)
    ensures multiset(order) == multiset(front + [row]) + multiset(other)
    ensures done + order == done + [row] + rest
  {
    order := [row] + rest;
  }

  lemma InRangeUnits(f: string, row: Row)
    requires Whole(f, row)
    ensures I128_MIN <= Units(f, row) <= I128_MAX
  {}

  // ----- the tally of whole cells -----

  lemma {:induction false} FilterCount<T>(s: seq<T>, keep: T -> bool, x: T)
    ensures multiset(Filter(s, keep))[x] == if keep(x) then multiset(s)[x] else 0
  {
    if s != [] {
      FilterCount(s[..|s| - 1], keep, x);
      assert s == s[..|s| - 1] + [s[|s| - 1]];
    }
  }

  lemma SplitKeeps<T(!new)>(s: seq<T>, keep: T -> bool, drop: T -> bool)
    requires forall x :: keep(x) != drop(x)
    ensures multiset(Filter(s, keep)) + multiset(Filter(s, drop)) == multiset(s)
  {
    hide Filter;
    forall x ensures multiset(Filter(s, keep))[x] + multiset(Filter(s, drop))[x] == multiset(s)[x] {
      FilterCount(s, keep, x);
      FilterCount(s, drop, x);
    }
  }

  /** JSON integers are 64-bit. */
  ghost predicate JsonIntegers(rows: seq<Row>) {
    forall row, c :: row in rows && c in row ==> JsonInteger(row[c])
  }

  predicate JsonInteger(v: Json) {
    v.Number? && v.n.Int? ==> I64_MIN <= v.n.i <= U64_MAX
  }

  /** The tally of whole cells with these gains and (negative) losses. */
  ghost function WholeTally(gains: int, losses: int): Tally {
    Total(true, gains as real, (-losses) as real)
  }

  lemma PlusWhole(a: int, b: int, c: int, d: int)
    ensures Plus(WholeTally(a, b), WholeTally(c, d)) == WholeTally(a + c, b + d)
  {}

  lemma IntegerIsWhole(f: string, row: Row)
    requires JsonIntegers([row])
    requires RowTally(Agg.Sum(f), row).integral
    ensures Whole(f, row)
    ensures RowTally(Agg.Sum(f), row)
         == WholeTally(if Units(f, row) >= 0 then Units(f, row) else 0, if Units(f, row) < 0 then Units(f, row) else 0)
  {
    hide ParseF64, ParseInt, Trim;
    assert row in [row];
    assert f in row ==> JsonInteger(row[f]);
  }

  lemma SplitPush(f: string, front: seq<Row>, row: Row)
    ensures TotalUnits(f, Gains(f, front + [row])) == TotalUnits(f, Gains(f, front))
        + if Units(f, row) >= 0 then Units(f, row) else 0
    ensures TotalUnits(f, Losses(f, front + [row])) == TotalUnits(f, Losses(f, front))
        + if Units(f, row) < 0 then Units(f, row) else 0
  {
    hide Units, TotalUnits;
    assert (front + [row])[..|front|] == front;
    PushUnits(f, Gains(f, front), row);
    PushUnits(f, Losses(f, front), row);
    assert Gains(f, front) + [] == Gains(f, front) && Losses(f, front) + [] == Losses(f, front);
  }

  lemma IntegralStep(f: string, front: seq<Row>, row: Row)
    ensures var t, last := TallyOf(Agg.Sum(f), front), RowTally(Agg.Sum(f), row);
      && TallyOf(Agg.Sum(f), front + [row]) == Plus(t, last)
      && (Plus(t, last).integral ==> t.integral && last.integral)
  {
    hide RowTally;
    assert (front + [row])[..|front|] == front;
    RowKind(Agg.Sum(f), row);
  }

  lemma AllWholePush(f: string, front: seq<Row>, row: Row)
    requires AllWhole(f, front) && Whole(f, row)
    ensures AllWhole(f, front + [row])
  {
    hide Whole;
  }

  lemma JsonIntegersSplit(front: seq<Row>, row: Row)
    requires JsonIntegers(front + [row])
    ensures JsonIntegers(front) && JsonIntegers([row])
  {
    hide JsonInteger;
    assert forall r :: r in front || r == row ==> r in front + [row];
  }

  /** The cells are whole, and the tally of their sum is that of their gains and losses. */
  ghost predicate WholeColumn(f: string, rows: seq<Row>) {
    && AllWhole(f, rows)
    && TallyOf(Agg.Sum(f), rows) == WholeTally(TotalUnits(f, Gains(f, rows)), TotalUnits(f, Losses(f, rows)))
  }

  lemma WholePush(f: string, front: seq<Row>, row: Row)
    requires WholeColumn(f, front) && JsonIntegers([row]) && RowTally(Agg.Sum(f), row).integral
    ensures WholeColumn(f, front + [row])
  {
    hide JsonIntegers, RowTally, Units, TotalUnits, Gains, Losses, WholeTally, Plus, AllWhole, TallyOf;
    IntegralStep(f, front, row);
    IntegerIsWhole(f, row);
    AllWholePush(f, front, row);
    SplitPush(f, front, row);
    var u := Units(f, row);
    PlusWhole(TotalUnits(f, Gains(f, front)), TotalUnits(f, Losses(f, front)),
              if u >= 0 then u else 0, if u < 0 then u else 0);
  }

  /** The gains and losses of an integral tally are the totals of its positive and negative rows. */
  lemma {:induction false} TallyOfWhole(f: string, rows: seq<Row>)
    requires JsonIntegers(rows) && TallyOf(Agg.Sum(f), rows).integral
    ensures WholeColumn(f, rows)
  {
    NothingSplit(f);
    hide WholeColumn, JsonIntegers, TallyOf, RowTally, Plus;
    if rows != [] {
      var front, row := rows[..|rows| - 1], rows[|rows| - 1];
      assert rows == front + [row];
      JsonIntegersSplit(front, row);
      IntegralStep(f, front, row);
      TallyOfWhole(f, front);
      WholePush(f, front, row);
    }
  }

  lemma NothingSplit(f: string)
    ensures WholeColumn(f, [])
  {}

  lemma PushUnits(f: string, rows: seq<Row>, row: Row)
    ensures TotalUnits(f, rows + [row]) == TotalUnits(f, rows) + Units(f, row)
  {
    assert (rows + [row])[..|rows|] == rows;
  }

  /** Unsettled whole cells fold to different lanes in different orders. */
  lemma BothLanes(f: string, rows: seq<Row>) returns (left: seq<Row>, kept: seq<Row>)
    requires JsonIntegers(rows) && !Settled(TallyOf(Agg.Sum(f), rows))
    ensures multiset(left) == multiset(rows) && multiset(kept) == multiset(rows)
    ensures Folded(Agg.Sum(f), left).Sum? && Folded(Agg.Sum(f), kept).IntSum?
  {
    hide TallyOf, Settled, Units, TotalUnits, AllWhole, Gains, Losses, Fold;
    assert Folded(Agg.Sum(f), []) == IntSum(0);
    hide Folded;
    WholeParts(f, rows);
    left := LeaveLane(f, Gains(f, rows), Losses(f, rows));
    kept := Interleave(f, [], Gains(f, rows), Losses(f, rows));
    assert [] + kept == kept;
  }

  /** Folding the part that does not fit first leaves the integer lane. */
  lemma LeaveLane(f: string, gains: seq<Row>, losses: seq<Row>) returns (left: seq<Row>)
    requires AllWhole(f, gains) && AllWhole(f, losses)
    requires TotalUnits(f, gains) > I128_MAX || TotalUnits(f, losses) < I128_MIN
    ensures multiset(left) == multiset(gains) + multiset(losses)
    ensures Folded(Agg.Sum(f), left).Sum?
  {
    hide Folded, TotalUnits, AllWhole;
    IntegerLane(f, gains);
    IntegerLane(f, losses);
    if TotalUnits(f, gains) > I128_MAX {
      LaneStaysLeft(f, gains, losses);
      left := gains + losses;
    } else {
      LaneStaysLeft(f, losses, gains);
      left := losses + gains;
    }
  }

  /** Unsettled rows are whole cells whose total fits i128 but whose gains or losses do not. */
  lemma WholeParts(f: string, rows: seq<Row>)
    requires JsonIntegers(rows) && !Settled(TallyOf(Agg.Sum(f), rows))
    ensures var gains, losses := Gains(f, rows), Losses(f, rows);
      && multiset(gains) + multiset(losses) == multiset(rows)
      && AllWhole(f, gains) && AllWhole(f, losses)
      && (forall row :: row in gains ==> Units(f, row) >= 0)
      && (forall row :: row in losses ==> Units(f, row) <= 0)
      && (TotalUnits(f, gains) > I128_MAX || TotalUnits(f, losses) < I128_MIN)
      && I128_MIN <= TotalUnits(f, gains) + TotalUnits(f, losses) <= I128_MAX
  {
    TallyOfWhole(f, rows);
    hide TotalUnits, Units, Whole, TallyOf;
    FilterMembers(rows, (row: Row) => Units(f, row) >= 0);
    FilterMembers(rows, (row: Row) => Units(f, row) < 0);
    SplitKeeps(rows, (row: Row) => Units(f, row) >= 0, (row: Row) => Units(f, row) < 0);
  }

  // ----- a whole query -----

  /** A group's rows may come first, in any order, without changing the data. */
  lemma Regroup(q: Query, show: Json -> string, rows: seq<Row>, k: Key, order: seq<Row>) returns (rows': seq<Row>)
    requires multiset(order) == multiset(Members(q, show, rows, k))
    ensures multiset(rows') == multiset(rows)
    ensures Members(q, show, rows', k) == order
  {
    var member := (row: Row) => q.Keeps(row) && q.GroupKey(show, row) == k;
    var other := (row: Row) => !(q.Keeps(row) && q.GroupKey(show, row) == k);
    MembersFilter(q, show, rows, k, member);
    SplitKeeps(rows, member, other);
    FilterMembers(rows, member);
    FilterMembers(rows, other);
    rows' := order + Filter(rows, other);
    MembersConcat(q, show, order, Filter(rows, other), k);
    forall row | row in order ensures member(row) { assert row in multiset(order); }
    AllMembers(q, show, order, k);
    NoneMembers(q, show, Filter(rows, other), k);
    assert order + [] == order;
  }

  lemma {:induction false} MembersFilter(q: Query, show: Json -> string, rows: seq<Row>, k: Key, member: Row -> bool)
    requires forall row :: member(row) == (q.Keeps(row) && q.GroupKey(show, row) == k)
    ensures Members(q, show, rows, k) == Filter(rows, member)
  {
    if rows != [] { MembersFilter(q, show, rows[..|rows| - 1], k, member); }
  }

  lemma {:induction false} AllMembers(q: Query, show: Json -> string, rows: seq<Row>, k: Key)
    requires forall row :: row in rows ==> q.Keeps(row) && q.GroupKey(show, row) == k
    ensures Members(q, show, rows, k) == rows
  {
    if rows != [] {
      AllMembers(q, show, rows[..|rows| - 1], k);
      assert rows == rows[..|rows| - 1] + [rows[|rows| - 1]];
    }
  }

  lemma {:induction false} NoneMembers(q: Query, show: Json -> string, rows: seq<Row>, k: Key)
    requires forall row :: row in rows ==> !(q.Keeps(row) && q.GroupKey(show, row) == k)
    ensures Members(q, show, rows, k) == []
  {
    if rows != [] { NoneMembers(q, show, rows[..|rows| - 1], k); }
  }

  /** An unsettled group has two orders of the same rows with different partials. */
  lemma UnsettledDiffers(q: Query, show: Json -> string, rows: seq<Row>, k: Key, i: nat)
    returns (a: seq<Row>, b: seq<Row>)
    requires JsonIntegers(rows) && i < |q.aggregates|
    requires !Settled(TallyOf(q.aggregates[i], Members(q, show, rows, k)))
    ensures multiset(a) == multiset(rows) && multiset(b) == multiset(rows)
    ensures MapGroups(q, show, a) != MapGroups(q, show, b)
  {
    var agg, members := q.aggregates[i], Members(q, show, rows, k);
    assert agg.Sum?;
    MembersAreRows(q, show, rows, k);
    assert !Settled(TallyOf(Agg.Sum(agg.field), members));
    var left, kept := BothLanes(agg.field, members);
    a := Regroup(q, show, rows, k, left);
    b := Regroup(q, show, rows, k, kept);
    MapIsFold(q, show, a, k, i);
    MapIsFold(q, show, b, k, i);
    assert Folded(agg, []) == IntSum(0);
    assert left != [];
    assert |multiset(left)| == |multiset(kept)|;
  }

  lemma MembersAreRows(q: Query, show: Json -> string, rows: seq<Row>, k: Key)
    requires JsonIntegers(rows)
    ensures JsonIntegers(Members(q, show, rows, k))
  {
    var member := (row: Row) => q.Keeps(row) && q.GroupKey(show, row) == k;
    MembersFilter(q, show, rows, k, member);
    FilterMembers(rows, member);
  }

  lemma OneScan(q: Query, show: Json -> string, rows: seq<Row>)
    ensures WorkRows(Scan(rows)) == rows && WorkGroups(q, show, Scan(rows)) == MapGroups(q, show, rows)
  {}

  /** Every plan over every permutation of the rows gives the very same partial if and only if each
      all-integer sum has a total outside i128 or gains and losses inside it. */
  lemma FitsExact(q: Query, show: Json -> string, rows: seq<Row>)
    requires JsonIntegers(rows)
    ensures Fits(q, show, rows) <==>
      forall w :: multiset(WorkRows(w)) == multiset(rows) ==> WorkGroups(q, show, w) == MapGroups(q, show, rows)
  {
    hide WorkRows, WorkGroups, MapGroups, Members, TallyOf, Settled;
    if Fits(q, show, rows) {
      forall w | multiset(WorkRows(w)) == multiset(rows)
        ensures WorkGroups(q, show, w) == MapGroups(q, show, rows)
      {
        AnyPlanSameAnswer(q, show, w, rows);
      }
    } else {
      var k, i :| 0 <= i < |q.aggregates| && !Settled(TallyOf(q.aggregates[i], Members(q, show, rows, k)));
      var a, b := UnsettledDiffers(q, show, rows, k, i);
      OneScan(q, show, a);
      OneScan(q, show, b);
      assert multiset(WorkRows(Scan(a))) == multiset(rows) && multiset(WorkRows(Scan(b))) == multiset(rows);
    }
  }

  // ----- past the bound the lane does depend on the order -----

  function SumQuery(): Query {
    Query("t", [Agg.Sum("v")], True, [], [], None, None)
  }

  function Cell(v: Json): Row {
    map["v" := v]
  }

  /** The one group of a global sum holds the column folded. */
  lemma GlobalSum(show: Json -> string, rows: seq<Row>)
    requires rows != []
    ensures [] in MapGroups(SumQuery(), show, rows)
    ensures MapGroups(SumQuery(), show, rows)[[]] == [Folded(Agg.Sum("v"), rows)]
  {
    hide MapGroups, Folded, Members;
    AllMembers(SumQuery(), show, rows, []);
    MapIsFold(SumQuery(), show, rows, [], 0);
    var accs := MapGroups(SumQuery(), show, rows)[[]];
    assert accs == [accs[0]];
  }

  lemma TrimDigits(n: nat)
    ensures Trim(ShowNat(n)) == ShowNat(n)
  {
    var s := ShowNat(n);
    assert IsDigit(s[0]) && IsDigit(s[|s| - 1]);
  }

  lemma FoldCell(acc: Accum, v: Json, i: int)
    requires AsNumber(v) == Some(Int(i))
    ensures Fold(Agg.Sum("v"), acc, Cell(v)) == FoldSum(acc, Int(i))
  {}

  lemma ThreeSteps(u: Json, v: Json, w: Json, i: int, j: int, k: int)
    requires AsNumber(u) == Some(Int(i)) && AsNumber(v) == Some(Int(j)) && AsNumber(w) == Some(Int(k))
    ensures Folded(Agg.Sum("v"), [Cell(u), Cell(v), Cell(w)])
         == FoldSum(FoldSum(FoldSum(IntSum(0), Int(i)), Int(j)), Int(k))
  {
    hide AsNumber, FoldSum, Fold;
    var a := FoldSum(IntSum(0), Int(i));
    FoldCell(IntSum(0), u, i);
    FoldCell(a, v, j);
    FoldCell(FoldSum(a, Int(j)), w, k);
    var one, two, three := [Cell(u)], [Cell(u), Cell(v)], [Cell(u), Cell(v), Cell(w)];
    assert one[..0] == [] && two[..1] == one && three[..2] == two;
    assert Folded(Agg.Sum("v"), one) == a;
    assert Folded(Agg.Sum("v"), two) == FoldSum(a, Int(j));
  }

  lemma DifferentLanes()
    ensures FoldSum(FoldSum(FoldSum(IntSum(0), Int(I128_MAX)), Int(1)), Int(-1)).Sum?
    ensures FoldSum(FoldSum(FoldSum(IntSum(0), Int(I128_MAX)), Int(-1)), Int(1)).IntSum?
  {}

  lemma DigitsCell(n: nat)
    requires n <= I128_MAX
    ensures AsNumber(String(ShowNat(n))) == Some(Int(n))
  {
    hide ShowNat, Trim, ParseInt;
    TrimDigits(n);
    ParseShowInt(n);
    assert ShowInt(n) == ShowNat(n);
  }

  /** With one cell at the top of the i128 range, adding 1 then -1 overflows into the float lane
      and adding -1 then 1 does not: the two orders give different partials of the same rows. */
  lemma OverflowLaneDependsOnOrder(show: Json -> string)
    ensures var top, up, down := Cell(String(ShowNat(I128_MAX))), Cell(Number(Int(1))), Cell(Number(Int(-1)));
      && multiset([top, up, down]) == multiset([top, down, up])
      && MapGroups(SumQuery(), show, [top, up, down]) != MapGroups(SumQuery(), show, [top, down, up])
  {
    hide ShowNat, FoldSum, ParseI128, Trim, ParseF64;
    DigitsCell(I128_MAX);
    DifferentLanes();
    var t, one, minus := String(ShowNat(I128_MAX)), Number(Int(1)), Number(Int(-1));
    ThreeSteps(t, one, minus, I128_MAX, 1, -1);
    ThreeSteps(t, minus, one, I128_MAX, -1, 1);
    hide Folded, MapGroups, AsNumber;
    GlobalSum(show, [Cell(t), Cell(one), Cell(minus)]);
    GlobalSum(show, [Cell(t), Cell(minus), Cell(one)]);
  }
}
