// Shards: per-column statistics computed from the rows, and the round-robin split.
module Datasets {
  import opened Prelude
  import opened Numerals
  import opened JsonModel
  import opened QueryModel
  import opened Partials

  datatype ShardStats = ShardStats(numeric: map<string, (Floating, Floating)>)

  datatype Shard = Shard(cid: string, rows: nat, bytes: nat, stats: Option<ShardStats>)

  // ----- statistics -----

  /** The cells present in column `c`, in row order. */
  ghost function Cells(rows: seq<Row>, c: string): seq<Json> {
    if rows == [] then []
    else
      var row := rows[|rows| - 1];
      Cells(rows[..|rows| - 1], c) + if c in row then [row[c]] else []
  }

  ghost predicate AllNumeric(cells: seq<Json>) {
    forall x :: x in cells ==> AsF64(x).Some?
  }

  /** `range` bounds the cells that are not NaN tightly: both ends are attained. A column of NaN
      alone has NaN ends. */
  ghost predicate IsRange(range: (Floating, Floating), cells: seq<Json>) {
    && (forall x :: x in cells && AsF64(x).Some? && !AsF64(x).value.NaN? ==>
          range.0.Le(AsF64(x).value) && AsF64(x).value.Le(range.1))
    && (exists x :: x in cells && AsF64(x) == Some(range.0))
    && (exists x :: x in cells && AsF64(x) == Some(range.1))
  }

  /** Exactly the wholly numeric columns have statistics, and they are the tight range. */
  ghost predicate Describes(numeric: map<string, (Floating, Floating)>, rows: seq<Row>) {
    forall c ::
      && (c in numeric <==> Cells(rows, c) != [] && AllNumeric(Cells(rows, c)))
      && (c in numeric ==> IsRange(numeric[c], Cells(rows, c)))
  }

  ghost predicate Disqualified(mixed: set<string>, rows: seq<Row>) {
    forall c :: c in mixed <==> !AllNumeric(Cells(rows, c))
  }

  lemma CellsPush(rows: seq<Row>, row: Row, c: string, v: Json)
    requires c !in row
    ensures Cells(rows + [row[c := v]], c) == Cells(rows + [row], c) + [v]
    ensures forall d :: d != c ==> Cells(rows + [row[c := v]], d) == Cells(rows + [row], d)
  {
    assert (rows + [row])[..|rows|] == rows && (rows + [row[c := v]])[..|rows|] == rows;
  }

  lemma NumericPush(cells: seq<Json>, v: Json)
    ensures AllNumeric(cells + [v]) <==> AllNumeric(cells) && AsF64(v).Some?
  {
    hide AsF64;
    assert v in cells + [v];
    assert forall x :: x in cells ==> x in cells + [v];
  }

  lemma RangePush(range: (Floating, Floating), cells: seq<Json>, v: Json)
    requires AsF64(v).Some? && (cells == [] || IsRange(range, cells))
    ensures var x := AsF64(v).value;
      IsRange(if cells == [] then (x.Min(x), x.Max(x)) else (range.0.Min(x), range.1.Max(x)), cells + [v])
  {
    hide AsF64;
    assert v in cells + [v];
    if cells != [] {
      var lo :| lo in cells && AsF64(lo) == Some(range.0);
      var hi :| hi in cells && AsF64(hi) == Some(range.1);
      assert lo in cells + [v] && hi in cells + [v];
    }
  }

  /** One step of the scan: a further cell of the current row. */
  lemma StatsStep(numeric: map<string, (Floating, Floating)>, mixed: set<string>, rows: seq<Row>, row: Row,
                  c: string, v: Json, numeric': map<string, (Floating, Floating)>, mixed': set<string>)
    requires Describes(numeric, rows + [row]) && Disqualified(mixed, rows + [row]) && c !in row
    requires c in mixed ==> numeric' == numeric && mixed' == mixed
    requires c !in mixed && AsF64(v).None? ==> numeric' == numeric - {c} && mixed' == mixed + {c}
    requires c !in mixed && AsF64(v).Some? ==>
      var x := AsF64(v).value;
      var old_ := if c in numeric then numeric[c] else (x, x);
      && mixed' == mixed
      && numeric' == numeric[c := (old_.0.Min(x), old_.1.Max(x))]
    ensures Describes(numeric', rows + [row[c := v]]) && Disqualified(mixed', rows + [row[c := v]])
  {
    hide AsF64, AllNumeric, IsRange, Cells;
    CellsPush(rows, row, c, v);
    var cells := Cells(rows + [row], c);
    NumericPush(cells, v);
    if c !in mixed && AsF64(v).Some? {
      RangePush(if c in numeric then numeric[c] else (NaN, NaN), cells, v);
    }
  }

  /** `compute_stats`: scan every cell of every row, dropping a column at its first non-number. */
  method ComputeStats(rows: seq<Row>) returns (stats: ShardStats)
    ensures Describes(stats.numeric, rows)
  {
    hide AsF64, Cells, AllNumeric, IsRange;
    var numeric: map<string, (Floating, Floating)> := map[];
    var mixed: set<string> := {};
    NoRows();
    for n := 0 to |rows|
      invariant Describes(numeric, rows[..n]) && Disqualified(mixed, rows[..n])
    {
      var row := rows[n];
      var todo := row.Keys;
      ghost var part: Row := map[];
      EmptyRow(rows[..n], numeric, mixed);
      while todo != {}
        invariant todo <= row.Keys
        invariant part == map c | c in row && c !in todo :: row[c]
        invariant Describes(numeric, rows[..n] + [part]) && Disqualified(mixed, rows[..n] + [part])
        decreases todo
      {
        var c :| c in todo;
        ghost var numeric0, mixed0 := numeric, mixed;
        if c !in mixed {
          match AsF64(row[c])
          case Some(x) =>
            var e := if c in numeric then numeric[c] else (x, x);
            numeric := numeric[c := (e.0.Min(x), e.1.Max(x))];
          case None =>
            numeric := numeric - {c};
            mixed := mixed + {c};
        }
        StatsStep(numeric0, mixed0, rows[..n], part, c, row[c], numeric, mixed);
        todo := todo - {c};
        part := part[c := row[c]];
      }
      assert part == row;
      assert rows[..n + 1] == rows[..n] + [row];
    }
    assert rows[..|rows|] == rows;
    stats := ShardStats(numeric);
  }

  lemma NoRows()
    ensures Describes(map[], []) && Disqualified({}, [])
  {}

  lemma EmptyRow(rows: seq<Row>, numeric: map<string, (Floating, Floating)>, mixed: set<string>)
    requires Describes(numeric, rows) && Disqualified(mixed, rows)
    ensures Describes(numeric, rows + [map[]]) && Disqualified(mixed, rows + [map[]])
  {
    hide AllNumeric, IsRange;
    assert (rows + [map[]])[..|rows|] == rows;
    assert forall c :: Cells(rows + [map[]], c) == Cells(rows, c);
  }

  /** The cells of a column are exactly those the rows have there. */
  lemma {:induction false} CellsMean(rows: seq<Row>, c: string, v: Json)
    ensures v in Cells(rows, c) <==> exists row :: row in rows && c in row && row[c] == v
  {
    if rows != [] {
      var front, last := rows[..|rows| - 1], rows[|rows| - 1];
      assert rows == front + [last];
      CellsMean(front, c, v);
    }
  }

  lemma {:induction false} CellOfRow(rows: seq<Row>, row: Row, c: string)
    requires row in rows && c in row
    ensures row[c] in Cells(rows, c)
  {
    var n := |rows| - 1;
    if rows[n] != row { CellOfRow(rows[..n], row, c); }
  }

  // ----- sharding -----

  function RoundRobin(rows: seq<Row>, n: nat): (buckets: seq<seq<Row>>)
    requires n > 0
    ensures |buckets| == n
  {
    if rows == [] then seq(n, _ => [])
    else
      var last := |rows| - 1;
      var before := RoundRobin(rows[..last], n);
      before[last % n := before[last % n] + [rows[last]]]
  }

  /** Row i is dealt to shard i mod n, at place i div n. */
  lemma {:induction false} RoundRobinPlaces(rows: seq<Row>, n: nat, i: nat)
    requires n > 0 && i < |rows|
    ensures i / n < |RoundRobin(rows, n)[i % n]| && RoundRobin(rows, n)[i % n][i / n] == rows[i]
  {
    var last := |rows| - 1;
    ShardSize(rows[..last], n, last % n);
    if i < last { RoundRobinPlaces(rows[..last], n, i); } else { NextPlace(last, n); }
  }

  /** How many of the first `total` rows fall to shard `b`. */
  function Share(total: nat, n: nat, b: nat): nat
    requires n > 0
  {
    if total == 0 then 0 else Share(total - 1, n, b) + if (total - 1) % n == b then 1 else 0
  }

  lemma {:induction false} ShardSize(rows: seq<Row>, n: nat, b: nat)
    requires n > 0 && b < n
    ensures |RoundRobin(rows, n)[b]| == Share(|rows|, n, b)
  {
    if rows != [] { ShardSize(rows[..|rows| - 1], n, b); }
  }

  /** Shares are even: by the time row `total` is dealt its shard holds `total / n`. */
  lemma NextPlace(total: nat, n: nat)
    requires n > 0
    ensures Share(total, n, total % n) == total / n
  {
    ShareIs(total, n, total % n);
    hide Share;
    EvenShare(total, n);
  }

  lemma EvenShare(total: nat, n: nat)
    requires n > 0
    ensures (total + n - 1 - total % n) / n == total / n
  {
    var q := total / n;
    assert total == q * n + total % n;
    assert total + n - 1 - total % n == q * n + (n - 1);
    DivideBack(q, n, n - 1);
  }

  lemma DivideBack(q: nat, n: nat, r: nat)
    requires r < n
    ensures (q * n + r) / n == q && (q * n + r) % n == r
  {
    var x := q * n + r;
    assert x == (x / n) * n + x % n;
    SmallMultiple(q - x / n, n);
    assert (q - x / n) * n == x % n - r;
  }

  lemma SmallMultiple(d: int, n: nat)
    requires n > 0
    ensures 0 - n < d * n < n ==> d == 0
  {
    if d >= 1 { assert d * n >= n; }
    if d <= -1 { assert d * n <= 0 - n; }
  }

  lemma {:induction false} ShareIs(total: nat, n: nat, b: nat)
    requires n > 0 && b < n
    ensures Share(total, n, b) == (total + n - 1 - b) / n
  {
    if total > 0 {
      ShareIs(total - 1, n, b);
      var t := total - 1;
      StepShare(t, n, b);
    } else {
      DivideBack(0, n, n - 1 - b);
    }
  }

  lemma StepShare(t: nat, n: nat, b: nat)
    requires n > 0 && b < n
    ensures (t + 1 + n - 1 - b) / n == (t + n - 1 - b) / n + if t % n == b then 1 else 0
  {
    var q, r := t / n, t % n;
    assert t == q * n + r;
    if r == b {
      DivideBack(q, n, n - 1);
      NextQuotient(q, n, 0);
    } else if r < b {
      DivideBack(q, n, r + n - b);
      DivideBack(q, n, r + n - 1 - b);
    } else {
      NextQuotient(q, n, r - b);
      NextQuotient(q, n, r - 1 - b);
    }
  }

  lemma NextQuotient(q: nat, n: nat, r: nat)
    requires r < n
    ensures (q * n + n + r) / n == q + 1
  {
    DivideBack(q + 1, n, r);
    assert (q + 1) * n == q * n + n;
  }

  /** `shard_rows`: deal the rows out one by one; a shard count of zero is an error. */
  method ShardRows(rows: seq<Row>, n: nat) returns (r: Option<seq<seq<Row>>>)
    ensures n == 0 ==> r == None
    ensures n > 0 ==> r == Some(RoundRobin(rows, n))
  {
    if n == 0 { return None; }
    var buckets: seq<seq<Row>> := seq(n, _ => []);
    for i := 0 to |rows|
      invariant |buckets| == n
      invariant buckets == RoundRobin(rows[..i], n)
    {
      buckets := buckets[i % n := buckets[i % n] + [rows[i]]];
      assert rows[..i + 1][..i] == rows[..i];
    }
    assert rows[..|rows|] == rows;
    r := Some(buckets);
  }

  /** Dealing loses and invents nothing, though it reorders. */
  lemma {:induction false} RoundRobinKeeps(rows: seq<Row>, n: nat)
    requires n > 0
    ensures multiset(Flatten(RoundRobin(rows, n))) == multiset(rows)
  {
    if rows == [] {
      FlattenEmpty(RoundRobin(rows, n));
    } else {
      var last := |rows| - 1;
      var before := RoundRobin(rows[..last], n);
      assert RoundRobin(rows, n) == before[last % n := before[last % n] + [rows[last]]];
      assert multiset(rows) == multiset(rows[..last]) + multiset([rows[last]]) by {
        assert rows == rows[..last] + [rows[last]];
      }
      hide Flatten, RoundRobin;
      RoundRobinKeeps(rows[..last], n);
      FlattenPush(before, last % n, [rows[last]]);
    }
  }

  /** Sharding into any positive number of shards, mapping each and reducing gives the partial of
      the unsharded rows: identically where Fits holds, up to the lane of integer sums always. */
  lemma ShardCountInvariant(q: Query, show: Json -> string, rows: seq<Row>, n: nat)
    requires n > 0
    ensures var parts := Map(b => MapShard(q, show, b), RoundRobin(rows, n));
      && WidenedGroups(ReduceGroups(parts)) == WidenedGroups(MapGroups(q, show, rows))
      && (Fits(q, show, rows) ==> ReduceGroups(parts) == MapGroups(q, show, rows))
  {
    hide Fits, Answers, RoundRobin, WidenedGroups, MapGroups, ReduceGroups;
    var data := RoundRobin(rows, n);
    var parts := Map(b => MapShard(q, show, b), data);
    forall i | 0 <= i < n ensures Answers(parts[i].groups, q, show, data[i]) {
      MapAnswers(q, show, data[i]);
    }
    ReduceAnswers(q, show, parts, data);
    RoundRobinKeeps(rows, n);
    AnswersPermute(q, show, ReduceGroups(parts), Flatten(data), rows);
    MapAnswers(q, show, rows);
    SameAnswer(q, show, rows, ReduceGroups(parts), MapGroups(q, show, rows));
  }
}
