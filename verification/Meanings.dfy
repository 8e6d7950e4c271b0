// What the results of a run say, in plain terms of the rows: which groups there are, what each value
// is of the cells of its group, and in which order and how far the groups are listed.
module Meanings {
  import opened Prelude
  import opened Numerals
  import opened JsonModel
  import K = KahanSums
  import opened QueryModel
  import opened Accumulators
  import opened Partials
  import opened Results
  import opened Sorting
  import opened Datasets
  import opened Planning
  import opened Failover
  import opened Engine
  import opened Refinement

  // ----- values of a group -----

  /** The numbers SUM adds up: see NumberMeans. */
  ghost function Addends(f: string, rows: seq<Row>): seq<real> {
    if rows == [] then []
    else
      var row := rows[|rows| - 1];
      Addends(f, rows[..|rows| - 1])
      + if f in row && AsNumber(row[f]).Some? then [AsNumber(row[f]).value.Real()] else []
  }

  /** The numeric cells of a column: see NumberMeans. */
  ghost function Reals(f: string, rows: seq<Row>): seq<real> {
    if rows == [] then []
    else
      var row := rows[|rows| - 1];
      Reals(f, rows[..|rows| - 1]) + if f in row && AsReal(row[f]).Some? then [AsReal(row[f]).value] else []
  }

  lemma {:induction false} RealsAreColumn(f: string, rows: seq<Row>)
    ensures Column(f, rows) == Reals(f, rows)
  {
    hide AsReal;
    if rows != [] { RealsAreColumn(f, rows[..|rows| - 1]); }
  }

  /** The number `v` stands for `x`, as integer or float. */
  predicate IsNumber(v: Json, x: real) {
    v.Number? && v.n.Real() == x
  }

  /** What the value of an aggregate over a group's rows is: their number; the sum of the addends; the
      least or greatest numeric cell, or null without any; the sum of the numeric cells over their
      number, or null without any. Counts saturate at 2^64-1. */
  ghost predicate Means(agg: Agg, rows: seq<Row>, v: Json) {
    match agg
    case Count => IsNumber(v, MinInt(|rows|, U64_MAX) as real)
    case Sum(f) => IsNumber(v, K.SumOf(Addends(f, rows)))
    case Min(f) =>
      var c := Reals(f, rows);
      if c == [] then v == Null else v.Number? && v.n.Real() in c && forall x :: x in c ==> v.n.Real() <= x
    case Max(f) =>
      var c := Reals(f, rows);
      if c == [] then v == Null else v.Number? && v.n.Real() in c && forall x :: x in c ==> x <= v.n.Real()
    case Avg(f) =>
      var c := Reals(f, rows);
      if c == [] then v == Null
      else v.Number? && v.n.Real() * (MinInt(|c|, U64_MAX) as real) == K.SumOf(c)
  }

  lemma SumPush(s: seq<real>, x: real)
    ensures K.SumOf(s + [x]) == K.SumOf(s) + x && K.SumOf(s + []) == K.SumOf(s)
  {
    K.SumConcat(s, [x]);
    assert s + [] == s;
  }

  /** The tallies are plain sums and counts of the cells. */
  lemma {:induction false} SumTally(f: string, rows: seq<Row>)
    ensures var t := TallyOf(Agg.Sum(f), rows); t.gain - t.loss == K.SumOf(Addends(f, rows))
  {
    hide K.SumOf, AsNumber;
    if rows == [] {
      NoSum();
    } else {
      var front, row := rows[..|rows| - 1], rows[|rows| - 1];
      SumTally(f, front);
      SumPush(Addends(f, front), if f in row && AsNumber(row[f]).Some? then AsNumber(row[f]).value.Real() else 0.0);
    }
  }

  lemma NoSum()
    ensures K.SumOf([]) == 0.0
  {}

  lemma {:induction false} AvgTally(f: string, rows: seq<Row>)
    ensures TallyOf(Agg.Avg(f), rows) == Mean(K.SumOf(Column(f, rows)), |Column(f, rows)|)
  {
    hide K.SumOf, CellF64;
    if rows == [] {
      NoSum();
    } else {
      var front, row := rows[..|rows| - 1], rows[|rows| - 1];
      AvgTally(f, front);
      SumPush(Column(f, front), if CellF64(row, f).Some? then CellF64(row, f).value else 0.0);
    }
  }

  lemma Divided(total: real, n: nat, x: real)
    requires n > 0 && x == total / n as real
    ensures x * (n as real) == total
  {}

  /** A state that stands for a group's rows is finalised to what its aggregate means. */
  lemma FinalizedMeans(agg: Agg, acc: Accum, rows: seq<Row>)
    requires Represents(acc, TallyOf(agg, rows))
    ensures Means(agg, rows, FinalizeValue(acc))
  {
    hide TallyOf, Addends, Column, Reals, K.SumOf;
    if !agg.Count? { RealsAreColumn(agg.field, rows); }
    match agg
    case Count => CountTally(rows);
    case Sum(f) => SumTally(f, rows);
    case Min(f) =>
      ExtremesAreExtreme(f, rows);
      assert TallyOf(agg, rows).Low?;
    case Max(f) =>
      ExtremesAreExtreme(f, rows);
      assert TallyOf(agg, rows).High?;
    case Avg(f) =>
      AvgTally(f, rows);
      var n := MinInt(|Column(f, rows)|, U64_MAX);
      if n > 0 { Divided(K.SumOf(Column(f, rows)), n, K.SumOf(Column(f, rows)) / n as real); }
  }

  /** In the mapped groups every aggregate's value, under its output name, is what it means of the
      group's rows. */
  lemma ValuesMean(q: Query, show: Json -> string, rows: seq<Row>, k: Key, i: nat)
    requires k in MapGroups(q, show, rows) && i < |q.aggregates|
    ensures var values, name := Values(q.aggregates, MapGroups(q, show, rows)[k]), q.aggregates[i].OutputName();
      name in values && Means(q.aggregates[i], Members(q, show, rows, k), values[name])
  {
    hide Means, FinalizeValue, Represents, TallyOf, Members, MapGroups, Values;
    ResultNamed(q, show, rows, k, i);
    MapAnswers(q, show, rows);
    FinalizedMeans(q.aggregates[i], MapGroups(q, show, rows)[k][i], Members(q, show, rows, k));
  }

  // ----- rows of a result -----

  /** The keys of the groups: those of the rows the filter keeps. */
  ghost function GroupKeys(q: Query, show: Json -> string, rows: seq<Row>): set<Key> {
    set row | row in rows && q.predicate_.Eval(row) :: q.GroupKey(show, row)
  }

  /** A group has its key's rows, and each aggregate's value of them under its output name. */
  ghost predicate RowMeans(q: Query, show: Json -> string, rows: seq<Row>, g: GroupResult) {
    && g.key in GroupKeys(q, show, rows)
    && forall i :: 0 <= i < |q.aggregates| ==>
         var name := q.aggregates[i].OutputName();
         name in g.values && Means(q.aggregates[i], Members(q, show, rows, g.key), g.values[name])
  }

  /** Under the order keys `a` may stand before `b`: see MayPrecede. */
  ghost predicate InOrder(q: Query, a: GroupResult, b: GroupResult) {
    forall m :: 0 <= m < |q.orderBy| && TieBefore(GroupCell(q.groupBy), q.orderBy, m, a, b) ==>
      MayPrecede(GroupCell(q.groupBy), q.orderBy[m], a, b)
  }

  /** The results list groups with their values, each once, in order, as many as the limit allows; a
      group left out could have stood after every one that is listed. */
  ghost predicate ResultsMean(q: Query, show: Json -> string, rows: seq<Row>, results: seq<GroupResult>) {
    && (forall n :: 0 <= n < |results| ==> RowMeans(q, show, rows, results[n]))
    && (forall m, n :: 0 <= m < n < |results| ==> results[m].key != results[n].key)
    && (forall m, n :: 0 <= m < n < |results| ==> InOrder(q, results[m], results[n]))
    && |results| == UpTo(q.limit, |GroupKeys(q, show, rows)|)
    && (forall k :: k in GroupKeys(q, show, rows) ==> Listed(results, k) || LeftOut(q, show, rows, results, k))
  }

  ghost predicate Listed(results: seq<GroupResult>, k: Key) {
    exists n :: 0 <= n < |results| && results[n].key == k
  }

  ghost predicate LeftOut(q: Query, show: Json -> string, rows: seq<Row>, results: seq<GroupResult>, k: Key) {
    exists g: GroupResult :: FollowsAll(q, show, rows, results, k, g)
  }

  /** The row `g` of group `k` could have stood after all the results. */
  ghost predicate FollowsAll(q: Query, show: Json -> string, rows: seq<Row>, results: seq<GroupResult>, k: Key,
                             g: GroupResult) {
    g.key == k && RowMeans(q, show, rows, g) && forall n :: 0 <= n < |results| ==> InOrder(q, results[n], g)
  }

  lemma {:induction false} MembersFound(q: Query, show: Json -> string, rows: seq<Row>, k: Key)
    ensures Members(q, show, rows, k) != [] <==> k in GroupKeys(q, show, rows)
  {
    hide Query.GroupKey;
    if rows != [] {
      var front, row := rows[..|rows| - 1], rows[|rows| - 1];
      assert rows == front + [row];
      MembersFound(q, show, front, k);
      assert k in GroupKeys(q, show, rows) <==>
        k in GroupKeys(q, show, front) || (q.predicate_.Eval(row) && q.GroupKey(show, row) == k);
    }
  }

  /** The finalised groups of the rows: all of them, once each, with their values. */
  lemma FinalizedRows(q: Query, show: Json -> string, rows: seq<Row>)
    ensures var out := Finalize(MapShard(q, show, rows));
      && (forall n :: 0 <= n < |out| ==> RowMeans(q, show, rows, out[n]))
      && (forall m, n :: 0 <= m < n < |out| ==> out[m].key != out[n].key)
      && (forall k :: k in GroupKeys(q, show, rows) ==> exists n :: 0 <= n < |out| && out[n].key == k)
      && |out| == |GroupKeys(q, show, rows)|
  {
    hide Means, Values, Finalize, MapGroups, Members, GroupKeys, Query.GroupKey;
    var p := MapShard(q, show, rows);
    var keys, out := SortedKeys(p.groups.Keys), Finalize(p);
    FinalizeAt(p);
    SortedKeysAscend(p.groups.Keys);
    MapAnswers(q, show, rows);
    forall k ensures k in p.groups <==> k in GroupKeys(q, show, rows) { MembersFound(q, show, rows, k); }
    forall n | 0 <= n < |out| ensures RowMeans(q, show, rows, out[n]) {
      forall i | 0 <= i < |q.aggregates|
        ensures var name := q.aggregates[i].OutputName();
          name in out[n].values && Means(q.aggregates[i], Members(q, show, rows, keys[n]), out[n].values[name])
      {
        ValuesMean(q, show, rows, keys[n], i);
      }
    }
    hide SortedKeys;
    forall k | k in GroupKeys(q, show, rows) ensures exists n :: 0 <= n < |out| && out[n].key == k {
      assert k in keys;
      var n :| 0 <= n < |keys| && keys[n] == k;
      assert out[n].key == k;
    }
    assert forall k :: k in keys <==> k in GroupKeys(q, show, rows);
    CountedOnce(keys, GroupKeys(q, show, rows));
  }

  // ----- the answer in one place -----

  lemma InOrderAt(q: Query, rows: seq<GroupResult>, m: nat, n: nat)
    requires m < n < |Ordered(GroupCell(q.groupBy), q.orderBy, rows)|
    ensures var full := Ordered(GroupCell(q.groupBy), q.orderBy, rows); InOrder(q, full[m], full[n])
  {
    hide MayPrecede, TieBefore, GroupCell, Ordered;
    var cell, full := GroupCell(q.groupBy), Ordered(GroupCell(q.groupBy), q.orderBy, rows);
    forall i | 0 <= i < |q.orderBy| && TieBefore(cell, q.orderBy, i, full[m], full[n])
      ensures MayPrecede(cell, q.orderBy[i], full[m], full[n])
    {
      OrderMeans(cell, q.orderBy, rows, m, n, i);
    }
  }

  lemma OneShotMeans(q: Query, show: Json -> string, rows: seq<Row>)
    ensures ResultsMean(q, show, rows, OneShot(q, show, rows))
  {
    hide RowMeans, GroupKeys, Finalize, MapShard, Ordered, InOrder, OrderOf, StableSorted;
    var cell, fin := GroupCell(q.groupBy), Finalize(MapShard(q, show, rows));
    var full := Ordered(cell, q.orderBy, fin);
    var results := Limited(full, q.limit);
    FinalizedRows(q, show, rows);
    ShapeIsTop(cell, q.orderBy, q.limit, fin);
    SameRows(fin, full);
    assert OneShot(q, show, rows) == results;
    assert |results| == UpTo(q.limit, |GroupKeys(q, show, rows)|);
    assert forall n :: 0 <= n < |results| ==> RowMeans(q, show, rows, results[n]) by {
      forall n | 0 <= n < |results| ensures RowMeans(q, show, rows, results[n]) {
        assert results[n] in full;
        var j :| 0 <= j < |fin| && fin[j] == results[n];
      }
    }
    assert forall n :: 0 <= n < |results| ==> results[n] == full[n];
    forall m, n | 0 <= m < n < |full| ensures InOrder(q, full[m], full[n]) { InOrderAt(q, fin, m, n); }
    forall k | k in GroupKeys(q, show, rows) ensures Listed(results, k) || LeftOut(q, show, rows, results, k) {
      var n :| 0 <= n < |fin| && fin[n].key == k;
      assert fin[n] in full;
      var j :| 0 <= j < |full| && full[j] == fin[n];
      if j < |results| {
        assert results[j].key == k;
      } else {
        assert FollowsAll(q, show, rows, results, k, full[j]);
      }
    }
  }

  /** Permuting results with distinct keys keeps the rows, and their keys distinct. */
  lemma SameRows(a: seq<GroupResult>, b: seq<GroupResult>)
    requires multiset(a) == multiset(b) && forall m, n :: 0 <= m < n < |a| ==> a[m].key != a[n].key
    ensures |a| == |b| && (forall x :: x in a <==> x in b)
    ensures forall m, n :: 0 <= m < n < |b| ==> b[m].key != b[n].key
  {
    assert |a| == |multiset(a)| == |multiset(b)| == |b|;
    assert forall x :: x in a <==> x in multiset(a);
    assert forall x :: x in b <==> x in multiset(b);
    assert Distinct(a);
    DistinctPermutation(a, b);
    forall m, n | 0 <= m < n < |b| ensures b[m].key != b[n].key {
      assert b[m] in a && b[n] in a;
      var i :| 0 <= i < |a| && a[i] == b[m];
      var j :| 0 <= j < |a| && a[j] == b[n];
    }
  }

  // ----- up to the lane of an integer sum -----

  lemma CellAlike(groupBy: seq<string>, a: GroupResult, b: GroupResult, c: string)
    requires WidenedResult(a) == WidenedResult(b)
    ensures Widen(GroupCell(groupBy)(a, c)) == Widen(GroupCell(groupBy)(b, c))
  {
    var wa, wb := WidenedResult(a), WidenedResult(b);
    assert a.key == wa.key && b.key == wb.key;
    assert c in a.values <==> c in wa.values;
    assert c in b.values <==> c in wb.values;
    assert c in a.values ==> wa.values[c] == Widen(a.values[c]) && wb.values[c] == Widen(b.values[c]);
  }

  lemma OrderAlike(q: Query, a: GroupResult, b: GroupResult, a': GroupResult, b': GroupResult)
    requires WidenedResult(a) == WidenedResult(a') && WidenedResult(b) == WidenedResult(b') && InOrder(q, a', b')
    ensures InOrder(q, a, b)
  {
    hide CellCmp, GroupCell, WidenedResult;
    var cell := GroupCell(q.groupBy);
    forall c ensures CellCmp(cell(a, c), cell(b, c)) == CellCmp(cell(a', c), cell(b', c)) {
      CellAlike(q.groupBy, a, a', c);
      CellAlike(q.groupBy, b, b', c);
      WidenKeepsOrder(cell(a, c), cell(b, c));
      WidenKeepsOrder(cell(a', c), cell(b', c));
    }
    forall m | 0 <= m < |q.orderBy| && TieBefore(cell, q.orderBy, m, a, b)
      ensures MayPrecede(cell, q.orderBy[m], a, b)
    {
      assert TieBefore(cell, q.orderBy, m, a', b');
    }
  }

  lemma MeansAlike(agg: Agg, rows: seq<Row>, v: Json, v': Json)
    requires Widen(v) == Widen(v') && Means(agg, rows, v')
    ensures Means(agg, rows, v)
  {
    hide Addends, Reals, K.SumOf;
    assert v.Number? <==> v'.Number?;
    assert v.Number? ==> v.n.Real() == v'.n.Real();
  }

  lemma RowAlike(q: Query, show: Json -> string, rows: seq<Row>, a: GroupResult, b: GroupResult)
    requires WidenedResult(a) == WidenedResult(b) && RowMeans(q, show, rows, b)
    ensures RowMeans(q, show, rows, a)
  {
    hide Means, GroupKeys, Members, Widen;
    var wa, wb := WidenedResult(a), WidenedResult(b);
    assert a.key == wa.key && b.key == wb.key;
    forall i | 0 <= i < |q.aggregates|
      ensures var name := q.aggregates[i].OutputName();
        name in a.values && Means(q.aggregates[i], Members(q, show, rows, a.key), a.values[name])
    {
      var name := q.aggregates[i].OutputName();
      assert name in b.values && name in wb.values && name in wa.values;
      assert wa.values[name] == Widen(a.values[name]) && wb.values[name] == Widen(b.values[name]);
      MeansAlike(q.aggregates[i], Members(q, show, rows, a.key), a.values[name], b.values[name]);
    }
  }

  lemma WidenedAt(a: seq<GroupResult>, b: seq<GroupResult>)
    requires WidenedResults(a) == WidenedResults(b)
    ensures |a| == |b|
    ensures forall n :: 0 <= n < |a| ==> WidenedResult(a[n]) == WidenedResult(b[n]) && a[n].key == b[n].key
  {
    assert |a| == |WidenedResults(a)| && |b| == |WidenedResults(b)|;
    forall n | 0 <= n < |a| ensures WidenedResult(a[n]) == WidenedResult(b[n]) && a[n].key == b[n].key {
      assert WidenedResults(a)[n] == WidenedResults(b)[n];
      assert a[n].key == WidenedResult(a[n]).key && b[n].key == WidenedResult(b[n]).key;
    }
  }

  lemma ListedAlike(q: Query, show: Json -> string, rows: seq<Row>, a: seq<GroupResult>, b: seq<GroupResult>, k: Key)
    requires WidenedResults(a) == WidenedResults(b)
    requires Listed(b, k) || LeftOut(q, show, rows, b, k)
    ensures Listed(a, k) || LeftOut(q, show, rows, a, k)
  {
    hide RowMeans, InOrder, WidenedResult;
    WidenedAt(a, b);
    if Listed(b, k) {
      var n :| 0 <= n < |b| && b[n].key == k;
      assert a[n].key == k;
    } else {
      var g: GroupResult :| FollowsAll(q, show, rows, b, k, g);
      forall n | 0 <= n < |a| ensures InOrder(q, a[n], g) { OrderAlike(q, a[n], g, b[n], g); }
      assert FollowsAll(q, show, rows, a, k, g);
    }
  }

  /** Results that match those of one place mean what they mean. */
  lemma MatchingMeans(q: Query, show: Json -> string, rows: seq<Row>, results: seq<GroupResult>)
    requires MatchesOneShot(q, show, rows, results)
    ensures ResultsMean(q, show, rows, results)
  {
    var one := OneShot(q, show, rows);
    assert WidenedResults(results) == WidenedResults(one);
    WidenedAt(results, one);
    hide RowMeans, GroupKeys, InOrder, OneShot, WidenedResult, Listed, LeftOut, Fits, WidenedResults;
    OneShotMeans(q, show, rows);
    forall n | 0 <= n < |results| ensures RowMeans(q, show, rows, results[n]) {
      RowAlike(q, show, rows, results[n], one[n]);
    }
    forall m, n | 0 <= m < n < |results| ensures InOrder(q, results[m], results[n]) {
      OrderAlike(q, results[m], results[n], one[m], one[n]);
    }
    forall k | k in GroupKeys(q, show, rows) ensures Listed(results, k) || LeftOut(q, show, rows, results, k) {
      ListedAlike(q, show, rows, results, one, k);
    }
  }

  // ----- main results -----

  /** An Ok run with honest replies, over whatever sharding, window, failures and completion order,
      answers the query over all the rows. */
  lemma RunAnswers(q: Query, show: Json -> string, shards: seq<Shard>, data: seq<seq<Row>>, hosts: seq<string>,
                   score: (string, string) -> nat, w: World<Partial>, cfg: RunConfig, r: Result<RunReport, RunError>)
    requires Stored(shards, data) && SafeLiterals(q.predicate_)
    requires HonestReplies(q, show, LiveData(q, shards, data), w)
    requires RunOutcome(q, shards, hosts, score, w, cfg, r) && r.Ok?
    ensures ResultsMean(q, show, Flatten(data), r.value.results)
  {
    hide *;
    RunRefinesOneShot(q, show, shards, data, hosts, score, w, cfg, r);
    MatchingMeans(q, show, Flatten(data), r.value.results);
  }

  /** So does one whose lying hosts are outvoted on every live shard. */
  lemma ByzantineRunAnswers(q: Query, show: Json -> string, shards: seq<Shard>, data: seq<seq<Row>>, hosts: seq<string>,
                            score: (string, string) -> nat, w: World<Partial>, cfg: RunConfig,
                            r: Result<RunReport, RunError>, liars: set<string>, f: nat)
    requires Stored(shards, data) && SafeLiterals(q.predicate_) && Distinct(hosts)
    requires |liars| <= f
    requires HonestExcept(q, show, Live(q, shards), LiveData(q, shards, data), hosts, score, w, liars)
    requires CopiesOutvote(Live(q, shards), hosts, score, w, cfg, f)
    requires RunOutcome(q, shards, hosts, score, w, cfg, r) && r.Ok?
    ensures ResultsMean(q, show, Flatten(data), r.value.results)
  {
    hide *;
    ByzantineRun(q, show, shards, data, hosts, score, w, cfg, r, liars, f);
    MatchingMeans(q, show, Flatten(data), r.value.results);
  }

  /** When every live shard is served honestly, the run is refused for its groups if and only if a cap is
      set and the rows have more groups than that. */
  lemma GroupCapMeans(q: Query, show: Json -> string, shards: seq<Shard>, data: seq<seq<Row>>, hosts: seq<string>,
                      score: (string, string) -> nat, w: World<Partial>, cfg: RunConfig, r: Result<RunReport, RunError>)
    requires Stored(shards, data) && SafeLiterals(q.predicate_)
    requires HonestReplies(q, show, LiveData(q, shards, data), w)
    requires q.Valid() && hosts != [] && CheckScan(cfg.limits, shards).None? && Live(q, shards) != []
    requires AllServed(w, cfg, score, hosts, Live(q, shards)) && RunOutcome(q, shards, hosts, score, w, cfg, r)
    ensures var groups, cap := |GroupKeys(q, show, Flatten(data))|, cfg.limits.maxResultGroups;
      && (r.Err? <==> 0 < cap < groups)
      && (r.Err? ==> r == Err(Cost(ResultGroups, groups, cap)))
  {
    assert |shards| == |data|;
    hide Stored, SafeLiterals, HonestReplies, CheckScan, Query.Valid, ReduceGroups, GroupKeys, MapShard, Answers;
    hide ShardResult, RankHosts, Live, LiveData, Assemble;
    var live, rows := Live(q, shards), LiveData(q, shards, data);
    LiveDataLength(q, shards, data);
    NoneLive(q, shards);
    var outcomes := LiveOutcomes(w, cfg, score, hosts, live);
    var parts := Map((o: Outcome<Partial>) => o.partial, outcomes);
    forall i | 0 <= i < |parts| ensures parts[i] == MapShard(q, show, rows[i]) {
      HonestLive(q, show, live, rows, hosts, score, w, cfg, i);
    }
    PartsAnswer(q, show, shards, data, parts);
    AnsweredKeys(q, show, Flatten(data), ReduceGroups(parts));
    ReportMeans(q, cfg, outcomes);
  }

  lemma HonestLive(q: Query, show: Json -> string, live: seq<Shard>, rows: seq<seq<Row>>, hosts: seq<string>,
                   score: (string, string) -> nat, w: World<Partial>, cfg: RunConfig, i: nat)
    requires |live| == |rows| && i < |live| && HonestReplies(q, show, rows, w)
    requires LiveResult(w, cfg, score, hosts, live, i).Ok?
    ensures LiveResult(w, cfg, score, hosts, live, i).value.partial == MapShard(q, show, rows[i])
  {
    hide ShardResult, RankHosts, MapShard;
    HonestShard(w, cfg, i, live[i].cid, RankHosts(score, live[i].cid, hosts), MapShard(q, show, rows[i]));
  }

  lemma AnsweredKeys(q: Query, show: Json -> string, rows: seq<Row>, g: Groups)
    requires Answers(g, q, show, rows)
    ensures |g| == |GroupKeys(q, show, rows)|
  {
    hide Members, GroupKeys, AnswersGroup;
    forall k ensures k in g.Keys <==> k in GroupKeys(q, show, rows) { MembersFound(q, show, rows, k); }
    assert g.Keys == GroupKeys(q, show, rows);
  }
}
