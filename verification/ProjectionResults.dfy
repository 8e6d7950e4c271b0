// What a projection run returns, for every arrival order: the top rows under ORDER BY, or exactly
// LIMIT matching rows when it stops early.
module ProjectionResults {
  import opened Prelude
  import opened JsonModel
  import opened QueryModel
  import opened Results
  import opened Sorting
  import opened Datasets
  import opened Planning
  import opened Failover
  import opened FanOut
  import opened Engine
  import opened Projection
  import opened Refinement
  import opened Quorums

  lemma {:induction false} ProjectConcat(q: Query, a: seq<Row>, b: seq<Row>)
    ensures q.ProjectShard(a + b) == q.ProjectShard(a) + q.ProjectShard(b)
  {
    var keep := (r: Row) => q.Keeps(r);
    FilterConcat(a, b, keep);
  }

  lemma {:induction false} NothingKept(q: Query, rows: seq<Row>)
    requires forall row :: row in rows ==> !q.Keeps(row)
    ensures q.ProjectShard(rows) == []
  {
    if rows != [] {
      NothingKept(q, rows[..|rows| - 1]);
      var keep := (r: Row) => q.Keeps(r);
      assert Filter(rows, keep) == Filter(rows[..|rows| - 1], keep) + [];
    }
  }

  ghost function ProjectAll(q: Query, data: seq<seq<Row>>): seq<seq<Row>> {
    Map((rows: seq<Row>) => q.ProjectShard(rows), data)
  }

  lemma ProjectPush(q: Query, front: seq<seq<Row>>, rows: seq<Row>)
    ensures Flatten(ProjectAll(q, front + [rows])) == Flatten(ProjectAll(q, front)) + q.ProjectShard(rows)
  {
    hide Query.ProjectShard;
    assert ProjectAll(q, front + [rows]) == ProjectAll(q, front) + [q.ProjectShard(rows)];
    assert (ProjectAll(q, front) + [q.ProjectShard(rows)])[..|front|] == ProjectAll(q, front);
  }

  /** Pruned shards hold no row of the answer. */
  lemma {:induction false} PruningKeepsRows(q: Query, shards: seq<Shard>, data: seq<seq<Row>>)
    requires Stored(shards, data) && SafeLiterals(q.predicate_)
    ensures Flatten(ProjectAll(q, LiveData(q, shards, data))) == q.ProjectShard(Flatten(data))
  {
    hide CanMatch, Describes, Query.ProjectShard, SafeLiterals;
    if shards == [] {
      NothingKept(q, []);
    } else {
      var n := |shards| - 1;
      var front := LiveData(q, shards[..n], data[..n]);
      PruningKeepsRows(q, shards[..n], data[..n]);
      ProjectConcat(q, Flatten(data[..n]), data[n]);
      if ShardCanMatch(shards[n].stats, q.predicate_) {
        ProjectPush(q, front, data[n]);
      } else {
        forall row | row in data[n] ensures !q.Keeps(row) {
          PruningSound(shards[n].stats.value, data[n], q.predicate_, row);
        }
        NothingKept(q, data[n]);
        assert front + [] == front;
      }
    }
  }

  // ----- arrivals are part of the whole -----

  ghost function Without<T>(s: seq<T>, j: nat): (t: seq<T>)
    requires j < |s|
    ensures |t| == |s| - 1
    ensures forall n :: 0 <= n < |t| ==> t[n] == if n < j then s[n] else s[n + 1]
  {
    s[..j] + s[j + 1..]
  }

  /** Distinct parts taken in any order hold a sub-multiset of the whole, and all of it once there
      are as many of them as there are parts. */
  lemma {:induction false} PickedParts<T>(all: seq<seq<T>>, order: seq<nat>, picked: seq<seq<T>>)
    requires |picked| == |order|
    requires forall n :: 0 <= n < |order| ==> order[n] < |all| && picked[n] == all[order[n]]
    requires forall m, n :: 0 <= m < n < |order| ==> order[m] != order[n]
    ensures |order| <= |all|
    ensures multiset(Flatten(picked)) <= multiset(Flatten(all))
    ensures |order| == |all| ==> multiset(Flatten(picked)) == multiset(Flatten(all))
  {
    if all == [] {
      assert order == [] && picked == [];
    } else {
      var last := |all| - 1;
      assert Flatten(all) == Flatten(all[..last]) + all[last];
      hide Flatten, Without;
      if last in order {
        var j :| 0 <= j < |order| && order[j] == last;
        PickedParts(all[..last], Without(order, j), Without(picked, j));
        TakeOut(picked, j);
      } else {
        PickedParts(all[..last], order, picked);
      }
    }
  }

  lemma TakeOut<T>(parts: seq<seq<T>>, j: nat)
    requires j < |parts|
    ensures multiset(Flatten(parts)) == multiset(Flatten(Without(parts, j))) + multiset(parts[j])
  {
    hide Flatten;
    SplitAround(parts, j);
    Reassemble(parts[..j], parts[j], parts[j + 1..]);
  }

  lemma SplitAround<T>(s: seq<T>, j: nat)
    requires j < |s|
    ensures s == s[..j] + ([s[j]] + s[j + 1..])
  {}

  lemma Reassemble<T>(a: seq<seq<T>>, x: seq<T>, b: seq<seq<T>>)
    ensures multiset(Flatten(a + ([x] + b))) == multiset(Flatten(a + b)) + multiset(x)
  {
    FlattenOne(x);
    hide Flatten;
    FlattenConcat(a, [x] + b);
    FlattenConcat([x], b);
    FlattenConcat(a, b);
  }

  lemma FlattenOne<T>(x: seq<T>)
    ensures Flatten([x]) == x
  {
    assert [x][..0] == [];
  }

  lemma SubsetLength<T>(a: seq<T>, b: seq<T>)
    requires multiset(a) <= multiset(b)
    ensures |a| <= |b|
  {
    assert multiset(b) == multiset(a) + (multiset(b) - multiset(a));
    assert |multiset(b)| == |multiset(a)| + |multiset(b) - multiset(a)|;
    assert |multiset(a)| == |a| && |multiset(b)| == |b|;
  }

  // ----- honest hosts -----

  ghost predicate HonestRows(q: Query, live: seq<seq<Row>>, w: World<seq<Row>>) {
    forall i, k :: 0 <= i < |live| && w.reply(i, k).Ok? ==> w.reply(i, k).value == q.ProjectShard(live[i])
  }

  lemma HonestProjection(w: World<seq<Row>>, cfg: RunConfig, i: nat, cid: string, ranked: seq<string>, honest: seq<Row>)
    requires forall k :: w.reply(i, k).Ok? ==> w.reply(i, k).value == honest
    requires ProjectResult(w, cfg, i, cid, ranked).Ok?
    ensures ProjectResult(w, cfg, i, cid, ranked).value.rows == honest
  {
    WalkFrom(w, i, ranked, cfg.Attempts(), 1, 0, [], None);
    var walked := Walk(w, i, ranked, cfg.Attempts(), 1, 0, [], None);
    hide Walk;
    ServedHosts(w, i, ranked, walked.attempts);
    assert walked.copies[0] in walked.copies;
  }

  /** The rows gathered are always among the matching rows, and all of them once every live shard has
      arrived. */
  lemma GatheredRows(q: Query, shards: seq<Shard>, data: seq<seq<Row>>, hosts: seq<string>,
                     score: (string, string) -> nat, w: World<seq<Row>>, cfg: RunConfig,
                     order: seq<nat>, done: seq<Arrived>)
    requires Stored(shards, data) && SafeLiterals(q.predicate_)
    requires HonestRows(q, LiveData(q, shards, data), w)
    requires Arrivals(w, cfg, score, hosts, Live(q, shards), order, done)
    ensures var flat, total := Flatten(Chunks(done)), q.ProjectShard(Flatten(data));
      && multiset(flat) <= multiset(total) && |flat| <= |total|
      && (|done| == |Live(q, shards)| ==> multiset(flat) == multiset(total) && |flat| == |total|)
  {
    var rows, live := LiveData(q, shards, data), Live(q, shards);
    LiveDataLength(q, shards, data);
    PruningKeepsRows(q, shards, data);
    hide ProjectResult, RankHosts, LiveData, Live, Stored, SafeLiterals;
    forall n | 0 <= n < |order| ensures Chunks(done)[n] == ProjectAll(q, rows)[order[n]] {
      var i := order[n];
      HonestProjection(w, cfg, i, live[i].cid, RankHosts(score, live[i].cid, hosts), q.ProjectShard(rows[i]));
    }
    PickedParts(ProjectAll(q, rows), order, Chunks(done));
    var flat, total := Flatten(Chunks(done)), q.ProjectShard(Flatten(data));
    SubsetLength(flat, total);
    if multiset(flat) == multiset(total) { SubsetLength(total, flat); }
  }

  // ----- main results -----

  /** `rows` are a sorted choice of `n` of the `total` rows, none of the others strictly before any
      of them. */
  ghost predicate TopRows(q: Query, total: seq<Row>, rows: seq<Row>, n: nat) {
    var le := OrderOf(RawCell, q.orderBy);
    && |rows| == n && Sorted(rows, le)
    && exists rest: seq<Row> :: multiset(rows) + multiset(rest) == multiset(total)
         && forall a, b :: a in rows && b in rest ==> le(a, b)
  }

  /** Nothing after a cut of a sorted sequence is strictly before anything up to it. */
  lemma CutSorted<T(!new)>(full: seq<T>, le: (T, T) -> bool, n: nat)
    requires Sorted(full, le) && n <= |full|
    ensures Sorted(full[..n], le)
    ensures forall a, b :: a in full[..n] && b in full[n..] ==> le(a, b)
  {
    forall a, b | a in full[..n] && b in full[n..] ensures le(a, b) {
      var i :| 0 <= i < n && full[..n][i] == a;
      var j :| 0 <= j < |full| - n && full[n..][j] == b;
      assert full[i] == a && full[n + j] == b;
    }
  }

  lemma ShapedTop(q: Query, flat: seq<Row>, total: seq<Row>)
    requires multiset(flat) == multiset(total)
    ensures TopRows(q, total, Limited(Ordered(RawCell, q.orderBy, flat), q.limit), UpTo(q.limit, |total|))
  {
    var full, le := Ordered(RawCell, q.orderBy, flat), OrderOf(RawCell, q.orderBy);
    hide Ordered, OrderOf, StableSorted;
    ShapeIsTop(RawCell, q.orderBy, q.limit, flat);
    assert |full| == |multiset(full)| == |multiset(total)| == |total|;
    StableIsSorted(flat, full, le);
    var rows := Limited(full, q.limit);
    CutSorted(full, le, |rows|);
    assert full == rows + full[|rows|..];
    assert multiset(rows) + multiset(full[|rows|..]) == multiset(total);
  }

  /** Under the order keys row `a` may stand before row `b`: see MayPrecede. */
  ghost predicate RowsInOrder(q: Query, a: Row, b: Row) {
    forall m :: 0 <= m < |q.orderBy| && TieBefore(RawCell, q.orderBy, m, a, b) ==>
      MayPrecede(RawCell, q.orderBy[m], a, b)
  }

  /** `rest` are the other rows, each of which could have stood after all of `rows`. */
  ghost predicate Others(q: Query, total: seq<Row>, rows: seq<Row>, rest: seq<Row>) {
    && multiset(rows) + multiset(rest) == multiset(total)
    && forall a, b :: a in rows && b in rest ==> RowsInOrder(q, a, b)
  }

  /** What top rows are, key by key: in order, and none of the others strictly before any of them. */
  lemma TopRowsMean(q: Query, total: seq<Row>, rows: seq<Row>, n: nat)
    requires TopRows(q, total, rows, n)
    ensures |rows| == n && forall i, j :: 0 <= i < j < |rows| ==> RowsInOrder(q, rows[i], rows[j])
    ensures exists rest :: Others(q, total, rows, rest)
  {
    forall a, b | OrderOf(RawCell, q.orderBy)(a, b) ensures RowsInOrder(q, a, b) { LeInOrder(q, a, b); }
    hide RowsInOrder, OrderOf;
    var rest: seq<Row> :| multiset(rows) + multiset(rest) == multiset(total)
      && forall a, b :: a in rows && b in rest ==> OrderOf(RawCell, q.orderBy)(a, b);
    assert Others(q, total, rows, rest);
  }

  lemma LeInOrder(q: Query, a: Row, b: Row)
    requires OrderOf(RawCell, q.orderBy)(a, b)
    ensures RowsInOrder(q, a, b)
  {
    hide MayPrecede, TieBefore;
    forall m | 0 <= m < |q.orderBy| && TieBefore(RawCell, q.orderBy, m, a, b)
      ensures MayPrecede(RawCell, q.orderBy[m], a, b)
    {
      FirstKeyDecides(RawCell, q.orderBy, m, a, b);
    }
  }

  lemma StableIsSorted<T(!new)>(src: seq<T>, out: seq<T>, le: (T, T) -> bool)
    requires StableSorted(src, out, le)
    ensures Sorted(out, le)
  {}

  /** Projection top-N: unless it stops early, and with all matches within the memory cap, every
      arrival order yields sorted rows, as many as the limit allows, such that no omitted row strictly
      precedes a returned one; and `truncated` says exactly whether the limit cut anything off. */
  lemma ProjectionTopN(q: Query, shards: seq<Shard>, data: seq<seq<Row>>, hosts: seq<string>,
                       score: (string, string) -> nat, w: World<seq<Row>>, cfg: RunConfig,
                       r: Result<ProjectionReport, RunError>)
    requires Stored(shards, data) && SafeLiterals(q.predicate_) && HonestRows(q, LiveData(q, shards, data), w)
    requires ProjectionResult(q, shards, hosts, score, w, cfg, r) && r.Ok?
    requires !CanStopEarly(q) && !Over(|q.ProjectShard(Flatten(data))|, CollectCap(q, cfg))
    ensures var total := q.ProjectShard(Flatten(data));
      && TopRows(q, total, r.value.rows, UpTo(q.limit, |total|))
      && (r.value.truncated <==> Over(|total|, q.limit))
  {
    hide TopRows, Ordered, Stored, SafeLiterals, HonestRows, Arrivals, CheckScan;
    var total, live := q.ProjectShard(Flatten(data)), Live(q, shards);
    if shards == [] {
      assert |shards| == |data| by { StoredLength(shards, data); }
      ShapedTop(q, total, total);
      assert total == [];
      NothingOrdered(q);
    } else {
      var order, done :| Arrivals(w, cfg, score, hosts, live, order, done) && Ended(q, live, done)
        && r.value == ReportOf(q, cfg, done);
      GatheredRows(q, shards, data, hosts, score, w, cfg, order, done);
      var flat := Flatten(Chunks(done));
      assert Limited(flat, CollectCap(q, cfg)) == flat;
      ShapedTop(q, flat, total);
    }
  }

  lemma StoredLength(shards: seq<Shard>, data: seq<seq<Row>>)
    requires Stored(shards, data)
    ensures |shards| == |data|
  {}

  lemma NothingOrdered(q: Query)
    ensures Limited(Ordered(RawCell, q.orderBy, []), q.limit) == []
  {}

  /** Early-stop LIMIT: with a LIMIT n and no ORDER BY, every arrival order and window returns exactly
      min(n, total matches) of the matching rows, though fetching may stop before all have arrived. A
      set `truncated` is right; an unset one is wrong only if the arrivals filled the limit exactly. */
  lemma EarlyStopLimit(q: Query, shards: seq<Shard>, data: seq<seq<Row>>, hosts: seq<string>,
                       score: (string, string) -> nat, w: World<seq<Row>>, cfg: RunConfig,
                       r: Result<ProjectionReport, RunError>)
    requires Stored(shards, data) && SafeLiterals(q.predicate_) && HonestRows(q, LiveData(q, shards, data), w)
    requires ProjectionResult(q, shards, hosts, score, w, cfg, r) && r.Ok?
    requires CanStopEarly(q)
    ensures var total, n := q.ProjectShard(Flatten(data)), q.limit.value;
      && |r.value.rows| == MinInt(n, |total|)
      && multiset(r.value.rows) <= multiset(total)
      && (r.value.truncated ==> |total| > n)
      && (|total| > n && !r.value.truncated ==>
           exists order, done :: Arrivals(w, cfg, score, hosts, Live(q, shards), order, done)
             && Ended(q, Live(q, shards), done) && r.value == ReportOf(q, cfg, done)
             && |Flatten(Chunks(done))| == n && |done| < |Live(q, shards)|)
  {
    hide Stored, SafeLiterals, HonestRows, Arrivals, CheckScan, Live, LiveData, ReportOf, Query.ProjectShard;
    var total, live := q.ProjectShard(Flatten(data)), Live(q, shards);
    StoredLength(shards, data);
    if shards == [] {
      assert total == [] by { NothingKept(q, []); }
    } else {
      var order, done :| Arrivals(w, cfg, score, hosts, live, order, done) && Ended(q, live, done)
        && r.value == ReportOf(q, cfg, done);
      GatheredRows(q, shards, data, hosts, score, w, cfg, order, done);
      EarlyReport(q, cfg, done);
      ArrivalsBounded(w, cfg, score, hosts, live, order, done);
    }
  }

  /** Fetching stops in time: a run that may stop early ends at the first arrival that fills the limit,
      and not before unless every live shard has arrived. */
  lemma EarlyStopInTime(q: Query, shards: seq<Shard>, hosts: seq<string>, score: (string, string) -> nat,
                        w: World<seq<Row>>, cfg: RunConfig, r: Result<ProjectionReport, RunError>)
    requires ProjectionResult(q, shards, hosts, score, w, cfg, r) && r.Ok? && CanStopEarly(q) && shards != []
    ensures exists order, done ::
      && Arrivals(w, cfg, score, hosts, Live(q, shards), order, done) && r.value == ReportOf(q, cfg, done)
      && (forall m :: 0 < m < |done| ==> |Flatten(Chunks(done[..m]))| < q.limit.value)
      && (|done| < |Live(q, shards)| ==> done != [] && |Flatten(Chunks(done))| >= q.limit.value)
  {
    hide Arrivals, Live, ReportOf, Flatten, Chunks, CheckScan;
    var order, done :| Arrivals(w, cfg, score, hosts, Live(q, shards), order, done) && Ended(q, Live(q, shards), done)
      && r.value == ReportOf(q, cfg, done);
  }

  /** Some live shards that can arrive first hold exactly `limit` matching rows. */
  ghost predicate ExactFit(q: Query, w: World<seq<Row>>, cfg: RunConfig, score: (string, string) -> nat,
                           hosts: seq<string>, live: seq<Shard>)
    requires CanStopEarly(q)
  {
    exists order, done ::
      done != [] && Arrivals(w, cfg, score, hosts, live, order, done) && |Flatten(Chunks(done))| == q.limit.value
  }

  /** Arrivals that hold exactly `limit` rows have a beginning at which the run stops with as many. */
  lemma StopsAtFit(q: Query, w: World<seq<Row>>, cfg: RunConfig, score: (string, string) -> nat,
                                      hosts: seq<string>, live: seq<Shard>, order: seq<nat>, done: seq<Arrived>)
    returns (m: nat)
    requires CanStopEarly(q) && done != [] && Arrivals(w, cfg, score, hosts, live, order, done)
    requires |Flatten(Chunks(done))| == q.limit.value
    ensures m <= |done| == |order| && Arrivals(w, cfg, score, hosts, live, order[..m], done[..m])
    ensures Ended(q, live, done[..m]) && |Flatten(Chunks(done[..m]))| == q.limit.value
  {
    hide LiveProjection, Flatten, Chunks;
    m := 1;
    while |Flatten(Chunks(done[..m]))| < q.limit.value
      invariant 0 < m <= |done|
      invariant forall j :: 0 < j < m ==> |Flatten(Chunks(done[..j]))| < q.limit.value
      decreases |done| - m
    {
      assert done[..|done|] == done;
      m := m + 1;
    }
    PrefixRows(done, m);
    forall j | 0 < j < m ensures done[..m][..j] == done[..j] {}
  }

  lemma PrefixRows(done: seq<Arrived>, m: nat)
    requires m <= |done|
    ensures |Flatten(Chunks(done[..m]))| <= |Flatten(Chunks(done))|
  {
    assert Chunks(done) == Chunks(done[..m]) + Chunks(done[m..]);
    FlattenConcat(Chunks(done[..m]), Chunks(done[m..]));
  }

  /** With a LIMIT and no ORDER BY, exactly when `truncated` is right in every successful run: when
      all matches are within the limit, or no shards that can arrive first hold exactly `limit` rows. */
  lemma EarlyStopExact(q: Query, shards: seq<Shard>, data: seq<seq<Row>>, hosts: seq<string>,
                       score: (string, string) -> nat, w: World<seq<Row>>, cfg: RunConfig)
    requires Stored(shards, data) && SafeLiterals(q.predicate_) && HonestRows(q, LiveData(q, shards, data), w)
    requires CanStopEarly(q) && q.Valid() && q.IsProjection()
    requires shards != [] && hosts != [] && CheckScan(cfg.limits, shards).None?
    ensures var total, n := q.ProjectShard(Flatten(data)), q.limit.value;
      (forall r :: ProjectionResult(q, shards, hosts, score, w, cfg, r) && r.Ok? ==>
         (r.value.truncated <==> |total| > n))
      <==> (|total| <= n || !ExactFit(q, w, cfg, score, hosts, Live(q, shards)))
  {
    hide Stored, SafeLiterals, HonestRows, Arrivals, CheckScan, Live, LiveData, ReportOf, Query.ProjectShard, Ended;
    hide Chunks, Flatten;
    var total, n, live := q.ProjectShard(Flatten(data)), q.limit.value, Live(q, shards);
    if |total| <= n || !ExactFit(q, w, cfg, score, hosts, live) {
      forall r | ProjectionResult(q, shards, hosts, score, w, cfg, r) && r.Ok?
        ensures r.value.truncated <==> |total| > n
      {
        EarlyStopLimit(q, shards, data, hosts, score, w, cfg, r);
        if |total| > n && !r.value.truncated { MissedFit(q, shards, data, hosts, score, w, cfg, r); }
      }
    } else {
      var order, done :| done != [] && Arrivals(w, cfg, score, hosts, live, order, done)
        && |Flatten(Chunks(done))| == n;
      var m := StopsAtFit(q, w, cfg, score, hosts, live, order, done);
      EarlyReport(q, cfg, done[..m]);
      PossibleRun(q, shards, hosts, score, w, cfg, order[..m], done[..m]);
      assert !ReportOf(q, cfg, done[..m]).truncated;
    }
  }

  /** The matching rows the shards in `order` hold. */
  ghost function MatchCount(q: Query, rows: seq<seq<Row>>, order: seq<nat>): nat
    requires forall n :: 0 <= n < |order| ==> order[n] < |rows|
  {
    if order == [] then 0
    else MatchCount(q, rows, order[..|order| - 1]) + |q.ProjectShard(rows[order[|order| - 1]])|
  }

  /** Some shards that can finish first hold exactly `limit` matching rows. */
  ghost predicate CountsFit(q: Query, rows: seq<seq<Row>>, width: nat)
    requires CanStopEarly(q)
  {
    exists order :: order != [] && Allowed(order, |rows|, width) && MatchCount(q, rows, order) == q.limit.value
  }

  /** Every live shard is served, whenever it is asked for. */
  ghost predicate AllArrive(w: World<seq<Row>>, cfg: RunConfig, score: (string, string) -> nat, hosts: seq<string>,
                            live: seq<Shard>) {
    forall i :: 0 <= i < |live| ==> LiveProjection(w, cfg, score, hosts, live, i).Ok?
  }

  lemma {:induction false} ArrivedCount(q: Query, w: World<seq<Row>>, cfg: RunConfig, score: (string, string) -> nat,
                                        hosts: seq<string>, live: seq<Shard>, rows: seq<seq<Row>>,
                                        order: seq<nat>, done: seq<Arrived>)
    requires |live| == |rows| && HonestRows(q, rows, w) && Arrivals(w, cfg, score, hosts, live, order, done)
    ensures |Flatten(Chunks(done))| == MatchCount(q, rows, order)
  {
    hide ProjectResult, RankHosts, Query.ProjectShard;
    if order != [] {
      var n := |order| - 1;
      var i := order[n];
      AllowedPrefix(order, |live|, cfg.Width());
      ArrivedCount(q, w, cfg, score, hosts, live, rows, order[..n], done[..n]);
      HonestProjection(w, cfg, i, live[i].cid, RankHosts(score, live[i].cid, hosts), q.ProjectShard(rows[i]));
      assert done == done[..n] + [done[n]];
      ChunksPush(done[..n], done[n]);
      hide Flatten, Chunks;
    }
  }

  /** If every live shard is served, the exact fit is one of match counts, whoever serves them. */
  lemma FitOverData(q: Query, w: World<seq<Row>>, cfg: RunConfig, score: (string, string) -> nat, hosts: seq<string>,
                    live: seq<Shard>, rows: seq<seq<Row>>)
    requires CanStopEarly(q) && |live| == |rows| && HonestRows(q, rows, w) && AllArrive(w, cfg, score, hosts, live)
    ensures ExactFit(q, w, cfg, score, hosts, live) <==> CountsFit(q, rows, cfg.Width())
  {
    hide HonestRows, LiveProjection, Flatten, Chunks, MatchCount;
    if ExactFit(q, w, cfg, score, hosts, live) {
      var order, done :| done != [] && Arrivals(w, cfg, score, hosts, live, order, done)
        && |Flatten(Chunks(done))| == q.limit.value;
      ArrivedCount(q, w, cfg, score, hosts, live, rows, order, done);
      assert order != [];
    }
    if CountsFit(q, rows, cfg.Width()) {
      var order :| order != [] && Allowed(order, |rows|, cfg.Width()) && MatchCount(q, rows, order) == q.limit.value;
      var done := seq(|order|, n requires 0 <= n < |order| =>
        LiveProjection(w, cfg, score, hosts, live, order[n]).value);
      assert Arrivals(w, cfg, score, hosts, live, order, done);
      ArrivedCount(q, w, cfg, score, hosts, live, rows, order, done);
    }
  }

  /** If every live shard is served, exactly when `truncated` is right in every successful run: when
      all matches are within the limit, or no shards that can finish first hold exactly `limit`. */
  lemma EarlyStopOverData(q: Query, shards: seq<Shard>, data: seq<seq<Row>>, hosts: seq<string>,
                          score: (string, string) -> nat, w: World<seq<Row>>, cfg: RunConfig)
    requires Stored(shards, data) && SafeLiterals(q.predicate_) && HonestRows(q, LiveData(q, shards, data), w)
    requires CanStopEarly(q) && q.Valid() && q.IsProjection()
    requires shards != [] && hosts != [] && CheckScan(cfg.limits, shards).None?
    requires AllArrive(w, cfg, score, hosts, Live(q, shards))
    ensures var total, n := q.ProjectShard(Flatten(data)), q.limit.value;
      (forall r :: ProjectionResult(q, shards, hosts, score, w, cfg, r) && r.Ok? ==>
         (r.value.truncated <==> |total| > n))
      <==> (|total| <= n || !CountsFit(q, LiveData(q, shards, data), cfg.Width()))
  {
    hide ProjectionResult, HonestRows, AllArrive, CountsFit, ExactFit, SafeLiterals, Live, LiveData, CheckScan;
    EarlyStopExact(q, shards, data, hosts, score, w, cfg);
    LiveDataLength(q, shards, data);
    FitOverData(q, w, cfg, score, hosts, Live(q, shards), LiveData(q, shards, data));
  }

  lemma PossibleRun(q: Query, shards: seq<Shard>, hosts: seq<string>, score: (string, string) -> nat,
                    w: World<seq<Row>>, cfg: RunConfig, order: seq<nat>, done: seq<Arrived>)
    requires q.Valid() && q.IsProjection() && shards != [] && hosts != [] && CheckScan(cfg.limits, shards).None?
    requires Arrivals(w, cfg, score, hosts, Live(q, shards), order, done) && Ended(q, Live(q, shards), done)
    ensures ProjectionResult(q, shards, hosts, score, w, cfg, Ok(ReportOf(q, cfg, done)))
  {
    hide CheckScan, Live, Arrivals, Ended, ReportOf;
  }

  /** A run that misses a cut stopped at an exact fit. */
  lemma MissedFit(q: Query, shards: seq<Shard>, data: seq<seq<Row>>, hosts: seq<string>, score: (string, string) -> nat,
                  w: World<seq<Row>>, cfg: RunConfig, r: Result<ProjectionReport, RunError>)
    requires Stored(shards, data) && SafeLiterals(q.predicate_) && HonestRows(q, LiveData(q, shards, data), w)
    requires ProjectionResult(q, shards, hosts, score, w, cfg, r) && r.Ok? && CanStopEarly(q)
    requires |q.ProjectShard(Flatten(data))| > q.limit.value && !r.value.truncated
    ensures ExactFit(q, w, cfg, score, hosts, Live(q, shards))
  {
    hide Stored, SafeLiterals, HonestRows, Arrivals, Live, LiveData, ReportOf, Query.ProjectShard, Ended;
    hide ProjectionResult;
    hide Chunks, Flatten;
    EarlyStopLimit(q, shards, data, hosts, score, w, cfg, r);
    var order, done :| Arrivals(w, cfg, score, hosts, Live(q, shards), order, done) && Ended(q, Live(q, shards), done)
      && |Flatten(Chunks(done))| == q.limit.value && |done| < |Live(q, shards)|;
    EndedShort(q, Live(q, shards), done);
  }

  lemma EndedShort(q: Query, live: seq<Shard>, done: seq<Arrived>)
    requires Ended(q, live, done) && |done| < |live|
    ensures done != []
  {}

  /** The report of an early-stopping run is the arrivals cut at the limit. */
  lemma EarlyReport(q: Query, cfg: RunConfig, done: seq<Arrived>)
    requires CanStopEarly(q)
    ensures var flat, report := Flatten(Chunks(done)), ReportOf(q, cfg, done);
      && |report.rows| == MinInt(q.limit.value, |flat|)
      && multiset(report.rows) <= multiset(flat)
      && (report.truncated <==> |flat| > q.limit.value)
  {
    hide Chunks, Flatten;
    var flat := Flatten(Chunks(done));
    var kept := Limited(flat, q.limit);
    assert flat == kept + flat[|kept|..];
    assert Limited(kept, q.limit) == kept;
  }

  lemma ArrivalsBounded(w: World<seq<Row>>, cfg: RunConfig, score: (string, string) -> nat, hosts: seq<string>,
                        live: seq<Shard>, order: seq<nat>, done: seq<Arrived>)
    requires Arrivals(w, cfg, score, hosts, live, order, done)
    ensures |done| <= |live|
  {
    hide LiveProjection;
    PickedParts(seq(|live|, i => [i]), order, seq(|order|, n requires 0 <= n < |order| => [order[n]]));
  }

  /** Past the memory cap an ordered run still returns sorted matching rows, as many as both bounds
      allow, and says it was truncated. */
  lemma CappedProjection(q: Query, shards: seq<Shard>, data: seq<seq<Row>>, hosts: seq<string>,
                         score: (string, string) -> nat, w: World<seq<Row>>, cfg: RunConfig,
                         r: Result<ProjectionReport, RunError>)
    requires Stored(shards, data) && SafeLiterals(q.predicate_) && HonestRows(q, LiveData(q, shards, data), w)
    requires ProjectionResult(q, shards, hosts, score, w, cfg, r) && r.Ok?
    requires !CanStopEarly(q) && Over(|q.ProjectShard(Flatten(data))|, CollectCap(q, cfg))
    ensures var total, cap := q.ProjectShard(Flatten(data)), CollectCap(q, cfg).value;
      && |r.value.rows| == UpTo(q.limit, cap)
      && multiset(r.value.rows) <= multiset(total)
      && Sorted(r.value.rows, OrderOf(RawCell, q.orderBy))
      && r.value.truncated
  {
    hide Stored, SafeLiterals, HonestRows, Arrivals, CheckScan, Live, LiveData, ReportOf, OrderOf, Query.ProjectShard;
    var total, live := q.ProjectShard(Flatten(data)), Live(q, shards);
    StoredLength(shards, data);
    NothingKept(q, []);
    assert shards != [];
    var order, done :| Arrivals(w, cfg, score, hosts, live, order, done) && Ended(q, live, done)
      && r.value == ReportOf(q, cfg, done);
    GatheredRows(q, shards, data, hosts, score, w, cfg, order, done);
    CappedReport(q, cfg, done);
  }

  /** The report of a run whose arrivals exceed the memory cap. */
  lemma CappedReport(q: Query, cfg: RunConfig, done: seq<Arrived>)
    requires !CanStopEarly(q) && Over(|Flatten(Chunks(done))|, CollectCap(q, cfg))
    ensures var flat, report := Flatten(Chunks(done)), ReportOf(q, cfg, done);
      && |report.rows| == UpTo(q.limit, CollectCap(q, cfg).value)
      && multiset(report.rows) <= multiset(flat)
      && Sorted(report.rows, OrderOf(RawCell, q.orderBy))
      && report.truncated
  {
    hide Chunks, Flatten, TopRows, OrderOf, Ordered;
    var flat, report := Flatten(Chunks(done)), ReportOf(q, cfg, done);
    var kept := Limited(flat, CollectCap(q, cfg));
    assert flat == kept + flat[|kept|..];
    ShapedTop(q, kept, kept);
    TopIsSub(q, kept, report.rows, UpTo(q.limit, |kept|));
  }

  lemma TopIsSub(q: Query, total: seq<Row>, rows: seq<Row>, n: nat)
    requires TopRows(q, total, rows, n)
    ensures multiset(rows) <= multiset(total) && |rows| == n && Sorted(rows, OrderOf(RawCell, q.orderBy))
  {}

  /** Exactly when a successful run returns more rows than a memory cap allows: when it may stop
      early and the limited matches exceed the cap. */
  lemma MemoryCapExact(q: Query, shards: seq<Shard>, data: seq<seq<Row>>, hosts: seq<string>,
                       score: (string, string) -> nat, w: World<seq<Row>>, cfg: RunConfig,
                       r: Result<ProjectionReport, RunError>)
    requires Stored(shards, data) && SafeLiterals(q.predicate_) && HonestRows(q, LiveData(q, shards, data), w)
    requires ProjectionResult(q, shards, hosts, score, w, cfg, r) && r.Ok?
    requires cfg.limits.maxResultGroups != 0
    ensures var total, cap := q.ProjectShard(Flatten(data)), cfg.limits.maxResultGroups;
      |r.value.rows| > cap <==> CanStopEarly(q) && MinInt(q.limit.value, |total|) > cap
  {
    hide Stored, SafeLiterals, HonestRows, ProjectionResult, LiveData, Query.ProjectShard;
    if CanStopEarly(q) {
      EarlyStopLimit(q, shards, data, hosts, score, w, cfg, r);
    } else if Over(|q.ProjectShard(Flatten(data))|, CollectCap(q, cfg)) {
      CappedProjection(q, shards, data, hosts, score, w, cfg, r);
    } else {
      ProjectionTopN(q, shards, data, hosts, score, w, cfg, r);
    }
  }

  // ----- where the early stop hides rows and where the memory cap is ignored -----

  function StarLimit(n: nat): Query {
    Query("t", [], True, [], [], Some(n), Some([]))
  }

  function OneRow(): seq<Row> {
    [map["a" := Null]]
  }

  function TwoShards(): seq<Shard> {
    [Shard("x", 0, 0, None), Shard("y", 0, 0, None)]
  }

  function SteadyWorld(): World<seq<Row>> {
    World((i, k) => Ok(OneRow()), (i, k) => false)
  }

  /** One shard in flight at a time, one attempt each, and a memory cap. */
  function PlainConfig(cap: nat): RunConfig {
    RunConfig(1, 1, 1, 0, CostLimits(0, 0, 0, cap))
  }

  function SteadyArrival(i: nat): Arrived
    requires i < 2
  {
    ProjectOutcome(TwoShards()[i].cid, "h", OneRow(), 1)
  }

  lemma TwoLive(n: nat)
    ensures Live(StarLimit(n), TwoShards()) == TwoShards()
    ensures Flatten([OneRow(), OneRow()]) == OneRow() + OneRow()
  {
    AllLive(StarLimit(n), TwoShards());
    var d := [OneRow(), OneRow()];
    assert d[..1] == [OneRow()];
    FlattenOne(OneRow());
  }

  lemma {:induction false} AllLive(q: Query, shards: seq<Shard>)
    requires forall s :: s in shards ==> s.stats.None?
    ensures Live(q, shards) == shards
  {
    if shards != [] {
      var front, last := shards[..|shards| - 1], shards[|shards| - 1];
      AllLive(q, front);
      assert Live(q, shards) == Live(q, front) + [last];
    }
  }

  lemma KeepsEverything(n: nat)
    ensures StarLimit(n).ProjectShard(OneRow()) == OneRow()
    ensures StarLimit(n).ProjectShard(OneRow() + OneRow()) == OneRow() + OneRow()
  {
    assert OneRow()[..0] == [];
    assert StarLimit(n).ProjectShard(OneRow()) == OneRow();
    ProjectConcat(StarLimit(n), OneRow(), OneRow());
  }

  lemma OneHost(score: (string, string) -> nat, cid: string)
    ensures RankHosts(score, cid, ["h"]) == ["h"]
  {
    assert ["h"][..0] == [];
  }

  lemma SteadyService(score: (string, string) -> nat, cap: nat, i: nat)
    requires i < 2
    ensures LiveProjection(SteadyWorld(), PlainConfig(cap), score, ["h"], TwoShards(), i) == Ok(SteadyArrival(i))
  {
    OneHost(score, TwoShards()[i].cid);
    hide RankHosts;
    assert Walk(SteadyWorld(), i, ["h"], 1, 1, 0, [], None) == Walked([Copy("h", OneRow())], 1, None);
  }

  /** With LIMIT n, for n one or two, the run ends after the first n shards with a row of each. */
  lemma SteadyRun(score: (string, string) -> nat, cap: nat, n: nat) returns (report: ProjectionReport)
    requires n == 1 || n == 2
    ensures ProjectionResult(StarLimit(n), TwoShards(), ["h"], score, SteadyWorld(), PlainConfig(cap), Ok(report))
    ensures !report.truncated && |report.rows| == n
  {
    var q, first, second := StarLimit(n), [SteadyArrival(0)], [SteadyArrival(0), SteadyArrival(1)];
    TwoLive(n);
    StarIsValid(n, cap);
    SteadyService(score, cap, 0);
    SteadyService(score, cap, 1);
    hide LiveProjection, Live, CheckScan;
    assert Chunks(first) == [OneRow()] && Chunks(second) == [OneRow(), OneRow()];
    FlattenOne(OneRow());
    assert second[..1] == first;
    hide Flatten, Chunks;
    if n == 1 {
      PossibleRun(q, TwoShards(), ["h"], score, SteadyWorld(), PlainConfig(cap), [0], first);
      EarlyReport(q, PlainConfig(cap), first);
      report := ReportOf(q, PlainConfig(cap), first);
    } else {
      PossibleRun(q, TwoShards(), ["h"], score, SteadyWorld(), PlainConfig(cap), [0, 1], second);
      EarlyReport(q, PlainConfig(cap), second);
      report := ReportOf(q, PlainConfig(cap), second);
    }
  }

  lemma SteadyData(n: nat)
    ensures Stored(TwoShards(), [OneRow(), OneRow()])
    ensures HonestRows(StarLimit(n), LiveData(StarLimit(n), TwoShards(), [OneRow(), OneRow()]), SteadyWorld())
  {
    KeepsEverything(n);
    LiveRowsAmong(StarLimit(n), TwoShards(), [OneRow(), OneRow()]);
    hide LiveData, Query.ProjectShard;
    var live := LiveData(StarLimit(n), TwoShards(), [OneRow(), OneRow()]);
    forall i | 0 <= i < |live| ensures live[i] == OneRow() { assert live[i] in live; }
  }

  /** Two shards with a matching row each, LIMIT 1 and no ORDER BY: the run that stops after the first
      shard returns one row and reports nothing cut off, although a second matching row exists. */
  lemma EarlyStopHidesRows(score: (string, string) -> nat)
    ensures var q, data := StarLimit(1), [OneRow(), OneRow()];
      exists report ::
        && Stored(TwoShards(), data) && HonestRows(q, LiveData(q, TwoShards(), data), SteadyWorld())
        && ProjectionResult(q, TwoShards(), ["h"], score, SteadyWorld(), PlainConfig(0), Ok(report))
        && !report.truncated && |report.rows| < |q.ProjectShard(Flatten(data))|
  {
    var report := SteadyRun(score, 0, 1);
    SteadyData(1);
    TwoLive(1);
    KeepsEverything(1);
    hide ProjectionResult, HonestRows, Flatten, Query.ProjectShard;
  }

  /** The same shards under LIMIT 2 and a memory cap of one row: the run returns two rows. */
  lemma MemoryCapIgnored(score: (string, string) -> nat)
    ensures var q, data, cfg := StarLimit(2), [OneRow(), OneRow()], PlainConfig(1);
      exists report ::
        && Stored(TwoShards(), data) && HonestRows(q, LiveData(q, TwoShards(), data), SteadyWorld())
        && ProjectionResult(q, TwoShards(), ["h"], score, SteadyWorld(), cfg, Ok(report))
        && |report.rows| > cfg.limits.maxResultGroups > 0
  {
    var report := SteadyRun(score, 1, 2);
    SteadyData(2);
    hide ProjectionResult, HonestRows, LiveData, Stored;
  }

  lemma StarIsValid(n: nat, cap: nat)
    ensures StarLimit(n).Valid() && StarLimit(n).IsProjection() && CanStopEarly(StarLimit(n))
    ensures CheckScan(PlainConfig(cap).limits, TwoShards()).None?
  {}

  lemma {:induction false} LiveRowsAmong(q: Query, shards: seq<Shard>, data: seq<seq<Row>>)
    requires |shards| == |data|
    ensures forall rows :: rows in LiveData(q, shards, data) ==> rows in data
  {
    if shards != [] {
      LiveRowsAmong(q, shards[..|shards| - 1], data[..|data| - 1]);
      assert data == data[..|data| - 1] + [data[|data| - 1]];
    }
  }
}
