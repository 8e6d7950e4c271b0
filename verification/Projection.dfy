// A projection run: the same window and failover, rows concatenated in arrival order, an early stop
// for LIMIT without ORDER BY, and a memory cap otherwise.
module Projection {
  import opened Prelude
  import opened JsonModel
  import opened QueryModel
  import opened Results
  import opened Sorting
  import opened Datasets
  import opened Planning
  import opened Failover
  import opened FanOut
  import opened Engine

  datatype ProjectionReport = ProjectionReport(
    rows: seq<Row>, servedBy: map<string, string>, totalAttempts: nat, truncated: bool)

  predicate CanStopEarly(q: Query) {
    q.limit.Some? && q.orderBy == []
  }

  /** Where collection is cut off: at the LIMIT when stopping early is allowed, else at the memory
      cap. A LIMIT without ORDER BY therefore ignores the memory cap. */
  function CollectCap(q: Query, cfg: RunConfig): Option<nat> {
    if CanStopEarly(q) then q.limit
    else if cfg.limits.maxResultGroups == 0 then None
    else Some(cfg.limits.maxResultGroups)
  }

  type Arrived = ProjectOutcome<seq<Row>>

  function Chunks(done: seq<Arrived>): seq<seq<Row>> {
    Map((o: Arrived) => o.rows, done)
  }

  function ArrivedServedBy(done: seq<Arrived>): map<string, string> {
    if done == [] then map[]
    else
      var last := done[|done| - 1];
      ArrivedServedBy(done[..|done| - 1])[last.cid := last.servedBy]
  }

  function ArrivedAttempts(done: seq<Arrived>): nat {
    if done == [] then 0 else ArrivedAttempts(done[..|done| - 1]) + done[|done| - 1].attempts
  }

  predicate Over(n: nat, cap: Option<nat>) {
    cap.Some? && n > cap.value
  }

  /** The report built from what had arrived when collection ended. */
  function ReportOf(q: Query, cfg: RunConfig, done: seq<Arrived>): ProjectionReport {
    var flat := Flatten(Chunks(done));
    var kept := Limited(flat, CollectCap(q, cfg));
    ProjectionReport(
      Limited(Ordered(RawCell, q.orderBy, kept), q.limit),
      ArrivedServedBy(done),
      ArrivedAttempts(done),
      Over(|flat|, CollectCap(q, cfg)) || Over(|kept|, q.limit))
  }

  ghost function LiveProjection(w: World<seq<Row>>, cfg: RunConfig, score: (string, string) -> nat,
                                hosts: seq<string>, live: seq<Shard>, i: nat): Result<Arrived, RunError>
    requires i < |live|
  {
    ProjectResult(w, cfg, i, live[i].cid, RankHosts(score, live[i].cid, hosts))
  }

  /** `order` lists distinct live shards in the order they arrived, each served as `done` says. The
      n-th to arrive is among the first n shards plus the window: no later one has been started. */
  ghost predicate Arrivals(w: World<seq<Row>>, cfg: RunConfig, score: (string, string) -> nat, hosts: seq<string>,
                           live: seq<Shard>, order: seq<nat>, done: seq<Arrived>) {
    && |done| == |order| && Allowed(order, |live|, cfg.Width())
    && (forall n :: 0 <= n < |order| ==>
          order[n] < |live| && LiveProjection(w, cfg, score, hosts, live, order[n]) == Ok(done[n]))
  }

  /** No arrival before the n-th filled the LIMIT of a run that may stop early. */
  ghost predicate ShortBefore(q: Query, done: seq<Arrived>, n: nat) {
    CanStopEarly(q) ==> forall m :: 0 < m < n && m <= |done| ==> |Flatten(Chunks(done[..m]))| < q.limit.value
  }

  /** Collection ends at the first arrival that fills the cap when stopping early, and otherwise only
      when every live shard has arrived. */
  ghost predicate Ended(q: Query, live: seq<Shard>, done: seq<Arrived>) {
    && ShortBefore(q, done, |done|)
    && (|done| == |live|
        || (CanStopEarly(q) && done != [] && |Flatten(Chunks(done))| >= q.limit.value))
  }

  /** After these arrivals, with collection not ended, shard `i` comes back with the error `e`. */
  ghost predicate FailsNext(q: Query, w: World<seq<Row>>, cfg: RunConfig, score: (string, string) -> nat,
                            hosts: seq<string>, live: seq<Shard>, order: seq<nat>, done: seq<Arrived>,
                            i: nat, e: RunError) {
    && Arrivals(w, cfg, score, hosts, live, order, done) && ShortBefore(q, done, |done| + 1)
    && Allowed(order + [i], |live|, cfg.Width())
    && i < |live| && LiveProjection(w, cfg, score, hosts, live, i) == Err(e)
  }

  /** The outcome of a projection run. Any arrival order the window allows is possible; a shard error
      that arrives before collection ends is the run's error. */
  ghost predicate ProjectionResult(q: Query, shards: seq<Shard>, hosts: seq<string>, score: (string, string) -> nat,
                                   w: World<seq<Row>>, cfg: RunConfig, r: Result<ProjectionReport, RunError>) {
    var live := Live(q, shards);
    if !q.Valid() then r == Err(InvalidQuery)
    else if !q.IsProjection() then r == Err(NotAProjection)
    else if shards == [] then r == Ok(ProjectionReport([], map[], 0, false))
    else if hosts == [] then r == Err(NoHosts)
    else if CheckScan(cfg.limits, shards).Some? then r == Err(CheckScan(cfg.limits, shards).value)
    else match r
      case Ok(report) =>
        exists order, done ::
          Arrivals(w, cfg, score, hosts, live, order, done) && Ended(q, live, done) && report == ReportOf(q, cfg, done)
      case Err(e) =>
        exists order, done, i :: FailsNext(q, w, cfg, score, hosts, live, order, done, i, e)
  }

  /** What has been gathered from the arrivals so far. */
  ghost predicate Gathered(cap: Option<nat>, done: seq<Arrived>, rows: seq<Row>, servedBy: map<string, string>,
                           attempts: nat, truncated: bool) {
    var flat := Flatten(Chunks(done));
    && rows == Limited(flat, cap)
    && servedBy == ArrivedServedBy(done) && attempts == ArrivedAttempts(done)
    && truncated == Over(|flat|, cap)
  }

  /** Fan the live shards out and gather their rows as they arrive. */
  method GatherRows(q: Query, live: seq<Shard>, hosts: seq<string>, score: (string, string) -> nat,
                    w: World<seq<Row>>, cfg: RunConfig)
    returns (r: Result<(seq<Row>, map<string, string>, nat, bool), RunError>)
    ensures r.Ok? ==> exists order, done ::
      && Arrivals(w, cfg, score, hosts, live, order, done) && Ended(q, live, done)
      && Gathered(CollectCap(q, cfg), done, r.value.0, r.value.1, r.value.2, r.value.3)
    ensures r.Err? ==> exists order, done, i :: FailsNext(q, w, cfg, score, hosts, live, order, done, i, r.error)
  {
    hide Conserved, LiveProjection, Finish, Start, Allowed, Gathered, ShortBefore, Limited, Arrivals, Unfinished;
    hide ArrivedServedBy, ArrivedAttempts, Chunks, Flatten, Over;
    var width, cap := cfg.Width(), CollectCap(q, cfg);
    var fan: Fan<()> := Prime(|live|, width);
    StartConserved<()>(|live|, width);
    StartCount(|live|, width);
    var rows: seq<Row>, servedBy: map<string, string>, attempts: nat, truncated := [], map[], 0, false;
    ghost var order: seq<nat>, done: seq<Arrived> := [], [];
    NothingArrived(w, q, cfg, score, hosts, live);
    while fan.inflight != {}
      invariant Conserved(fan, width) && |fan.slots| == |live|
      invariant |Unfinished(fan)| + |order| == |live| && |done| == |order| && fan.next <= width + |order|
      invariant forall n :: 0 <= n < |order| ==> order[n] < |live| && fan.slots[order[n]].Some?
      invariant Arrivals(w, cfg, score, hosts, live, order, done)
      invariant Gathered(cap, done, rows, servedBy, attempts, truncated)
      invariant ShortBefore(q, done, |done| + 1)
      decreases |Unfinished(fan)|
    {
      var i :| i in fan.inflight;
      FinishConserved(fan, width, i, ());
      FinishSlots(fan, i, ());
      FinishCount(fan, i);
      var result := ServeNext(w, cfg, score, hosts, live, i);
      CanArrive(w, cfg, score, hosts, live, order, done, i);
      if result.Err? {
        r := Err(result.error);
        assert FailsNext(q, w, cfg, score, hosts, live, order, done, i, result.error);
        return;
      }
      var outcome := result.value;
      Arrive(w, cfg, score, hosts, live, order, done, i, outcome);
      GatherStep(cap, done, outcome, rows, servedBy, attempts, truncated);
      ShortStep(q, done, outcome);
      order, done := order + [i], done + [outcome];
      attempts := attempts + outcome.attempts;
      servedBy := servedBy[outcome.cid := outcome.servedBy];
      rows := rows + outcome.rows;
      if cap.Some? && |rows| >= cap.value {
        truncated := |rows| > cap.value || truncated;
        rows := Take(rows, cap.value);
        if CanStopEarly(q) {
          CapReached(cap, done, rows, servedBy, attempts, truncated);
          return Ok((rows, servedBy, attempts, truncated));
        }
      }
      StillShort(q, cap, done, rows, servedBy, attempts, truncated);
      fan := Finish(fan, i, ());
    }
    DrainedIsComplete(fan, width);
    NothingLeft(fan);
    ShortWeaken(q, done);
    r := Ok((rows, servedBy, attempts, truncated));
  }

  method ServeNext(w: World<seq<Row>>, cfg: RunConfig, score: (string, string) -> nat, hosts: seq<string>,
                   live: seq<Shard>, i: nat) returns (r: Result<Arrived, RunError>)
    requires i < |live|
    ensures r == LiveProjection(w, cfg, score, hosts, live, i)
  {
    hide RankHosts, ProjectResult;
    var task := new ShardTask.Planned(live[i], RankHosts(score, live[i].cid, hosts));
    var result, _ := ProjectOneShard(w, cfg, i, task);
    r := result;
  }

  lemma NothingArrived(w: World<seq<Row>>, q: Query, cfg: RunConfig, score: (string, string) -> nat, hosts: seq<string>,
                       live: seq<Shard>)
    ensures Arrivals(w, cfg, score, hosts, live, [], [])
    ensures Gathered(CollectCap(q, cfg), [], [], map[], 0, false) && ShortBefore(q, [], 1)
  {}

  lemma CanArrive(w: World<seq<Row>>, cfg: RunConfig, score: (string, string) -> nat, hosts: seq<string>,
                  live: seq<Shard>, order: seq<nat>, done: seq<Arrived>, i: nat)
    requires Arrivals(w, cfg, score, hosts, live, order, done) && i !in order
    requires i < |live| && i < cfg.Width() + |order|
    ensures Allowed(order + [i], |live|, cfg.Width())
  {
    hide LiveProjection;
  }

  lemma Arrive(w: World<seq<Row>>, cfg: RunConfig, score: (string, string) -> nat, hosts: seq<string>, live: seq<Shard>,
               order: seq<nat>, done: seq<Arrived>, i: nat, o: Arrived)
    requires Arrivals(w, cfg, score, hosts, live, order, done) && i !in order
    requires i < |live| && i < cfg.Width() + |order| && LiveProjection(w, cfg, score, hosts, live, i) == Ok(o)
    ensures Arrivals(w, cfg, score, hosts, live, order + [i], done + [o])
  {
    hide LiveProjection;
  }

  lemma ChunksPush(done: seq<Arrived>, o: Arrived)
    ensures Chunks(done + [o]) == Chunks(done) + [o.rows]
    ensures Flatten(Chunks(done + [o])) == Flatten(Chunks(done)) + o.rows
  {
    assert Chunks(done + [o]) == Chunks(done) + [o.rows];
    assert (Chunks(done) + [o.rows])[..|done|] == Chunks(done);
  }

  /** One arrival: cutting off after every arrival is cutting off once at the end. */
  lemma GatherStep(cap: Option<nat>, done: seq<Arrived>, o: Arrived, rows: seq<Row>, servedBy: map<string, string>,
                   attempts: nat, truncated: bool)
    requires Gathered(cap, done, rows, servedBy, attempts, truncated)
    ensures var all := rows + o.rows;
      var full := cap.Some? && |all| >= cap.value;
      Gathered(cap, done + [o], if full then Take(all, cap.value) else all, servedBy[o.cid := o.servedBy],
               attempts + o.attempts, if full then |all| > cap.value || truncated else truncated)
  {
    ChunksPush(done, o);
    DiagnosticsPush(done, o);
    CutTwice(Flatten(Chunks(done)), o.rows, cap);
    hide Chunks, Flatten, ArrivedServedBy, ArrivedAttempts;
  }

  lemma DiagnosticsPush(done: seq<Arrived>, o: Arrived)
    ensures ArrivedServedBy(done + [o]) == ArrivedServedBy(done)[o.cid := o.servedBy]
    ensures ArrivedAttempts(done + [o]) == ArrivedAttempts(done) + o.attempts
  {
    assert (done + [o])[..|done|] == done;
  }

  lemma CutTwice(a: seq<Row>, b: seq<Row>, cap: Option<nat>)
    ensures Limited(Limited(a, cap) + b, cap) == Limited(a + b, cap)
  {
    if cap.Some? && cap.value < |a| {
      assert (a[..cap.value] + b)[..cap.value] == a[..cap.value];
      assert (a + b)[..cap.value] == a[..cap.value];
    }
  }

  lemma ShortStep(q: Query, done: seq<Arrived>, o: Arrived)
    requires ShortBefore(q, done, |done| + 1)
    ensures ShortBefore(q, done + [o], |done| + 1)
  {
    forall m | 0 < m <= |done| ensures (done + [o])[..m] == done[..m] {}
  }

  lemma ShortWeaken(q: Query, done: seq<Arrived>)
    requires ShortBefore(q, done, |done| + 1)
    ensures ShortBefore(q, done, |done|)
  {}

  lemma CapReached(cap: Option<nat>, done: seq<Arrived>, rows: seq<Row>, servedBy: map<string, string>,
                   attempts: nat, truncated: bool)
    requires Gathered(cap, done, rows, servedBy, attempts, truncated) && cap.Some? && |rows| >= cap.value
    ensures |Flatten(Chunks(done))| >= cap.value
  {}

  lemma StillShort(q: Query, cap: Option<nat>, done: seq<Arrived>, rows: seq<Row>, servedBy: map<string, string>,
                   attempts: nat, truncated: bool)
    requires Gathered(cap, done, rows, servedBy, attempts, truncated)
    requires ShortBefore(q, done, |done|)
    requires CanStopEarly(q) ==> cap == q.limit && |rows| < cap.value
    ensures ShortBefore(q, done, |done| + 1)
  {
    assert done[..|done|] == done;
  }

  lemma StartCount(total: nat, width: nat)
    ensures |Start<()>(total, width).slots| == total
    ensures |Unfinished(Start<()>(total, width))| == total
    ensures Start<()>(total, width).next <= width
  {
    assert Unfinished(Start<()>(total, width)) == Interval(0, total);
  }

  lemma FinishCount(f: Fan<()>, i: nat)
    requires i in f.inflight && i < |f.slots| && f.slots[i].None? && f.next <= |f.slots|
    ensures |Unfinished(Finish(f, i, ()))| + 1 == |Unfinished(f)|
    ensures Finish(f, i, ()).next <= f.next + 1
  {
    assert i in Unfinished(f);
    assert Unfinished(Finish(f, i, ())) == Unfinished(f) - {i};
  }

  lemma NothingLeft<T>(f: Fan<T>)
    requires forall i :: 0 <= i < |f.slots| ==> f.slots[i].Some?
    ensures |Unfinished(f)| == 0
  {
    assert Unfinished(f) == {};
  }

  /** `run_projection`. */
  method RunProjection(q: Query, shards: seq<Shard>, hosts: seq<string>, score: (string, string) -> nat,
                       w: World<seq<Row>>, cfg: RunConfig) returns (r: Result<ProjectionReport, RunError>)
    ensures ProjectionResult(q, shards, hosts, score, w, cfg, r)
  {
    hide CheckScan, Live, LiveProjection, Arrivals, Ended, Ordered;
    if !q.Valid() { return Err(InvalidQuery); }
    if !q.IsProjection() { return Err(NotAProjection); }
    if shards == [] { return Ok(ProjectionReport([], map[], 0, false)); }
    if hosts == [] { return Err(NoHosts); }
    var cost := CheckScan(cfg.limits, shards);
    if cost.Some? { return Err(cost.value); }
    var gathered := GatherRows(q, Live(q, shards), hosts, score, w, cfg);
    if gathered.Err? { return Err(gathered.error); }
    var (rows, servedBy, attempts, truncated) := gathered.value;
    ghost var order, done :| Arrivals(w, cfg, score, hosts, Live(q, shards), order, done)
      && Ended(q, Live(q, shards), done)
      && Gathered(CollectCap(q, cfg), done, rows, servedBy, attempts, truncated);
    var shaped := new ResultRows<Row>(rows);
    shaped.OrderBy(RawCell, q.orderBy);
    OrderedLength(q.orderBy, rows);
    if q.limit.Some? && |shaped.rows| > q.limit.value { truncated := true; }
    shaped.Limit(q.limit);
    r := Ok(ProjectionReport(shaped.rows, servedBy, attempts, truncated));
    assert r.value == ReportOf(q, cfg, done);
  }

  lemma OrderedLength(keys: seq<OrderKey>, rows: seq<Row>)
    ensures |Ordered(RawCell, keys, rows)| == |rows|
  {
    SortKeeps(rows, OrderOf(RawCell, keys));
  }

  // ----- what a report means -----

  /** The attempts of the arrivals added up, and the host of each shard that arrived. */
  lemma {:induction false} ArrivedAttemptsMean(done: seq<Arrived>)
    ensures ArrivedAttempts(done) == Total(Map((o: Arrived) => o.attempts, done))
  {
    if done != [] {
      var front := done[..|done| - 1];
      ArrivedAttemptsMean(front);
      assert Map((o: Arrived) => o.attempts, done)[..|front|] == Map((o: Arrived) => o.attempts, front);
    }
  }

  lemma {:induction false} ArrivedHosts(done: seq<Arrived>, i: nat)
    requires i < |done| && forall j :: i < j < |done| ==> done[j].cid != done[i].cid
    ensures done[i].cid in ArrivedServedBy(done) && ArrivedServedBy(done)[done[i].cid] == done[i].servedBy
  {
    if i < |done| - 1 { ArrivedHosts(done[..|done| - 1], i); }
  }

  lemma {:induction false} ArrivedShards(done: seq<Arrived>, cid: string)
    ensures cid in ArrivedServedBy(done) <==> exists o :: o in done && o.cid == cid
  {
    if done != [] {
      var front, last := done[..|done| - 1], done[|done| - 1];
      assert done == front + [last];
      ArrivedShards(front, cid);
    }
  }

  /** The diagnostics of a report are those of the shards that arrived. */
  lemma ReportedArrivals(q: Query, cfg: RunConfig, done: seq<Arrived>, i: nat)
    ensures ReportOf(q, cfg, done).totalAttempts == Total(Map((o: Arrived) => o.attempts, done))
    ensures i < |done| && (forall j :: i < j < |done| ==> done[j].cid != done[i].cid) ==>
      done[i].cid in ReportOf(q, cfg, done).servedBy && ReportOf(q, cfg, done).servedBy[done[i].cid] == done[i].servedBy
  {
    ArrivedAttemptsMean(done);
    if i < |done| && forall j :: i < j < |done| ==> done[j].cid != done[i].cid { ArrivedHosts(done, i); }
  }

  /** In which cases a projection run does not get to its shards, the first that applies deciding. */
  lemma ProjectionCases(q: Query, shards: seq<Shard>, hosts: seq<string>, score: (string, string) -> nat,
                        w: World<seq<Row>>, cfg: RunConfig, r: Result<ProjectionReport, RunError>)
    requires ProjectionResult(q, shards, hosts, score, w, cfg, r)
    ensures !q.Valid() <==> r == Err(InvalidQuery)
    ensures q.Valid() && q.projection.None? <==> r == Err(NotAProjection)
    ensures q.Valid() && q.projection.Some? && shards == [] ==> r == Ok(ProjectionReport([], map[], 0, false))
    ensures r == Err(NoHosts) <==> q.Valid() && q.projection.Some? && shards != [] && hosts == []
    ensures q.Valid() && q.projection.Some? && shards != [] && hosts != [] && CheckScan(cfg.limits, shards).Some? ==>
      r == Err(CheckScan(cfg.limits, shards).value)
  {
    hide CheckScan, LiveProjection, Live, Ended, Arrivals, ReportOf, Query.Valid, ShortBefore, Allowed;
    if q.Valid() && q.IsProjection() && shards != [] && hosts != [] && CheckScan(cfg.limits, shards).None? && r.Err? {
      var order, done, i :| FailsNext(q, w, cfg, score, hosts, Live(q, shards), order, done, i, r.error);
      ProjectErrors(w, cfg, score, hosts, Live(q, shards), i);
    }
  }

  lemma ProjectErrors(w: World<seq<Row>>, cfg: RunConfig, score: (string, string) -> nat, hosts: seq<string>,
                      live: seq<Shard>, i: nat)
    requires i < |live| && LiveProjection(w, cfg, score, hosts, live, i).Err?
    ensures var e := LiveProjection(w, cfg, score, hosts, live, i).error; e.DeadlineExceeded? || e.Unserved?
  {
    hide ProjectResult, RankHosts, Expires, AllFail, LastError;
    ProjectedMeans(w, cfg, i, live[i].cid, RankHosts(score, live[i].cid, hosts));
  }
}
