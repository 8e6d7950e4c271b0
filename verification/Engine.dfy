// An aggregate run: prune, fan the live shards out, collect every outcome, reduce, finalise, shape.
module Engine {
  import opened Prelude
  import opened JsonModel
  import opened QueryModel
  import opened Partials
  import opened Results
  import opened Datasets
  import opened Planning
  import opened Failover
  import opened FanOut
  import opened Sorting

  function TotalRows(shards: seq<Shard>): nat {
    if shards == [] then 0 else TotalRows(shards[..|shards| - 1]) + shards[|shards| - 1].rows
  }

  function TotalBytes(shards: seq<Shard>): nat {
    if shards == [] then 0 else TotalBytes(shards[..|shards| - 1]) + shards[|shards| - 1].bytes
  }

  /** `check_scan`: the first bound the declared cost exceeds; a bound of zero is no bound. */
  function CheckScan(limits: CostLimits, shards: seq<Shard>): (e: Option<RunError>)
    ensures e == None <==>
      && (limits.maxShards == 0 || |shards| <= limits.maxShards)
      && (limits.maxScanRows == 0 || TotalRows(shards) <= limits.maxScanRows)
      && (limits.maxScanBytes == 0 || TotalBytes(shards) <= limits.maxScanBytes)
    ensures e.Some? ==> e.value.Cost? && 0 < e.value.limit < e.value.actual && e.value.what != ResultGroups
    ensures e.Some? && e.value.what == Bound.Shards ==> e.value.actual == |shards| && e.value.limit == limits.maxShards
    ensures e.Some? && e.value.what == RowsScanned ==>
      e.value.actual == TotalRows(shards) && e.value.limit == limits.maxScanRows
    ensures e.Some? && e.value.what == BytesScanned ==>
      e.value.actual == TotalBytes(shards) && e.value.limit == limits.maxScanBytes
    ensures e.Some? && limits.maxShards != 0 && |shards| > limits.maxShards ==> e.value.what == Bound.Shards
    ensures e.Some? && e.value.what == BytesScanned ==>
      limits.maxScanRows == 0 || TotalRows(shards) <= limits.maxScanRows
  {
    if limits.maxShards != 0 && |shards| > limits.maxShards then
      Some(Cost(Bound.Shards, |shards|, limits.maxShards))
    else if limits.maxScanRows != 0 && TotalRows(shards) > limits.maxScanRows then
      Some(Cost(RowsScanned, TotalRows(shards), limits.maxScanRows))
    else if limits.maxScanBytes != 0 && TotalBytes(shards) > limits.maxScanBytes then
      Some(Cost(BytesScanned, TotalBytes(shards), limits.maxScanBytes))
    else None
  }

  /** The declared rows and bytes are those of the shards, added up. */
  lemma {:induction false} TotalsMean(shards: seq<Shard>)
    ensures TotalRows(shards) == Total(Map((s: Shard) => s.rows, shards))
    ensures TotalBytes(shards) == Total(Map((s: Shard) => s.bytes, shards))
  {
    if shards != [] {
      var front := shards[..|shards| - 1];
      TotalsMean(front);
      assert Map((s: Shard) => s.rows, shards)[..|front|] == Map((s: Shard) => s.rows, front);
      assert Map((s: Shard) => s.bytes, shards)[..|front|] == Map((s: Shard) => s.bytes, front);
    }
  }

  /** The shards the planner cannot rule out. */
  function Live(q: Query, shards: seq<Shard>): seq<Shard> {
    Filter(shards, (s: Shard) => ShardCanMatch(s.stats, q.predicate_))
  }

  datatype RunReport = RunReport(
    results: seq<GroupResult>,
    servedBy: map<string, string>,
    totalAttempts: nat,
    redistributed: nat,
    verified: nat)

  ghost function NothingToDo(q: Query): RunReport {
    RunReport(Shape(q, Finalize(Partial(q.aggregates, map[]))), map[], 0, 0, 0)
  }

  function TotalAttempts<T>(outcomes: seq<Outcome<T>>): nat {
    if outcomes == [] then 0
    else TotalAttempts(outcomes[..|outcomes| - 1]) + outcomes[|outcomes| - 1].attempts
  }

  function ServedBy<T>(outcomes: seq<Outcome<T>>): map<string, string> {
    if outcomes == [] then map[]
    else
      var last := outcomes[|outcomes| - 1];
      ServedBy(outcomes[..|outcomes| - 1])[last.cid := last.servedBy]
  }

  function Redistributed<T>(outcomes: seq<Outcome<T>>): nat {
    if outcomes == [] then 0
    else Redistributed(outcomes[..|outcomes| - 1]) + if outcomes[|outcomes| - 1].redistributed then 1 else 0
  }

  function Verified<T>(outcomes: seq<Outcome<T>>): nat {
    if outcomes == [] then 0
    else Verified(outcomes[..|outcomes| - 1]) + if outcomes[|outcomes| - 1].verified then 1 else 0
  }

  function Parts(outcomes: seq<Outcome<Partial>>): seq<Partial> {
    Map((o: Outcome<Partial>) => o.partial, outcomes)
  }

  /** The report of a run whose shards were all served, unless it has too many groups. */
  ghost function Assemble(q: Query, cfg: RunConfig, outcomes: seq<Outcome<Partial>>): Result<RunReport, RunError> {
    var rows := Finalize(Partial(q.aggregates, ReduceGroups(Parts(outcomes))));
    var cap := cfg.limits.maxResultGroups;
    if cap != 0 && |rows| > cap then Err(Cost(ResultGroups, |rows|, cap))
    else Ok(RunReport(Shape(q, rows), ServedBy(outcomes), TotalAttempts(outcomes),
                      Redistributed(outcomes), Verified(outcomes)))
  }

  /** What the i-th live shard comes to, whenever it finishes. */
  ghost function LiveResult<T>(w: World<T>, cfg: RunConfig, score: (string, string) -> nat,
                               hosts: seq<string>, live: seq<Shard>, i: nat): Result<Outcome<T>, RunError>
    requires i < |live|
  {
    ShardResult(w, cfg, i, live[i].cid, RankHosts(score, live[i].cid, hosts))
  }

  ghost predicate AllServed<T>(w: World<T>, cfg: RunConfig, score: (string, string) -> nat,
                               hosts: seq<string>, live: seq<Shard>) {
    forall i :: 0 <= i < |live| ==> LiveResult(w, cfg, score, hosts, live, i).Ok?
  }

  /** The shards in `order` finish first, in that order, all served; then shard `i` comes back with
      the error `e`. */
  ghost predicate FailsAfter<T>(w: World<T>, cfg: RunConfig, score: (string, string) -> nat, hosts: seq<string>,
                                live: seq<Shard>, order: seq<nat>, i: nat, e: RunError) {
    && Allowed(order + [i], |live|, cfg.Width())
    && (forall n :: 0 <= n < |order| ==>
          order[n] < |live| && LiveResult(w, cfg, score, hosts, live, order[n]).Ok?)
    && i < |live| && LiveResult(w, cfg, score, hosts, live, i) == Err(e)
  }

  /** With one shard in flight at a time the error is that of the first shard that fails. */
  lemma NarrowWindowError<T>(w: World<T>, cfg: RunConfig, score: (string, string) -> nat, hosts: seq<string>,
                             live: seq<Shard>, order: seq<nat>, i: nat, e: RunError)
    requires FailsAfter(w, cfg, score, hosts, live, order, i, e) && cfg.Width() == 1
    ensures forall j :: 0 <= j < i ==> LiveResult(w, cfg, score, hosts, live, j).Ok?
  {
    hide LiveResult, Allowed;
    OneAtATime(order + [i], |live|, |order|);
    forall j | 0 <= j < i ensures LiveResult(w, cfg, score, hosts, live, j).Ok? {
      OneAtATime(order + [i], |live|, j);
      assert order[j] == j;
    }
  }

  ghost function LiveOutcomes<T>(w: World<T>, cfg: RunConfig, score: (string, string) -> nat,
                                 hosts: seq<string>, live: seq<Shard>): (s: seq<Outcome<T>>)
    requires AllServed(w, cfg, score, hosts, live)
    ensures |s| == |live|
    ensures forall i :: 0 <= i < |live| ==> LiveResult(w, cfg, score, hosts, live, i) == Ok(s[i])
  {
    seq(|live|, i requires 0 <= i < |live| => LiveResult(w, cfg, score, hosts, live, i).value)
  }

  /** The outcome of a run. The first shard error to arrive is the run's error; otherwise the report is built from
      every live shard's outcome, in shard order, whatever order they finished in. */
  ghost predicate RunOutcome(q: Query, shards: seq<Shard>, hosts: seq<string>, score: (string, string) -> nat,
                             w: World<Partial>, cfg: RunConfig, r: Result<RunReport, RunError>) {
    var live := Live(q, shards);
    if !q.Valid() then r == Err(InvalidQuery)
    else if shards == [] then r == Ok(NothingToDo(q))
    else if hosts == [] then r == Err(NoHosts)
    else if CheckScan(cfg.limits, shards).Some? then r == Err(CheckScan(cfg.limits, shards).value)
    else if live == [] then r == Ok(NothingToDo(q))
    else if AllServed(w, cfg, score, hosts, live) then
      r == Assemble(q, cfg, LiveOutcomes(w, cfg, score, hosts, live))
    else
      r.Err? && exists order, i :: FailsAfter(w, cfg, score, hosts, live, order, i, r.error)
  }

  // ----- what a report means -----

  /** No later outcome is for the same shard. */
  ghost predicate LastOf<T>(outcomes: seq<Outcome<T>>, i: nat) {
    i < |outcomes| && forall j :: i < j < |outcomes| ==> outcomes[j].cid != outcomes[i].cid
  }

  /** The diagnostics of a report add up those of its shards, and name the host of each. */
  lemma {:induction false} DiagnosticsMean<T>(outcomes: seq<Outcome<T>>)
    ensures TotalAttempts(outcomes) == Total(Map((o: Outcome<T>) => o.attempts, outcomes))
    ensures Redistributed(outcomes) == |Filter(outcomes, (o: Outcome<T>) => o.redistributed)|
    ensures Verified(outcomes) == |Filter(outcomes, (o: Outcome<T>) => o.verified)|
  {
    if outcomes != [] {
      var front := outcomes[..|outcomes| - 1];
      DiagnosticsMean(front);
      assert Map((o: Outcome<T>) => o.attempts, outcomes)[..|front|] == Map((o: Outcome<T>) => o.attempts, front);
    }
  }

  lemma {:induction false} ServedByMeans<T>(outcomes: seq<Outcome<T>>, i: nat)
    requires LastOf(outcomes, i)
    ensures outcomes[i].cid in ServedBy(outcomes) && ServedBy(outcomes)[outcomes[i].cid] == outcomes[i].servedBy
  {
    var n := |outcomes| - 1;
    if i < n {
      assert LastOf(outcomes[..n], i) && outcomes[n].cid != outcomes[i].cid;
      ServedByMeans(outcomes[..n], i);
    }
  }

  lemma {:induction false} ServedByShards<T>(outcomes: seq<Outcome<T>>, cid: string)
    ensures cid in ServedBy(outcomes) <==> exists o :: o in outcomes && o.cid == cid
  {
    if outcomes != [] {
      var front, last := outcomes[..|outcomes| - 1], outcomes[|outcomes| - 1];
      assert outcomes == front + [last];
      ServedByShards(front, cid);
    }
  }

  /** The report of a run whose shards were served: their partials' groups shaped, their diagnostics;
      or the cost error, if there are more groups than a cap that is set. */
  lemma ReportMeans(q: Query, cfg: RunConfig, outcomes: seq<Outcome<Partial>>)
    ensures var r := Assemble(q, cfg, outcomes);
      var groups := ReduceGroups(Map((o: Outcome<Partial>) => o.partial, outcomes));
      && (r.Err? <==> 0 < cfg.limits.maxResultGroups < |groups|)
      && (r.Err? ==> r == Err(Cost(ResultGroups, |groups|, cfg.limits.maxResultGroups)))
      && (r.Ok? ==>
            && r.value.results == Shape(q, Finalize(Partial(q.aggregates, groups)))
            && r.value.servedBy == ServedBy(outcomes) && r.value.totalAttempts == TotalAttempts(outcomes)
            && r.value.redistributed == Redistributed(outcomes) && r.value.verified == Verified(outcomes))
  {
    hide Shape, Finalize;
    var groups := ReduceGroups(Map((o: Outcome<Partial>) => o.partial, outcomes));
    GroupsCounted(Partial(q.aggregates, groups));
  }

  lemma GroupsCounted(p: Partial)
    ensures |Finalize(p)| == |p.groups|
  {
    hide Values, Finalize;
    FinalizeAt(p);
    SortedKeysAscend(p.groups.Keys);
    hide SortedKeys;
    CountedOnce(SortedKeys(p.groups.Keys), p.groups.Keys);
    assert |p.groups.Keys| == |p.groups|;
  }

  lemma {:induction false} CountedOnce<T>(s: seq<T>, members: set<T>)
    requires forall i, j :: 0 <= i < j < |s| ==> s[i] != s[j]
    requires forall x :: x in s <==> x in members
    ensures |s| == |members|
  {
    if s == [] {
      assert members == {};
    } else {
      var front, last := s[..|s| - 1], s[|s| - 1];
      assert s == front + [last] && last in s;
      assert forall i :: 0 <= i < |front| ==> front[i] == s[i] != last;
      CountedOnce(front, members - {last});
    }
  }

  /** In which cases a run does not get to its shards, the first that applies deciding: an invalid query
      is an error; a dataset without shards is answered with nothing; without hosts, and past a scan
      bound, there is an error; a dataset all of whose shards are pruned is answered with nothing. */
  lemma RunCases(q: Query, shards: seq<Shard>, hosts: seq<string>, score: (string, string) -> nat,
                 w: World<Partial>, cfg: RunConfig, r: Result<RunReport, RunError>)
    requires RunOutcome(q, shards, hosts, score, w, cfg, r)
    ensures !q.Valid() <==> r == Err(InvalidQuery)
    ensures q.Valid() && shards == [] ==> r == Ok(RunReport([], map[], 0, 0, 0))
    ensures r == Err(NoHosts) <==> q.Valid() && shards != [] && hosts == []
    ensures q.Valid() && shards != [] && hosts != [] && CheckScan(cfg.limits, shards).Some? ==>
      r == Err(CheckScan(cfg.limits, shards).value)
    ensures q.Valid() && hosts != [] && CheckScan(cfg.limits, shards).None? && Live(q, shards) == [] ==>
      r == Ok(RunReport([], map[], 0, 0, 0))
    ensures r.Ok? && hosts != [] ==> AllServed(w, cfg, score, hosts, Live(q, shards))
  {
    NothingMeans(q);
    hide CheckScan, Shape, Finalize, ShardCanMatch, LiveResult, RankHosts, Allowed, NothingToDo;
    var live := Live(q, shards);
    if r.Err? && q.Valid() && shards != [] && hosts != [] && !AllServed(w, cfg, score, hosts, live) && live != []
      && CheckScan(cfg.limits, shards).None? {
      var order, i :| FailsAfter(w, cfg, score, hosts, live, order, i, r.error);
      ShardErrors(w, cfg, score, hosts, live, i);
    }
  }

  lemma ShardErrors<T>(w: World<T>, cfg: RunConfig, score: (string, string) -> nat, hosts: seq<string>,
                       live: seq<Shard>, i: nat)
    requires i < |live| && LiveResult(w, cfg, score, hosts, live, i).Err?
    ensures var e := LiveResult(w, cfg, score, hosts, live, i).error; e != InvalidQuery && e != NoHosts && !e.Cost?
  {
    hide ShardResult, RankHosts, Expires, AllFail, LastError;
    FailureMeans(w, cfg, i, live[i].cid, RankHosts(score, live[i].cid, hosts));
  }

  /** Pruning leaves the shards that may match, in their order. */
  lemma LiveMeans(q: Query, shards: seq<Shard>, s: Shard)
    ensures Live(q, []) == []
    ensures Live(q, shards + [s]) == Live(q, shards) + if ShardCanMatch(s.stats, q.predicate_) then [s] else []
  {
    assert (shards + [s])[..|shards|] == shards;
  }

  lemma NothingMeans(q: Query)
    ensures NothingToDo(q) == RunReport([], map[], 0, 0, 0)
  {
    NoKeys();
    SortKeeps<GroupResult>([], OrderOf(GroupCell(q.groupBy), q.orderBy));
  }

  /** The finished slots hold what their shards come to. */
  ghost predicate SlotsHold<T>(w: World<T>, cfg: RunConfig, score: (string, string) -> nat, hosts: seq<string>,
                               live: seq<Shard>, slots: seq<Option<Outcome<T>>>) {
    && |slots| == |live|
    && forall i :: 0 <= i < |live| && slots[i].Some? ==> LiveResult(w, cfg, score, hosts, live, i) == Ok(slots[i].value)
  }

  /** Fan the live shards out through the window; any in-flight shard may finish next. */
  method MapShards<T(==,!new)>(live: seq<Shard>, hosts: seq<string>, score: (string, string) -> nat,
                               w: World<T>, cfg: RunConfig)
    returns (r: Result<seq<Outcome<T>>, RunError>)
    ensures AllServed(w, cfg, score, hosts, live) ==> r == Ok(LiveOutcomes(w, cfg, score, hosts, live))
    ensures !AllServed(w, cfg, score, hosts, live) ==>
      r.Err? && exists order, i :: FailsAfter(w, cfg, score, hosts, live, order, i, r.error)
  {
    hide Conserved, ShardResult, RankHosts, Finish, Start, Allowed, Unfinished;
    var width := cfg.Width();
    var fan: Fan<Outcome<T>> := Prime(|live|, width);
    StartConserved<Outcome<T>>(|live|, width);
    StartEmpty<Outcome<T>>(|live|, width);
    ghost var order: seq<nat> := [];
    while fan.inflight != {}
      invariant Conserved(fan, width) && fan.next <= width + |order|
      invariant SlotsHold(w, cfg, score, hosts, live, fan.slots)
      invariant Allowed(order, |live|, width)
      invariant forall n :: 0 <= n < |order| ==> order[n] < |live| && fan.slots[order[n]].Some?
      decreases |Unfinished(fan)|
    {
      var i :| i in fan.inflight;
      FinishedSlot(fan, width, i);
      AllowedStep(order, i, |live|, width);
      var ranked := RankHosts(score, live[i].cid, hosts);
      var task := new ShardTask.Planned(live[i], ranked);
      var result, _ := MapOneShard(w, cfg, i, task);
      assert result == LiveResult(w, cfg, score, hosts, live, i);
      match result
      case Err(e) =>
        assert FailsAfter(w, cfg, score, hosts, live, order, i, e);
        return Err(e);
      case Ok(outcome) =>
        order := order + [i];
        FinishConserved(fan, width, i, outcome);
        FinishSlots(fan, i, outcome);
        fan := Finish(fan, i, outcome);
    }
    DrainedIsComplete(fan, width);
    var outcomes: seq<Outcome<T>> := [];
    for n := 0 to |fan.slots|
      invariant |outcomes| == n
      invariant forall i :: 0 <= i < n ==> fan.slots[i] == Some(outcomes[i])
    {
      outcomes := outcomes + [fan.slots[n].value];
    }
    assert AllServed(w, cfg, score, hosts, live);
    assert outcomes == LiveOutcomes(w, cfg, score, hosts, live);
    r := Ok(outcomes);
  }

  lemma StartEmpty<T>(total: nat, width: nat)
    ensures |Start<T>(total, width).slots| == total
    ensures forall i :: 0 <= i < total ==> Start<T>(total, width).slots[i] == None
    ensures Start<T>(total, width).next <= width && Allowed([], total, width)
  {}

  lemma FinishedSlot<T>(f: Fan<T>, width: nat, i: nat)
    requires Conserved(f, width) && i in f.inflight
    ensures i < |f.slots| && f.slots[i].None? && i < f.next && i in Unfinished(f)
  {
    assert i in Unfinished(f) && i !in Pending(f);
  }

  lemma FinishSlots<T>(f: Fan<T>, i: nat, v: T)
    requires i in f.inflight && i < |f.slots|
    ensures Finish(f, i, v).slots == f.slots[i := Some(v)] && Finish(f, i, v).next <= f.next + 1
  {}

  /** `run`. */
  method Run(q: Query, shards: seq<Shard>, hosts: seq<string>, score: (string, string) -> nat,
             w: World<Partial>, cfg: RunConfig) returns (r: Result<RunReport, RunError>)
    ensures RunOutcome(q, shards, hosts, score, w, cfg, r)
  {
    hide CheckScan, Live, AllServed, LiveOutcomes, LiveResult, Shape, Finalize;
    if !q.Valid() { return Err(InvalidQuery); }
    if shards == [] {
      var report := RunNothing(q);
      return Ok(report);
    }
    if hosts == [] { return Err(NoHosts); }
    var cost := CheckScan(cfg.limits, shards);
    if cost.Some? { return Err(cost.value); }
    var live := Live(q, shards);
    if live == [] {
      var report := RunNothing(q);
      return Ok(report);
    }
    var served := MapShards(live, hosts, score, w, cfg);
    match served
    case Err(e) => return Err(e);
    case Ok(outcomes) =>
      r := Collect(q, cfg, outcomes);
  }

  method RunNothing(q: Query) returns (report: RunReport)
    ensures report == NothingToDo(q)
  {
    var rows := FinalizeInOrder(Partial(q.aggregates, map[]));
    var shaped := new ResultRows<GroupResult>(rows);
    shaped.OrderBy(GroupCell(q.groupBy), q.orderBy);
    shaped.Limit(q.limit);
    report := RunReport(shaped.rows, map[], 0, 0, 0);
  }

  /** Turn the outcomes into the report: gather partials and diagnostics, reduce, finalise, check the
      group cap, then order and limit. */
  method Collect(q: Query, cfg: RunConfig, outcomes: seq<Outcome<Partial>>) returns (r: Result<RunReport, RunError>)
    ensures r == Assemble(q, cfg, outcomes)
  {
    var partials: seq<Partial> := [];
    var servedBy: map<string, string> := map[];
    var attempts, redistributed, verified := 0, 0, 0;
    for n := 0 to |outcomes|
      invariant partials == Parts(outcomes[..n])
      invariant servedBy == ServedBy(outcomes[..n])
      invariant attempts == TotalAttempts(outcomes[..n])
      invariant redistributed == Redistributed(outcomes[..n])
      invariant verified == Verified(outcomes[..n])
    {
      var o := outcomes[n];
      assert outcomes[..n + 1][..n] == outcomes[..n];
      attempts := attempts + o.attempts;
      if o.redistributed { redistributed := redistributed + 1; }
      if o.verified { verified := verified + 1; }
      servedBy := servedBy[o.cid := o.servedBy];
      partials := partials + [o.partial];
    }
    assert outcomes[..|outcomes|] == outcomes;
    var merged := Reduce(q.aggregates, partials);
    var rows := FinalizeInOrder(merged);
    var cap := cfg.limits.maxResultGroups;
    if cap != 0 && |rows| > cap { return Err(Cost(ResultGroups, |rows|, cap)); }
    var shaped := new ResultRows<GroupResult>(rows);
    shaped.OrderBy(GroupCell(q.groupBy), q.orderBy);
    shaped.Limit(q.limit);
    r := Ok(RunReport(shaped.rows, servedBy, attempts, redistributed, verified));
  }
}
