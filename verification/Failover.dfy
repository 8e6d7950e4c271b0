// Serving one shard: walk its host ranking, collect copies until there are enough, give up at the
// attempt cap, the end of the ranking or the deadline, and verify redundant copies by vote.
module Failover {
  import opened Prelude
  import opened Planning
  import opened Quorums

  datatype MapError = Timeout | HostError | MissingBlob | Corrupt

  datatype CostLimits = CostLimits(maxScanBytes: nat, maxScanRows: nat, maxShards: nat, maxResultGroups: nat)

  datatype RunConfig = RunConfig(
    maxAttemptsPerShard: nat,
    maxInFlight: nat,
    redundancy: nat,
    quorum: nat,
    limits: CostLimits)
  {
    function Attempts(): nat { MaxInt(maxAttemptsPerShard, 1) }
    function Copies(): nat { MaxInt(redundancy, 1) }
    function Width(): nat { MaxInt(maxInFlight, 1) }
  }

  /** Every setting of a run counts as at least one. */
  lemma SettingsMean(cfg: RunConfig)
    ensures cfg.maxAttemptsPerShard > 0 ==> cfg.Attempts() == cfg.maxAttemptsPerShard
    ensures cfg.redundancy > 0 ==> cfg.Copies() == cfg.redundancy
    ensures cfg.maxInFlight > 0 ==> cfg.Width() == cfg.maxInFlight
    ensures cfg.maxAttemptsPerShard == 0 ==> cfg.Attempts() == 1
    ensures cfg.redundancy == 0 ==> cfg.Copies() == 1
    ensures cfg.maxInFlight == 0 ==> cfg.Width() == 1
  {}

  datatype Bound = Shards | RowsScanned | BytesScanned | ResultGroups

  datatype RunError =
    | InvalidQuery
    | NotAProjection
    | NoHosts
    | Cost(what: Bound, actual: nat, limit: nat)
    | DeadlineExceeded(cid: string)
    | Unserved(cid: string, last: Option<MapError>)
    | Disagreement(cid: string)

  /** Everything outside the coordinator's control: what the k-th call for a task brings back, and
      whether the deadline has passed when the k-th call is about to be made. */
  datatype World<T> = World(reply: (nat, nat) -> Result<T, MapError>, late: (nat, nat) -> bool)

  datatype Walked<+T> = Expired | Walked(copies: seq<Copy<T>>, attempts: nat, last: Option<MapError>)

  /** The walk from the k-th call on, holding `copies` so far. */
  function Walk<T>(w: World<T>, idx: nat, ranked: seq<string>, attempts: nat, redundancy: nat,
                   k: nat, copies: seq<Copy<T>>, last: Option<MapError>): Walked<T>
    decreases |ranked| - k
  {
    if w.late(idx, k) then Expired
    else if k >= |ranked| || k >= attempts then Walked(copies, k, last)
    else
      match w.reply(idx, k)
      case Err(e) => Walk(w, idx, ranked, attempts, redundancy, k + 1, copies, Some(e))
      case Ok(p) =>
        var copies' := copies + [Copy(ranked[k], p)];
        if |copies'| >= redundancy || k + 1 >= |ranked| then Walked(copies', k + 1, None)
        else Walk(w, idx, ranked, attempts, redundancy, k + 1, copies', None)
  }

  function WalkOf<T>(w: World<T>, cfg: RunConfig, idx: nat, ranked: seq<string>): Walked<T> {
    Walk(w, idx, ranked, cfg.Attempts(), cfg.Copies(), 0, [], None)
  }

  datatype Outcome<+T> = Outcome(
    cid: string, servedBy: string, partial: T, attempts: nat, redistributed: bool, verified: bool)

  /** What mapping one shard comes to. */
  ghost function ShardResult<T>(w: World<T>, cfg: RunConfig, idx: nat, cid: string, ranked: seq<string>)
    : Result<Outcome<T>, RunError>
  {
    match WalkOf(w, cfg, idx, ranked)
    case Expired => Err(DeadlineExceeded(cid))
    case Walked(copies, attempts, last) =>
      if copies == [] then Err(Unserved(cid, last))
      else
        var verified := cfg.Copies() > 1 && |copies| > 1;
        var chosen := if verified then Verdict(Replies(copies), cfg.quorum) else Some(copies[0].reply);
        if chosen.None? then Err(Disagreement(cid))
        else Ok(Outcome(cid, copies[0].host, chosen.value, attempts, attempts > |copies|, verified))
  }

  ghost predicate Distinct<T>(s: seq<T>) {
    forall i, j :: 0 <= i < j < |s| ==> s[i] != s[j]
  }

  /** The hosts asked are a beginning of the ranking, no longer than the attempt cap; none is asked
      twice if the ranking names none twice. */
  ghost predicate Asked(asked: seq<string>, ranked: seq<string>, cfg: RunConfig) {
    asked <= ranked && |asked| <= cfg.Attempts() && (Distinct(ranked) ==> Distinct(asked))
  }

  /** `map_one_shard`. The hosts it asked are the ranking up to where it stopped. */
  method MapOneShard<T(==,!new)>(w: World<T>, cfg: RunConfig, idx: nat, task: ShardTask)
    returns (r: Result<Outcome<T>, RunError>, ghost asked: seq<string>)
    requires task.attempt == 0
    modifies task
    ensures r == ShardResult(w, cfg, idx, task.shard.cid, task.rankedHosts)
    ensures Asked(asked, task.rankedHosts, cfg) && (r.Ok? ==> |asked| == r.value.attempts)
  {
    var attempts, last := 0, None;
    var copies: seq<Copy<T>> := [];
    var firstHost: Option<string> := None;
    var done := false;
    asked := [];
    while !done
      invariant firstHost == if copies == [] then None else Some(copies[0].host)
      invariant |asked| == attempts <= cfg.Attempts() && asked <= task.rankedHosts
      invariant !done ==>
        && task.attempt == MinInt(attempts, |task.rankedHosts|)
        && attempts <= |task.rankedHosts|
        && WalkOf(w, cfg, idx, task.rankedHosts)
           == Walk(w, idx, task.rankedHosts, cfg.Attempts(), cfg.Copies(), attempts, copies, last)
      invariant done ==>
        && (copies == [] ==> WalkOf(w, cfg, idx, task.rankedHosts) == Walked(copies, attempts, last))
        && (copies != [] ==> exists l :: WalkOf(w, cfg, idx, task.rankedHosts) == Walked(copies, attempts, l))
      decreases !done, |task.rankedHosts| - attempts
    {
      if w.late(idx, attempts) { return Err(DeadlineExceeded(task.shard.cid)), asked; }
      var host := task.Host();
      if host.None? || attempts >= cfg.Attempts() {
        done := true;
      } else {
        attempts, asked := attempts + 1, asked + [host.value];
        match w.reply(idx, attempts - 1)
        case Ok(partial) =>
          if firstHost.None? { firstHost := host; }
          copies := copies + [Copy(host.value, partial)];
          last := None;
          if |copies| >= cfg.Copies() {
            done := true;
          } else {
            var more := task.Advance();
            if !more { done := true; }
          }
        case Err(e) =>
          last := Some(e);
          var _ := task.Advance();
      }
    }
    if copies == [] { return Err(Unserved(task.shard.cid, last)), asked; }
    var verified := cfg.Copies() > 1 && |copies| > 1;
    var chosen := Some(copies[0].reply);
    if verified {
      chosen := SelectQuorum(copies, cfg.quorum);
      if chosen.None? { return Err(Disagreement(task.shard.cid)), asked; }
    }
    r := Ok(Outcome(task.shard.cid, firstHost.value, chosen.value, attempts, attempts > |copies|, verified));
  }

  datatype ProjectOutcome<+T> = ProjectOutcome(cid: string, servedBy: string, rows: T, attempts: nat)

  /** Projecting one shard is the same walk with a single copy and no vote. */
  function ProjectResult<T>(w: World<T>, cfg: RunConfig, idx: nat, cid: string, ranked: seq<string>)
    : Result<ProjectOutcome<T>, RunError>
  {
    match Walk(w, idx, ranked, cfg.Attempts(), 1, 0, [], None)
    case Expired => Err(DeadlineExceeded(cid))
    case Walked(copies, attempts, last) =>
      if copies == [] then Err(Unserved(cid, last))
      else Ok(ProjectOutcome(cid, copies[0].host, copies[0].reply, attempts))
  }

  /** `project_one_shard`. */
  method ProjectOneShard<T>(w: World<T>, cfg: RunConfig, idx: nat, task: ShardTask)
    returns (r: Result<ProjectOutcome<T>, RunError>, ghost asked: seq<string>)
    requires task.attempt == 0
    modifies task
    ensures r == ProjectResult(w, cfg, idx, task.shard.cid, task.rankedHosts)
    ensures Asked(asked, task.rankedHosts, cfg) && (r.Ok? ==> |asked| == r.value.attempts)
  {
    var attempts, last := 0, None;
    asked := [];
    while true
      invariant attempts <= |task.rankedHosts| && task.attempt == attempts
      invariant |asked| == attempts <= cfg.Attempts() && asked <= task.rankedHosts
      invariant Walk(w, idx, task.rankedHosts, cfg.Attempts(), 1, 0, [], None)
             == Walk(w, idx, task.rankedHosts, cfg.Attempts(), 1, attempts, [], last)
      decreases |task.rankedHosts| - attempts
    {
      if w.late(idx, attempts) { return Err(DeadlineExceeded(task.shard.cid)), asked; }
      var host := task.Host();
      if host.None? || attempts >= cfg.Attempts() { break; }
      attempts, asked := attempts + 1, asked + [host.value];
      match w.reply(idx, attempts - 1)
      case Ok(rows) => return Ok(ProjectOutcome(task.shard.cid, host.value, rows, attempts)), asked;
      case Err(e) =>
        last := Some(e);
        var _ := task.Advance();
    }
    r := Err(Unserved(task.shard.cid, last));
  }

  // ----- what the walk collects -----

  /** The successful replies among the first `n` hosts of the ranking. */
  ghost function Served<T>(w: World<T>, idx: nat, ranked: seq<string>, n: nat): (s: seq<Copy<T>>)
    requires n <= |ranked|
    ensures |s| <= n
  {
    if n == 0 then []
    else
      Served(w, idx, ranked, n - 1)
      + if w.reply(idx, n - 1).Ok? then [Copy(ranked[n - 1], w.reply(idx, n - 1).value)] else []
  }

  ghost function Failures<T>(w: World<T>, idx: nat, n: nat): nat {
    if n == 0 then 0 else Failures(w, idx, n - 1) + if w.reply(idx, n - 1).Err? then 1 else 0
  }

  lemma {:induction false} ServedPrefix<T>(w: World<T>, idx: nat, ranked: seq<string>, k: nat, n: nat)
    requires k <= n <= |ranked|
    ensures |Served(w, idx, ranked, k)| <= |Served(w, idx, ranked, n)|
    ensures Served(w, idx, ranked, n)[..|Served(w, idx, ranked, k)|] == Served(w, idx, ranked, k)
  {
    if k < n { ServedPrefix(w, idx, ranked, k, n - 1); }
  }

  lemma {:induction false} ServedCount<T>(w: World<T>, idx: nat, ranked: seq<string>, n: nat)
    requires n <= |ranked|
    ensures |Served(w, idx, ranked, n)| + Failures(w, idx, n) == n
    ensures Served(w, idx, ranked, n) == [] <==> forall k :: 0 <= k < n ==> w.reply(idx, k).Err?
  {
    if n > 0 { ServedCount(w, idx, ranked, n - 1); }
  }

  lemma {:induction false} ServedHosts<T>(w: World<T>, idx: nat, ranked: seq<string>, n: nat)
    requires n <= |ranked|
    ensures forall c :: c in Served(w, idx, ranked, n) ==>
      exists k :: 0 <= k < n && c.host == ranked[k] && w.reply(idx, k) == Ok(c.reply)
  {
    if n > 0 { ServedHosts(w, idx, ranked, n - 1); }
  }

  lemma {:induction false} ServedDistinct<T>(w: World<T>, idx: nat, ranked: seq<string>, n: nat)
    requires n <= |ranked| && Distinct(ranked)
    ensures DistinctHosts(Served(w, idx, ranked, n))
  {
    if n > 0 {
      ServedDistinct(w, idx, ranked, n - 1);
      ServedHosts(w, idx, ranked, n - 1);
      var s := Served(w, idx, ranked, n - 1);
      forall i | 0 <= i < |s| ensures s[i].host != ranked[n - 1] { assert s[i] in s; }
    }
  }

  /** After `k` calls nothing is left to do: the copies are all there, or the last host of the ranking
      has just answered. The deadline is then not looked at any more. */
  ghost predicate WalkOver<T>(w: World<T>, idx: nat, ranked: seq<string>, redundancy: nat, k: nat)
    requires k <= |ranked|
  {
    |Served(w, idx, ranked, k)| >= redundancy || (0 < k == |ranked| && w.reply(idx, k - 1).Ok?)
  }

  /** The deadline is found to have passed before call `k`, and not before any earlier one. */
  ghost predicate ExpiresAt<T>(w: World<T>, idx: nat, ranked: seq<string>, redundancy: nat, k: nat)
    requires k <= |ranked|
  {
    w.late(idx, k) && (forall j :: 0 <= j < k ==> !w.late(idx, j)) && !WalkOver(w, idx, ranked, redundancy, k)
  }

  ghost predicate Expires<T>(w: World<T>, idx: nat, ranked: seq<string>, attempts: nat, redundancy: nat) {
    exists k :: 0 <= k <= MinInt(attempts, |ranked|) && ExpiresAt(w, idx, ranked, redundancy, k)
  }

  /** The error of the last of `n` calls, if any was made. */
  ghost predicate LastError<T>(w: World<T>, idx: nat, n: nat, last: Option<MapError>) {
    if n == 0 then last == None else w.reply(idx, n - 1).Err? && last == Some(w.reply(idx, n - 1).error)
  }

  ghost predicate WalkFacts<T>(w: World<T>, idx: nat, ranked: seq<string>, attempts: nat, redundancy: nat,
                               r: Walked<T>) {
    var cap := MinInt(attempts, |ranked|);
    match r
    case Expired => Expires(w, idx, ranked, attempts, redundancy)
    case Walked(copies, n, last) =>
      && n <= cap
      && copies == Served(w, idx, ranked, n)
      && copies == Take(Served(w, idx, ranked, cap), redundancy)
      && (n < cap ==> |copies| == redundancy)
      && n == |copies| + Failures(w, idx, n)
      && (copies == [] <==> forall k :: 0 <= k < cap ==> w.reply(idx, k).Err?)
      && (copies == [] ==> LastError(w, idx, n, last))
      && (forall k :: 0 <= k < n ==> !w.late(idx, k))
      && (w.late(idx, n) ==> WalkOver(w, idx, ranked, redundancy, n))
  }

  /** A walk that stopped after `n` calls, out of candidates or with all its copies. */
  lemma StoppedWalk<T>(w: World<T>, idx: nat, ranked: seq<string>, attempts: nat, redundancy: nat,
                       n: nat, last: Option<MapError>)
    requires redundancy > 0 && n <= MinInt(attempts, |ranked|)
    requires |Served(w, idx, ranked, n)| <= redundancy
    requires n == MinInt(attempts, |ranked|) || |Served(w, idx, ranked, n)| == redundancy
    requires Served(w, idx, ranked, n) == [] ==> LastError(w, idx, n, last)
    requires forall k :: 0 <= k < n ==> !w.late(idx, k)
    requires w.late(idx, n) ==> WalkOver(w, idx, ranked, redundancy, n)
    ensures WalkFacts(w, idx, ranked, attempts, redundancy, Walked(Served(w, idx, ranked, n), n, last))
  {
    var cap := MinInt(attempts, |ranked|);
    ServedCount(w, idx, ranked, n);
    ServedCount(w, idx, ranked, cap);
    ServedPrefix(w, idx, ranked, n, cap);
    hide Served, Failures, LastError, WalkOver;
    var s, t := Served(w, idx, ranked, n), Served(w, idx, ranked, cap);
    if n < cap { assert t[..redundancy] == s; }
    assert s == Take(t, redundancy);
    if s != [] { assert t[0] == s[0]; }
  }

  lemma {:induction false} WalkFrom<T>(w: World<T>, idx: nat, ranked: seq<string>, attempts: nat, redundancy: nat,
                                       k: nat, copies: seq<Copy<T>>, last: Option<MapError>)
    requires redundancy > 0 && k <= MinInt(attempts, |ranked|)
    requires copies == Served(w, idx, ranked, k) && !WalkOver(w, idx, ranked, redundancy, k)
    requires copies == [] ==> LastError(w, idx, k, last)
    requires forall j :: 0 <= j < k ==> !w.late(idx, j)
    ensures WalkFacts(w, idx, ranked, attempts, redundancy,
                      Walk(w, idx, ranked, attempts, redundancy, k, copies, last))
    decreases |ranked| - k
  {
    hide WalkFacts;
    var cap := MinInt(attempts, |ranked|);
    if w.late(idx, k) {
      LateWalk(w, idx, ranked, attempts, redundancy, k);
    } else if k == cap {
      StoppedWalk(w, idx, ranked, attempts, redundancy, k, last);
    } else {
      match w.reply(idx, k)
      case Err(e) => WalkFrom(w, idx, ranked, attempts, redundancy, k + 1, copies, Some(e));
      case Ok(p) =>
        var copies' := copies + [Copy(ranked[k], p)];
        if |copies'| < redundancy && k + 1 < |ranked| {
          WalkFrom(w, idx, ranked, attempts, redundancy, k + 1, copies', None);
        } else {
          StoppedWalk(w, idx, ranked, attempts, redundancy, k + 1, None);
        }
    }
  }

  lemma LateWalk<T>(w: World<T>, idx: nat, ranked: seq<string>, attempts: nat, redundancy: nat, k: nat)
    requires k <= MinInt(attempts, |ranked|) && ExpiresAt(w, idx, ranked, redundancy, k)
    ensures WalkFacts(w, idx, ranked, attempts, redundancy, Expired)
  {
    hide ExpiresAt;
  }

  /** Exactly when a walk runs into the deadline. */
  lemma ExpiredExact<T>(w: World<T>, idx: nat, ranked: seq<string>, attempts: nat, redundancy: nat, r: Walked<T>)
    requires redundancy > 0 && WalkFacts(w, idx, ranked, attempts, redundancy, r)
    ensures r == Expired <==> Expires(w, idx, ranked, attempts, redundancy)
  {
    if r.Walked? {
      var n := r.attempts;
      forall k | 0 <= k <= MinInt(attempts, |ranked|) ensures !ExpiresAt(w, idx, ranked, redundancy, k) {
        if k >= n { ServedPrefix(w, idx, ranked, n, k); }
      }
    }
  }

  /** The collected copies are exactly the first `redundancy` successes among the first
      `max_attempts` ranked hosts; each host is asked once; attempts are copies plus failures; the
      walk stops early only with all the copies it wanted; and without a deadline a shard goes
      unserved exactly when all those candidates failed. */
  lemma WalkCollects<T>(w: World<T>, cfg: RunConfig, idx: nat, ranked: seq<string>)
    ensures WalkFacts(w, idx, ranked, cfg.Attempts(), cfg.Copies(), WalkOf(w, cfg, idx, ranked))
    ensures Distinct(ranked) && WalkOf(w, cfg, idx, ranked).Walked? ==>
      DistinctHosts(WalkOf(w, cfg, idx, ranked).copies)
  {
    WalkFrom(w, idx, ranked, cfg.Attempts(), cfg.Copies(), 0, [], None);
    if Distinct(ranked) && WalkOf(w, cfg, idx, ranked).Walked? {
      ServedDistinct(w, idx, ranked, WalkOf(w, cfg, idx, ranked).attempts);
    }
  }

  /** Without a deadline and redundancy, a shard is served exactly when some candidate within the
      attempt cap answers, and then by the best-ranked one that does. */
  lemma FailoverServes<T>(w: World<T>, cfg: RunConfig, idx: nat, cid: string, ranked: seq<string>)
    requires cfg.redundancy <= 1 && forall k :: !w.late(idx, k)
    ensures var cap := MinInt(cfg.Attempts(), |ranked|);
      && (ShardResult(w, cfg, idx, cid, ranked).Ok? <==> exists k :: 0 <= k < cap && w.reply(idx, k).Ok?)
      && (ShardResult(w, cfg, idx, cid, ranked).Ok? ==>
           var o := ShardResult(w, cfg, idx, cid, ranked).value;
           && 0 < o.attempts <= cap && o.servedBy == ranked[o.attempts - 1]
           && w.reply(idx, o.attempts - 1) == Ok(o.partial)
           && forall k :: 0 <= k < o.attempts - 1 ==> w.reply(idx, k).Err?)
  {
    hide Walk, WalkOf, Verdict, Served, Failures, WalkOver, LastError;
    WalkCollects(w, cfg, idx, ranked);
    match WalkOf(w, cfg, idx, ranked)
    case Expired =>
    case Walked(copies, n, _) =>
      if copies != [] {
        LastCallServed(w, cfg, idx, ranked);
      }
  }

  /** With a single copy wanted, the last call made is the one that served. */
  lemma LastCallServed<T>(w: World<T>, cfg: RunConfig, idx: nat, ranked: seq<string>)
    requires cfg.redundancy <= 1 && WalkOf(w, cfg, idx, ranked).Walked?
    requires WalkOf(w, cfg, idx, ranked).copies != []
    ensures var n := WalkOf(w, cfg, idx, ranked).attempts;
      && 0 < n <= |ranked| && w.reply(idx, n - 1).Ok?
      && WalkOf(w, cfg, idx, ranked).copies == [Copy(ranked[n - 1], w.reply(idx, n - 1).value)]
      && forall k :: 0 <= k < n - 1 ==> w.reply(idx, k).Err?
  {
    FirstSuccess(w, idx, ranked, cfg.Attempts(), 0, None);
  }

  lemma {:induction false} FirstSuccess<T>(w: World<T>, idx: nat, ranked: seq<string>, attempts: nat,
                                           k: nat, last: Option<MapError>)
    requires forall j :: 0 <= j < k ==> w.reply(idx, j).Err?
    ensures var r := Walk(w, idx, ranked, attempts, 1, k, [], last);
      r.Walked? && r.copies != [] ==>
        && 0 < r.attempts <= |ranked| && w.reply(idx, r.attempts - 1).Ok?
        && r.copies == [Copy(ranked[r.attempts - 1], w.reply(idx, r.attempts - 1).value)]
        && forall j :: 0 <= j < r.attempts - 1 ==> w.reply(idx, j).Err?
    decreases |ranked| - k
  {
    if !w.late(idx, k) && k < |ranked| && k < attempts {
      match w.reply(idx, k)
      case Err(e) => FirstSuccess(w, idx, ranked, attempts, k + 1, Some(e));
      case Ok(_) =>
    }
  }

  // ----- what the outcomes mean -----

  ghost predicate AllFail<T>(w: World<T>, idx: nat, n: nat) {
    forall k :: 0 <= k < n ==> w.reply(idx, k).Err?
  }

  /** A served shard made no call after the deadline; it counts as redistributed if and only if one of
      its calls failed, and as verified if and only if it has several copies. */
  lemma ServedMeans<T>(w: World<T>, cfg: RunConfig, idx: nat, cid: string, ranked: seq<string>)
    requires ShardResult(w, cfg, idx, cid, ranked).Ok?
    ensures var o := ShardResult(w, cfg, idx, cid, ranked).value;
      && o.cid == cid && o.attempts <= |ranked|
      && (forall k :: 0 <= k < o.attempts ==> !w.late(idx, k))
      && (o.redistributed <==> exists k :: 0 <= k < o.attempts && w.reply(idx, k).Err?)
      && (o.verified <==> cfg.redundancy > 1 && |Served(w, idx, ranked, o.attempts)| > 1)
      && |Served(w, idx, ranked, o.attempts)| <= MaxInt(cfg.redundancy, 1)
  {
    hide Walk, Verdict;
    WalkCollects(w, cfg, idx, ranked);
    var o := ShardResult(w, cfg, idx, cid, ranked).value;
    FailuresMean(w, idx, o.attempts);
  }

  lemma {:induction false} FailuresMean<T>(w: World<T>, idx: nat, n: nat)
    ensures Failures(w, idx, n) > 0 <==> exists k :: 0 <= k < n && w.reply(idx, k).Err?
  {
    if n > 0 { FailuresMean(w, idx, n - 1); }
  }

  /** Exactly when, and with what, a shard fails: past the deadline; unserved, with the error of its last
      call, when all candidates within the cap failed in time; in disagreement otherwise. */
  lemma FailureMeans<T>(w: World<T>, cfg: RunConfig, idx: nat, cid: string, ranked: seq<string>)
    ensures var r, cap := ShardResult(w, cfg, idx, cid, ranked), MinInt(MaxInt(cfg.maxAttemptsPerShard, 1), |ranked|);
      && (r == Err(DeadlineExceeded(cid)) <==>
            Expires(w, idx, ranked, MaxInt(cfg.maxAttemptsPerShard, 1), MaxInt(cfg.redundancy, 1)))
      && (r.Err? && r.error.Unserved? ==>
            r.error.cid == cid && AllFail(w, idx, cap) && LastError(w, idx, cap, r.error.last))
      && (AllFail(w, idx, cap) && r != Err(DeadlineExceeded(cid)) ==> r.Err? && r.error.Unserved?)
      && (r.Err? ==> r == Err(DeadlineExceeded(cid)) || r.error.Unserved? || r == Err(Disagreement(cid)))
      && (r == Err(Disagreement(cid)) ==> cfg.redundancy > 1)
  {
    hide Walk, Verdict, Expires, LastError;
    WalkCollects(w, cfg, idx, ranked);
    ExpiredExact(w, idx, ranked, cfg.Attempts(), cfg.Copies(), WalkOf(w, cfg, idx, ranked));
  }

  /** The same for a projected shard: no call after the deadline, the first answer taken. */
  lemma ProjectedMeans<T>(w: World<T>, cfg: RunConfig, idx: nat, cid: string, ranked: seq<string>)
    ensures var r, cap := ProjectResult(w, cfg, idx, cid, ranked), MinInt(MaxInt(cfg.maxAttemptsPerShard, 1), |ranked|);
      && (r.Ok? ==>
            var o := r.value;
            && o.cid == cid && 0 < o.attempts <= cap && o.servedBy == ranked[o.attempts - 1]
            && w.reply(idx, o.attempts - 1) == Ok(o.rows)
            && forall k :: 0 <= k < o.attempts ==> !w.late(idx, k) && (k < o.attempts - 1 ==> w.reply(idx, k).Err?))
      && (r == Err(DeadlineExceeded(cid)) <==> Expires(w, idx, ranked, MaxInt(cfg.maxAttemptsPerShard, 1), 1))
      && (r.Err? && r != Err(DeadlineExceeded(cid)) <==>
            AllFail(w, idx, cap) && !Expires(w, idx, ranked, MaxInt(cfg.maxAttemptsPerShard, 1), 1))
      && (r.Err? && r != Err(DeadlineExceeded(cid)) ==>
            r.error.Unserved? && r.error.cid == cid && LastError(w, idx, cap, r.error.last))
  {
    var walked := Walk(w, idx, ranked, cfg.Attempts(), 1, 0, [], None);
    FirstSuccess(w, idx, ranked, cfg.Attempts(), 0, None);
    hide Walk;
    WalkFrom(w, idx, ranked, cfg.Attempts(), 1, 0, [], None);
    ExpiredExact(w, idx, ranked, cfg.Attempts(), 1, walked);
    hide Expires, LastError;
  }

  // ----- the host named as serving -----

  /** Exactly when the host reported as serving returned the reply that was chosen: when there was no
      vote, or no other reply outnumbers its own. */
  lemma ServedByExact<T(!new)>(w: World<T>, cfg: RunConfig, idx: nat, cid: string, ranked: seq<string>)
    requires ShardResult(w, cfg, idx, cid, ranked).Ok?
    ensures var o, copies := ShardResult(w, cfg, idx, cid, ranked).value, WalkOf(w, cfg, idx, ranked).copies;
      && copies != [] && o.servedBy == copies[0].host
      && (copies[0].reply == o.partial <==>
            !o.verified || forall p :: p in Replies(copies) ==>
              multiset(Replies(copies))[p] <= multiset(Replies(copies))[copies[0].reply])
  {
    hide Walk;
    var o, replies := ShardResult(w, cfg, idx, cid, ranked).value, Replies(WalkOf(w, cfg, idx, ranked).copies);
    if o.verified {
      LeaderLeads(replies, |replies|);
      var i := Leader(replies, |replies|);
      assert replies[i] in replies && replies[0] in replies;
    }
  }

  /** Three copies, a quorum of two, the first host lying: the lie is outvoted, and the host that told
      it is reported as serving the shard, verified. */
  lemma OutvotedHostServes<T(!new)>(cid: string, honest: T, lie: T)
    requires lie != honest
    ensures var w: World<T> := World((i, k) => Ok(if k == 0 then lie else honest), (i, k) => false);
      var cfg, ranked := RunConfig(3, 1, 3, 2, CostLimits(0, 0, 0, 0)), ["a", "b", "c"];
      && w.reply(0, 0) == Ok(lie)
      && ShardResult(w, cfg, 0, cid, ranked) == Ok(Outcome(cid, "a", honest, 3, false, true))
  {
    var w: World<T> := World((i, k) => Ok(if k == 0 then lie else honest), (i, k) => false);
    var ranked := ["a", "b", "c"];
    var one, two := [Copy("a", lie)], [Copy("a", lie), Copy("b", honest)];
    var three := two + [Copy("c", honest)];
    assert Walk(w, 0, ranked, 3, 3, 2, two, None) == Walked(three, 3, None);
    assert one + [Copy("b", honest)] == two;
    assert Walk(w, 0, ranked, 3, 3, 1, one, None) == Walked(three, 3, None);
    assert [] + one == one;
    assert Walk(w, 0, ranked, 3, 3, 0, [], None) == Walked(three, 3, None);
    hide Walk;
    assert Replies(three) == [lie, honest, honest];
    LeaderLeads(Replies(three), 3);
  }
}
