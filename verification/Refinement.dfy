// The distributed run refines the query evaluated once over all rows: with honest hosts always, and
// with a bounded number of lying hosts whenever enough copies of every shard were collected.
module Refinement {
  import opened Prelude
  import opened JsonModel
  import opened QueryModel
  import opened Partials
  import opened Results
  import opened Datasets
  import opened Planning
  import opened Quorums
  import opened Failover
  import opened Engine

  /** `data[i]` are the rows behind `shards[i]`; statistics, where present, were computed from them. */
  ghost predicate Stored(shards: seq<Shard>, data: seq<seq<Row>>) {
    && |shards| == |data|
    && forall i :: 0 <= i < |shards| && shards[i].stats.Some? ==> Describes(shards[i].stats.value.numeric, data[i])
  }

  /** The rows of the live shards. */
  ghost function LiveData(q: Query, shards: seq<Shard>, data: seq<seq<Row>>): seq<seq<Row>>
    requires |shards| == |data|
  {
    if shards == [] then []
    else
      var n := |shards| - 1;
      LiveData(q, shards[..n], data[..n])
      + if ShardCanMatch(shards[n].stats, q.predicate_) then [data[n]] else []
  }

  lemma {:induction false} LiveDataLength(q: Query, shards: seq<Shard>, data: seq<seq<Row>>)
    requires |shards| == |data|
    ensures |LiveData(q, shards, data)| == |Live(q, shards)|
  {
    if shards != [] { LiveDataLength(q, shards[..|shards| - 1], data[..|shards| - 1]); }
  }

  lemma {:induction false} NoMembers(q: Query, show: Json -> string, rows: seq<Row>, k: Key)
    requires forall row :: row in rows ==> !q.Keeps(row)
    ensures Members(q, show, rows, k) == []
  {
    if rows != [] { NoMembers(q, show, rows[..|rows| - 1], k); }
  }

  /** Pruned shards contribute nothing to any group. */
  lemma {:induction false} PruningKeepsMembers(q: Query, show: Json -> string, shards: seq<Shard>,
                                               data: seq<seq<Row>>, k: Key)
    requires Stored(shards, data) && SafeLiterals(q.predicate_)
    ensures Members(q, show, Flatten(LiveData(q, shards, data)), k) == Members(q, show, Flatten(data), k)
  {
    hide CanMatch, Describes;
    if shards != [] {
      var n := |shards| - 1;
      PruningKeepsMembers(q, show, shards[..n], data[..n], k);
      var front := LiveData(q, shards[..n], data[..n]);
      MembersConcat(q, show, Flatten(data[..n]), data[n], k);
      if ShardCanMatch(shards[n].stats, q.predicate_) {
        assert (front + [data[n]])[..|front|] == front;
        MembersConcat(q, show, Flatten(front), data[n], k);
      } else {
        forall row | row in data[n] ensures !q.Keeps(row) {
          PruningSound(shards[n].stats.value, data[n], q.predicate_, row);
        }
        NoMembers(q, show, data[n], k);
        assert front + [] == front;
        assert Members(q, show, Flatten(data), k) == Members(q, show, Flatten(data[..n]), k);
      }
    }
  }

  /** Answers of the live shards reduce to the answer of the whole dataset. */
  lemma PartsAnswer(q: Query, show: Json -> string, shards: seq<Shard>, data: seq<seq<Row>>, parts: seq<Partial>)
    requires Stored(shards, data) && SafeLiterals(q.predicate_)
    requires |parts| == |LiveData(q, shards, data)|
    requires forall i :: 0 <= i < |parts| ==> parts[i] == MapShard(q, show, LiveData(q, shards, data)[i])
    ensures Answers(ReduceGroups(parts), q, show, Flatten(data))
  {
    var live := LiveData(q, shards, data);
    forall i | 0 <= i < |parts| ensures Answers(parts[i].groups, q, show, live[i]) {
      MapAnswers(q, show, live[i]);
    }
    ReduceAnswers(q, show, parts, live);
    forall k ensures Members(q, show, Flatten(live), k) == Members(q, show, Flatten(data), k) {
      PruningKeepsMembers(q, show, shards, data, k);
    }
    hide AnswersGroup, Members, ReduceGroups, LiveData;
  }

  /** The results of the query over `rows` in one place: identically where Fits holds, and up to the
      lane of integer sums otherwise. */
  ghost predicate MatchesOneShot(q: Query, show: Json -> string, rows: seq<Row>, results: seq<GroupResult>) {
    && WidenedResults(results) == WidenedResults(OneShot(q, show, rows))
    && (Fits(q, show, rows) ==> results == OneShot(q, show, rows))
  }

  lemma ReducedMatches(q: Query, show: Json -> string, rows: seq<Row>, g: Groups)
    requires Answers(g, q, show, rows)
    ensures MatchesOneShot(q, show, rows, Shape(q, Finalize(Partial(q.aggregates, g))))
  {
    hide Answers, Fits, Shape, Finalize, WidenedResults, WidenedGroups, MapGroups;
    MapAnswers(q, show, rows);
    SameAnswer(q, show, rows, g, MapGroups(q, show, rows));
    ShapedAlike(q, g, MapGroups(q, show, rows));
  }

  /** What a run reports, given the right partial from every live shard. */
  lemma HonestOutcomes(q: Query, show: Json -> string, shards: seq<Shard>, data: seq<seq<Row>>, hosts: seq<string>,
                       score: (string, string) -> nat, w: World<Partial>, cfg: RunConfig,
                       r: Result<RunReport, RunError>)
    requires Stored(shards, data) && SafeLiterals(q.predicate_)
    requires RunOutcome(q, shards, hosts, score, w, cfg, r) && r.Ok?
    requires forall i :: 0 <= i < |Live(q, shards)| && LiveResult(w, cfg, score, hosts, Live(q, shards), i).Ok? ==>
      i < |LiveData(q, shards, data)|
      && LiveResult(w, cfg, score, hosts, Live(q, shards), i).value.partial
         == MapShard(q, show, LiveData(q, shards, data)[i])
    ensures MatchesOneShot(q, show, Flatten(data), r.value.results)
  {
    hide MatchesOneShot, Live, LiveData, Shape, Finalize, MapShard, CheckScan, SafeLiterals, LiveResult;
    hide LiveOutcomes, Assemble, NothingToDo, FailsAfter;
    var live := Live(q, shards);
    NoneLive(q, shards);
    if live == [] {
      NothingMatches(q, show, shards, data);
    } else {
      hide Stored;
      OutcomesMatch(q, show, shards, data, hosts, score, w, cfg, r.value);
    }
  }

  lemma NothingMatches(q: Query, show: Json -> string, shards: seq<Shard>, data: seq<seq<Row>>)
    requires Stored(shards, data) && SafeLiterals(q.predicate_) && Live(q, shards) == []
    ensures MatchesOneShot(q, show, Flatten(data), NothingToDo(q).results)
  {
    hide MatchesOneShot, Live, LiveData, Shape, Finalize, SafeLiterals, MapShard;
    LiveDataLength(q, shards, data);
    PartsAnswer(q, show, shards, data, []);
    ReducedMatches(q, show, Flatten(data), ReduceGroups([]));
    assert ReduceGroups([]) == map[];
  }

  lemma OutcomesMatch(q: Query, show: Json -> string, shards: seq<Shard>, data: seq<seq<Row>>, hosts: seq<string>,
                      score: (string, string) -> nat, w: World<Partial>, cfg: RunConfig, report: RunReport)
    requires Stored(shards, data) && SafeLiterals(q.predicate_)
    requires AllServed(w, cfg, score, hosts, Live(q, shards))
    requires Assemble(q, cfg, LiveOutcomes(w, cfg, score, hosts, Live(q, shards))) == Ok(report)
    requires forall i :: 0 <= i < |Live(q, shards)| && LiveResult(w, cfg, score, hosts, Live(q, shards), i).Ok? ==>
      i < |LiveData(q, shards, data)|
      && LiveResult(w, cfg, score, hosts, Live(q, shards), i).value.partial
         == MapShard(q, show, LiveData(q, shards, data)[i])
    ensures MatchesOneShot(q, show, Flatten(data), report.results)
  {
    hide LiveResult, MatchesOneShot, Live, LiveData, Shape, Finalize, MapShard, SafeLiterals, ReduceGroups;
    LiveDataLength(q, shards, data);
    var parts := Parts(LiveOutcomes(w, cfg, score, hosts, Live(q, shards)));
    PartsAnswer(q, show, shards, data, parts);
    ReducedMatches(q, show, Flatten(data), ReduceGroups(parts));
  }

  lemma NoneLive(q: Query, shards: seq<Shard>)
    ensures shards == [] ==> Live(q, shards) == []
  {}

  // ----- honest hosts -----

  /** Whatever reaches the coordinator as a success is the mapped shard. */
  ghost predicate HonestReplies(q: Query, show: Json -> string, live: seq<seq<Row>>, w: World<Partial>) {
    forall i, k :: 0 <= i < |live| && w.reply(i, k).Ok? ==> w.reply(i, k).value == MapShard(q, show, live[i])
  }

  lemma HonestVote(replies: seq<Partial>, quorum: nat, honest: Partial)
    requires replies != [] && forall p :: p in replies ==> p == honest
    requires Verdict(replies, quorum).Some?
    ensures Verdict(replies, quorum).value == honest
  {
    assert replies[Leader(replies, |replies|)] in replies;
  }

  /** Run refinement: for every dataset, host list, window, failure pattern and completion order, a run
      that succeeds reports what the query gives over all rows in one place, with pruning on. */
  lemma RunRefinesOneShot(q: Query, show: Json -> string, shards: seq<Shard>, data: seq<seq<Row>>, hosts: seq<string>,
                          score: (string, string) -> nat, w: World<Partial>, cfg: RunConfig,
                          r: Result<RunReport, RunError>)
    requires Stored(shards, data) && SafeLiterals(q.predicate_)
    requires HonestReplies(q, show, LiveData(q, shards, data), w)
    requires RunOutcome(q, shards, hosts, score, w, cfg, r) && r.Ok?
    ensures MatchesOneShot(q, show, Flatten(data), r.value.results)
  {
    assert |shards| == |data|;
    hide RunOutcome, MatchesOneShot, Stored, SafeLiterals;
    var live, rows := Live(q, shards), LiveData(q, shards, data);
    LiveDataLength(q, shards, data);
    forall i | 0 <= i < |live| && LiveResult(w, cfg, score, hosts, live, i).Ok?
      ensures LiveResult(w, cfg, score, hosts, live, i).value.partial == MapShard(q, show, rows[i])
    {
      var ranked := RankHosts(score, live[i].cid, hosts);
      HonestShard(w, cfg, i, live[i].cid, ranked, MapShard(q, show, rows[i]));
    }
    HonestOutcomes(q, show, shards, data, hosts, score, w, cfg, r);
  }

  lemma HonestShard(w: World<Partial>, cfg: RunConfig, i: nat, cid: string, ranked: seq<string>, honest: Partial)
    requires forall k :: w.reply(i, k).Ok? ==> w.reply(i, k).value == honest
    requires ShardResult(w, cfg, i, cid, ranked).Ok?
    ensures ShardResult(w, cfg, i, cid, ranked).value.partial == honest
  {
    hide Walk, Verdict;
    WalkCollects(w, cfg, i, ranked);
    var walked := WalkOf(w, cfg, i, ranked);
    var copies := walked.copies;
    ServedHosts(w, i, ranked, walked.attempts);
    forall c | c in copies ensures c.reply == honest {}
    assert copies[0] in copies;
    forall p | p in Replies(copies) ensures p == honest {
      var j :| 0 <= j < |copies| && Replies(copies)[j] == p;
      assert copies[j] in copies;
    }
    if Verdict(Replies(copies), cfg.quorum).Some? { HonestVote(Replies(copies), cfg.quorum, honest); }
  }

  /** The one-place results do not depend on the order of the rows. */
  lemma OneShotPermute(q: Query, show: Json -> string, a: seq<Row>, b: seq<Row>, results: seq<GroupResult>)
    requires multiset(a) == multiset(b) && MatchesOneShot(q, show, a, results)
    ensures MatchesOneShot(q, show, b, results)
  {
    hide Fits, MapGroups, Shape, Finalize, WidenedResults, WidenedGroups;
    if Fits(q, show, b) { FitsPermute(q, show, b, a); }
    AnyPlanSameAnswer(q, show, Scan(a), b);
    ShapedAlike(q, MapGroups(q, show, a), MapGroups(q, show, b));
  }

  /** From rows to answer: dealing the rows into any number of shards, recording their statistics and
      running the query over the shards reports what the query gives over the rows themselves. */
  lemma ShardedRun(q: Query, show: Json -> string, rows: seq<Row>, n: nat, shards: seq<Shard>, hosts: seq<string>,
                   score: (string, string) -> nat, w: World<Partial>, cfg: RunConfig, r: Result<RunReport, RunError>)
    requires n > 0 && Stored(shards, RoundRobin(rows, n)) && SafeLiterals(q.predicate_)
    requires HonestReplies(q, show, LiveData(q, shards, RoundRobin(rows, n)), w)
    requires RunOutcome(q, shards, hosts, score, w, cfg, r) && r.Ok?
    ensures MatchesOneShot(q, show, rows, r.value.results)
  {
    hide RunOutcome, MatchesOneShot, Stored, SafeLiterals, HonestReplies, RoundRobin;
    RunRefinesOneShot(q, show, shards, RoundRobin(rows, n), hosts, score, w, cfg, r);
    RoundRobinKeeps(rows, n);
    OneShotPermute(q, show, Flatten(RoundRobin(rows, n)), rows, r.value.results);
  }

  // ----- lying hosts -----

  /** Hosts outside `liars` answer truthfully or not at all; the others may answer anything. */
  ghost predicate HonestExcept(q: Query, show: Json -> string, live: seq<Shard>, rows: seq<seq<Row>>,
                               hosts: seq<string>, score: (string, string) -> nat, w: World<Partial>,
                               liars: set<string>) {
    forall i, k ::
      (0 <= i < |live| && i < |rows| && 0 <= k < |RankHosts(score, live[i].cid, hosts)|
       && RankHosts(score, live[i].cid, hosts)[k] !in liars && w.reply(i, k).Ok?) ==>
      w.reply(i, k).value == MapShard(q, show, rows[i])
  }

  /** The copies collected of every live shard outvote `f` lies. */
  ghost predicate CopiesOutvote(live: seq<Shard>, hosts: seq<string>, score: (string, string) -> nat,
                                w: World<Partial>, cfg: RunConfig, f: nat) {
    forall i :: 0 <= i < |live| ==>
      var walked := WalkOf(w, cfg, i, RankHosts(score, live[i].cid, hosts));
      walked.Walked? ==> Outvotes(|walked.copies|, cfg.quorum, f)
  }

  /** One shard under at most `f` lying hosts: if the copies collected outvote them, a successful
      shard carries the honest partial. A lone copy outvotes no liar. */
  lemma ByzantineShard(w: World<Partial>, cfg: RunConfig, i: nat, cid: string, ranked: seq<string>,
                       liars: set<string>, f: nat, honest: Partial)
    requires Distinct(ranked) && |liars| <= f
    requires forall k :: 0 <= k < |ranked| && ranked[k] !in liars && w.reply(i, k).Ok? ==> w.reply(i, k).value == honest
    requires WalkOf(w, cfg, i, ranked).Walked? ==> Outvotes(|WalkOf(w, cfg, i, ranked).copies|, cfg.quorum, f)
    requires ShardResult(w, cfg, i, cid, ranked).Ok?
    ensures ShardResult(w, cfg, i, cid, ranked).value.partial == honest
  {
    hide Walk, Verdict;
    WalkCollects(w, cfg, i, ranked);
    var walked := WalkOf(w, cfg, i, ranked);
    var copies := walked.copies;
    ServedHosts(w, i, ranked, walked.attempts);
    forall c | c in copies && c.host !in liars ensures c.reply == honest {}
    if cfg.Copies() > 1 && |copies| > 1 {
      LiarsOutvoted(copies, cfg.quorum, liars, honest, f);
    } else {
      assert |copies| == 1 && f == 0;
      assert liars == {};
      assert copies[0] in copies;
    }
  }

  /** Two copies asked for, the first host lying, the second failing: the lie is accepted, unverified. */
  lemma LoneLieAccepted(cid: string, honest: Partial, lie: Partial)
    requires lie != honest
    ensures var w: World<Partial> := World((i, k) => if k == 0 then Ok(lie) else Err(Timeout), (i, k) => false);
      var cfg, ranked, liars := RunConfig(2, 1, 2, 0, CostLimits(0, 0, 0, 0)), ["a", "b"], {"a"};
      && (forall k :: 0 <= k < |ranked| && ranked[k] !in liars && w.reply(0, k).Ok? ==> w.reply(0, k).value == honest)
      && !Outvotes(1, cfg.quorum, |liars|)
      && ShardResult(w, cfg, 0, cid, ranked) == Ok(Outcome(cid, "a", lie, 2, true, false))
  {
    var w: World<Partial> := World((i, k) => if k == 0 then Ok(lie) else Err(Timeout), (i, k) => false);
    var copies := [Copy("a", lie)];
    assert Walk(w, 0, ["a", "b"], 2, 2, 2, copies, Some(Timeout)) == Walked(copies, 2, Some(Timeout));
    assert Walk(w, 0, ["a", "b"], 2, 2, 1, copies, None) == Walked(copies, 2, Some(Timeout));
    assert [] + copies == copies;
    assert Walk(w, 0, ["a", "b"], 2, 2, 0, [], None) == Walked(copies, 2, Some(Timeout));
  }

  lemma RankDistinct(score: (string, string) -> nat, cid: string, hosts: seq<string>)
    requires Distinct(hosts)
    ensures Distinct(RankHosts(score, cid, hosts))
  {
    RankIndependent(score, cid, hosts, hosts);
    DistinctPermutation(hosts, RankHosts(score, cid, hosts));
  }

  lemma {:induction false} DistinctPermutation<T>(a: seq<T>, b: seq<T>)
    requires Distinct(a) && multiset(a) == multiset(b)
    ensures Distinct(b)
  {
    forall i, j | 0 <= i < j < |b| ensures b[i] != b[j] {
      if b[i] == b[j] {
        TwiceCounted(b, i, j);
        OnceCounted(a, b[i]);
        assert false;
      }
    }
  }

  lemma TwiceCounted<T>(b: seq<T>, i: nat, j: nat)
    requires i < j < |b| && b[i] == b[j]
    ensures multiset(b)[b[i]] >= 2
  {
    assert b == b[..j] + b[j..];
    assert b[..j][i] == b[i] && b[j..][0] == b[j];
    assert multiset(b) == multiset(b[..j]) + multiset(b[j..]);
    assert b[i] in multiset(b[..j]) && b[j] in multiset(b[j..]);
  }

  lemma {:induction false} OnceCounted<T>(a: seq<T>, x: T)
    requires Distinct(a)
    ensures multiset(a)[x] <= 1
  {
    if a != [] {
      var front := a[..|a| - 1];
      OnceCounted(front, x);
      assert a == front + [a[|a| - 1]];
      assert a[|a| - 1] !in front;
    }
  }

  /** Byzantine runs: with at most `f` lying hosts answering arbitrarily, and copies of every live
      shard that outvote them, a run that succeeds reports the honest one-place answer. */
  lemma ByzantineRun(q: Query, show: Json -> string, shards: seq<Shard>, data: seq<seq<Row>>, hosts: seq<string>,
                     score: (string, string) -> nat, w: World<Partial>, cfg: RunConfig, r: Result<RunReport, RunError>,
                     liars: set<string>, f: nat)
    requires Stored(shards, data) && SafeLiterals(q.predicate_) && Distinct(hosts)
    requires |liars| <= f
    requires HonestExcept(q, show, Live(q, shards), LiveData(q, shards, data), hosts, score, w, liars)
    requires CopiesOutvote(Live(q, shards), hosts, score, w, cfg, f)
    requires RunOutcome(q, shards, hosts, score, w, cfg, r) && r.Ok?
    ensures MatchesOneShot(q, show, Flatten(data), r.value.results)
  {
    assert |shards| == |data|;
    hide RunOutcome, MatchesOneShot, Stored, SafeLiterals, RankHosts;
    var live, rows := Live(q, shards), LiveData(q, shards, data);
    LiveDataLength(q, shards, data);
    forall i | 0 <= i < |live| && LiveResult(w, cfg, score, hosts, live, i).Ok?
      ensures LiveResult(w, cfg, score, hosts, live, i).value.partial == MapShard(q, show, rows[i])
    {
      var ranked := RankHosts(score, live[i].cid, hosts);
      RankDistinct(score, live[i].cid, hosts);
      ByzantineShard(w, cfg, i, live[i].cid, ranked, liars, f, MapShard(q, show, rows[i]));
    }
    HonestOutcomes(q, show, shards, data, hosts, score, w, cfg, r);
  }

  lemma {:induction false} AllVerified<T>(outcomes: seq<Outcome<T>>)
    requires Verified(outcomes) == |outcomes|
    ensures forall i :: 0 <= i < |outcomes| ==> outcomes[i].verified
  {
    if outcomes != [] {
      VerifiedAtMost(outcomes[..|outcomes| - 1]);
      AllVerified(outcomes[..|outcomes| - 1]);
    }
  }

  lemma {:induction false} VerifiedAtMost<T>(outcomes: seq<Outcome<T>>)
    ensures Verified(outcomes) <= |outcomes|
  {
    if outcomes != [] { VerifiedAtMost(outcomes[..|outcomes| - 1]); }
  }

  /** Against a single lying host the report itself shows when it can be trusted: if every live shard
      was verified, the results are the honest ones. */
  lemma OneLiarVerified(q: Query, show: Json -> string, shards: seq<Shard>, data: seq<seq<Row>>, hosts: seq<string>,
                        score: (string, string) -> nat, w: World<Partial>, cfg: RunConfig,
                        r: Result<RunReport, RunError>,
                        liars: set<string>)
    requires Stored(shards, data) && SafeLiterals(q.predicate_) && Distinct(hosts)
    requires |liars| <= 1 && cfg.quorum != 1
    requires HonestExcept(q, show, Live(q, shards), LiveData(q, shards, data), hosts, score, w, liars)
    requires RunOutcome(q, shards, hosts, score, w, cfg, r) && r.Ok?
    requires r.value.verified == |Live(q, shards)|
    ensures MatchesOneShot(q, show, Flatten(data), r.value.results)
  {
    hide MatchesOneShot, Stored, SafeLiterals, RankHosts, HonestExcept, Live, LiveData, Walk, Verdict;
    hide Shape, Finalize, CheckScan;
    var live := Live(q, shards);
    NoneLive(q, shards);
    if live != [] {
      var outcomes := LiveOutcomes(w, cfg, score, hosts, live);
      AllVerified(outcomes);
      forall i | 0 <= i < |live|
        ensures var walked := WalkOf(w, cfg, i, RankHosts(score, live[i].cid, hosts));
          walked.Walked? ==> Outvotes(|walked.copies|, cfg.quorum, 1)
      {
        assert LiveResult(w, cfg, score, hosts, live, i) == Ok(outcomes[i]);
        assert outcomes[i].verified;
      }
    }
    ByzantineRun(q, show, shards, data, hosts, score, w, cfg, r, liars, 1);
  }
}
