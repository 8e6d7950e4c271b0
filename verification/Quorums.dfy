// Choosing among redundant copies of a shard's result: the largest agreeing group, if it is large
// enough. Copies are compared by value, the canonical serialisation being injective.
module Quorums {
  import opened Prelude

  datatype Copy<+T> = Copy(host: string, reply: T)

  function Replies<T>(copies: seq<Copy<T>>): seq<T> {
    Map((c: Copy<T>) => c.reply, copies)
  }

  /** Agreement required among the copies collected: an explicit quorum capped to their number, or
      all of them. */
  function Need(copies: nat, quorum: nat): nat {
    if quorum == 0 then copies else MinInt(quorum, copies)
  }

  /** The position of the best supported reply among the first `n`, the earliest on a tie. */
  ghost function Leader<T>(replies: seq<T>, n: nat): (i: nat)
    requires 0 < n <= |replies|
    ensures i < n
  {
    if n == 1 then 0
    else
      var i := Leader(replies, n - 1);
      if multiset(replies)[replies[n - 1]] > multiset(replies)[replies[i]] then n - 1 else i
  }

  /** The outcome of a vote: the leading reply if it reaches the needed agreement. */
  ghost function Verdict<T>(replies: seq<T>, quorum: nat): Option<T> {
    if replies == [] then None
    else
      var p := replies[Leader(replies, |replies|)];
      if multiset(replies)[p] >= Need(|replies|, quorum) then Some(p) else None
  }

  /** `i` holds the first arrival of a reply no other outnumbers, earliest among equals. */
  ghost predicate Leads<T>(replies: seq<T>, i: nat, n: nat)
    requires n <= |replies|
  {
    && i < n
    && (forall j :: 0 <= j < n ==> multiset(replies)[replies[j]] <= multiset(replies)[replies[i]])
    && (forall j :: 0 <= j < n && multiset(replies)[replies[j]] == multiset(replies)[replies[i]] ==> i <= j)
  }

  lemma {:induction false} LeaderLeads<T>(replies: seq<T>, n: nat)
    requires 0 < n <= |replies|
    ensures Leads(replies, Leader(replies, n), n)
  {
    if n > 1 { LeaderLeads(replies, n - 1); }
  }

  /** Per distinct reply: how many copies agree and where the first one arrived. */
  ghost predicate Tallied<T(!new)>(groups: map<T, (nat, nat)>, replies: seq<T>) {
    forall p ::
      && (p in groups <==> p in replies)
      && (p in groups ==>
           && groups[p].0 == multiset(replies)[p]
           && groups[p].1 < |replies| && replies[groups[p].1] == p && p !in replies[..groups[p].1])
  }

  /** `a` is better supported than `b`, or as well supported and not later. */
  predicate Ahead(a: (nat, nat), b: (nat, nat)) {
    a.0 > b.0 || (a.0 == b.0 && a.1 <= b.1)
  }

  /** A reply's first position is the same once one more is in. */
  lemma FirstStays<T>(replies: seq<T>, p: T, x: T, at: nat)
    requires at < |replies| && replies[at] == x && x !in replies[..at]
    ensures (replies + [p])[at] == x && x !in (replies + [p])[..at]
  {
    assert (replies + [p])[..at] == replies[..at];
  }

  lemma TallyPush<T(!new)>(groups: map<T, (nat, nat)>, replies: seq<T>, p: T)
    requires Tallied(groups, replies)
    ensures var e := if p in groups then groups[p] else (0, |replies|);
      Tallied(groups[p := (e.0 + 1, e.1)], replies + [p])
  {
    var e := if p in groups then groups[p] else (0, |replies|);
    var groups' := groups[p := (e.0 + 1, e.1)];
    forall x
      ensures x in groups' <==> x in replies + [p]
      ensures x in groups' ==>
        && groups'[x].0 == multiset(replies + [p])[x]
        && groups'[x].1 < |replies| + 1 && (replies + [p])[groups'[x].1] == x
        && x !in (replies + [p])[..groups'[x].1]
    {
      if x in groups {
        FirstStays(replies, p, x, groups[x].1);
      } else {
        assert (replies + [p])[..|replies|] == replies;
      }
    }
  }

  /** Tally the copies into groups, then scan the groups for the best supported one. */
  method SelectQuorum<T(==,!new)>(copies: seq<Copy<T>>, quorum: nat) returns (r: Option<T>)
    ensures r == Verdict(Replies(copies), quorum)
  {
    hide Tallied, Ahead, Leader, Need;
    if copies == [] { return None; }
    ghost var replies := Replies(copies);
    var need := Need(|copies|, quorum);
    var groups: map<T, (nat, nat)> := map[];
    NothingTallied<T>();
    for i := 0 to |copies|
      invariant Tallied(groups, replies[..i])
    {
      var p := copies[i].reply;
      assert replies[..i + 1] == replies[..i] + [p];
      TallyPush(groups, replies[..i], p);
      var entry := if p in groups then groups[p] else (0, i);
      groups := groups[p := (entry.0 + 1, entry.1)];
    }
    assert replies[..|copies|] == replies;
    assert copies[0].reply == replies[0];
    var best := copies[0].reply;
    AllTallied(groups, replies);
    var todo := groups.Keys;
    while todo != {}
      invariant best in groups && todo <= groups.Keys
      invariant forall p :: p in groups && p !in todo ==> Ahead(groups[best], groups[p])
      decreases todo
    {
      var p :| p in todo;
      AheadOrder(groups, best, p);
      if !Ahead(groups[best], groups[p]) {
        best := p;
      }
      todo := todo - {p};
    }
    BestLeads(replies, best, groups);
    r := if groups[best].0 >= need then Some(best) else None;
  }

  lemma NothingTallied<T(!new)>()
    ensures Tallied<T>(map[], [])
  {}

  lemma AllTallied<T(!new)>(groups: map<T, (nat, nat)>, replies: seq<T>)
    requires Tallied(groups, replies)
    ensures forall p :: p in replies ==> p in groups
  {}

  lemma AheadOrder<T(!new)>(groups: map<T, (nat, nat)>, best: T, p: T)
    requires best in groups && p in groups
    ensures Ahead(groups[p], groups[p])
    ensures !Ahead(groups[best], groups[p]) ==>
      (Ahead(groups[p], groups[best])
       && forall x :: x in groups && Ahead(groups[best], groups[x]) ==> Ahead(groups[p], groups[x]))
  {}

  /** The group scan and the positional definition pick the same reply. */
  lemma BestLeads<T(!new)>(replies: seq<T>, best: T, groups: map<T, (nat, nat)>)
    requires replies != [] && best in groups && Tallied(groups, replies)
    requires forall p :: p in groups ==> Ahead(groups[best], groups[p])
    ensures replies[Leader(replies, |replies|)] == best
    ensures groups[best].0 == multiset(replies)[best]
  {
    hide Leader;
    var i := Leader(replies, |replies|);
    LeaderLeads(replies, |replies|);
    var p, first := replies[i], groups[best].1;
    assert p in replies && p in groups;
    assert replies[first] == best;
    assert forall j :: 0 <= j < groups[p].1 ==> replies[..groups[p].1][j] == replies[j];
    assert groups[p].1 <= i;
  }

  // ----- what a vote means -----

  /** A vote succeeds exactly with the most supported reply, the earliest among equals, when that
      support reaches the need; it fails exactly when no reply has it. */
  lemma VerdictExact<T(!new)>(replies: seq<T>, quorum: nat)
    requires replies != []
    ensures forall p :: Verdict(replies, quorum) == Some(p) <==>
      exists i: nat :: Leads(replies, i, |replies|) && replies[i] == p
                       && multiset(replies)[p] >= Need(|replies|, quorum)
    ensures Verdict(replies, quorum) == None <==>
      forall p :: p in replies ==> multiset(replies)[p] < Need(|replies|, quorum)
  {
    hide Leader;
    var i := Leader(replies, |replies|);
    LeaderLeads(replies, |replies|);
    forall j: nat | Leads(replies, j, |replies|) ensures j == i {}
    assert replies[i] in replies;
    forall p | p in replies ensures multiset(replies)[p] <= multiset(replies)[replies[i]] {
      var j :| 0 <= j < |replies| && replies[j] == p;
    }
  }

  /** What the quorum setting asks for. Unset, or set above the number of copies: all of them agree.
      Otherwise: some reply comes that many times. */
  lemma QuorumMeans<T(!new)>(replies: seq<T>, quorum: nat, p: T)
    requires replies != []
    ensures quorum == 0 || quorum >= |replies| ==>
      (Verdict(replies, quorum) == Some(p) <==> forall r :: r in replies ==> r == p)
    ensures 0 < quorum <= |replies| ==>
      && (Verdict(replies, quorum) == Some(p) ==> multiset(replies)[p] >= quorum)
      && (multiset(replies)[p] >= quorum ==> Verdict(replies, quorum).Some?)
  {
    VerdictExact(replies, quorum);
    AllAgree(replies, p);
    if quorum == 0 || quorum >= |replies| {
      if forall r :: r in replies ==> r == p {
        assert replies[Leader(replies, |replies|)] in replies;
      }
    } else if multiset(replies)[p] >= quorum {
      assert p in replies;
    }
  }

  lemma {:induction false} AllAgree<T>(replies: seq<T>, p: T)
    ensures multiset(replies)[p] == |replies| <==> forall r :: r in replies ==> r == p
    ensures multiset(replies)[p] <= |replies|
  {
    if replies != [] {
      var front, last := replies[..|replies| - 1], replies[|replies| - 1];
      AllAgree(front, p);
      assert replies == front + [last];
      assert multiset(replies)[p] == multiset(front)[p] + if last == p then 1 else 0;
      if multiset(replies)[p] == |replies| {
        assert last == p && forall r :: r in front ==> r == p;
      }
      if forall r :: r in replies ==> r == p {
        assert last in replies && forall r :: r in front ==> r in replies;
      }
    }
  }

  lemma {:induction false} TwoReplies<T>(replies: seq<T>, p: T, honest: T)
    requires p != honest
    ensures multiset(replies)[p] + multiset(replies)[honest] <= |replies|
  {
    if replies != [] {
      TwoReplies(replies[..|replies| - 1], p, honest);
      assert replies == replies[..|replies| - 1] + [replies[|replies| - 1]];
    }
  }

  /** With fewer dishonest copies than the need, a successful vote is the honest reply; and if the
      honest copies reach the need, the vote does succeed. */
  lemma HonestVerdict<T>(replies: seq<T>, quorum: nat, honest: T)
    requires |replies| - multiset(replies)[honest] < Need(|replies|, quorum)
    ensures Verdict(replies, quorum) == None || Verdict(replies, quorum) == Some(honest)
    ensures multiset(replies)[honest] >= Need(|replies|, quorum) > 0 ==> Verdict(replies, quorum) == Some(honest)
  {
    if replies != [] {
      var i := Leader(replies, |replies|);
      LeaderLeads(replies, |replies|);
      if replies[i] != honest { TwoReplies(replies, replies[i], honest); }
      if honest in replies {
        var j :| 0 <= j < |replies| && replies[j] == honest;
        assert multiset(replies)[replies[j]] <= multiset(replies)[replies[i]];
      }
    }
  }

  ghost function Hosts<T>(copies: seq<Copy<T>>): set<string> {
    set c | c in copies :: c.host
  }

  ghost predicate DistinctHosts<T>(copies: seq<Copy<T>>) {
    forall i, j :: 0 <= i < j < |copies| ==> copies[i].host != copies[j].host
  }

  /** One more copy from a new host adds its host to the liars among them if it is one. */
  lemma OneMoreHost<T>(front: seq<Copy<T>>, last: Copy<T>, liars: set<string>)
    requires last.host !in Hosts(front)
    ensures |liars * Hosts(front + [last])| == |liars * Hosts(front)| + if last.host in liars then 1 else 0
  {
    assert last in front + [last];
    assert Hosts(front + [last]) == Hosts(front) + {last.host};
    hide Hosts;
    var before, after := liars * Hosts(front), liars * (Hosts(front) + {last.host});
    assert after == if last.host in liars then before + {last.host} else before;
  }

  lemma OneMoreReply<T>(front: seq<Copy<T>>, last: Copy<T>, honest: T)
    ensures multiset(Replies(front + [last]))[honest]
         == multiset(Replies(front))[honest] + if last.reply == honest then 1 else 0
  {
    assert Replies(front + [last]) == Replies(front) + [last.reply];
  }

  /** Copies from distinct hosts hold at most as many false replies as there are lying hosts. */
  lemma {:induction false} LiesBounded<T(!new)>(copies: seq<Copy<T>>, liars: set<string>, honest: T)
    requires DistinctHosts(copies)
    requires forall c :: c in copies && c.host !in liars ==> c.reply == honest
    ensures |copies| - multiset(Replies(copies))[honest] <= |liars * Hosts(copies)|
  {
    if copies != [] {
      var front, last := copies[..|copies| - 1], copies[|copies| - 1];
      assert copies == front + [last] && last in copies;
      assert last.host !in Hosts(front);
      assert forall c :: c in front ==> c in copies;
      hide Hosts, Replies;
      LiesBounded(front, liars, honest);
      OneMoreHost(front, last, liars);
      OneMoreReply(front, last, honest);
    }
  }

  lemma SubsetSize<T>(a: set<T>, b: set<T>)
    requires a <= b
    ensures |a| <= |b|
  {
    if a != {} {
      var x :| x in a;
      SubsetSize(a - {x}, b - {x});
    }
  }

  /** Up to `f` false replies among `copies` cannot carry a vote: they miss the needed agreement, or
      the honest copies outnumber them. */
  predicate Outvotes(copies: nat, quorum: nat, f: nat) {
    f < Need(copies, quorum) || 2 * f < copies
  }

  /** An honest majority leads every vote. */
  lemma HonestMajority<T>(replies: seq<T>, quorum: nat, honest: T)
    requires 2 * (|replies| - multiset(replies)[honest]) < |replies|
    ensures Verdict(replies, quorum) == None || Verdict(replies, quorum) == Some(honest)
  {
    var i := Leader(replies, |replies|);
    LeaderLeads(replies, |replies|);
    assert multiset(replies)[honest] > 0;
    var j :| 0 <= j < |replies| && replies[j] == honest;
    assert multiset(replies)[replies[j]] <= multiset(replies)[replies[i]];
    if replies[i] != honest { TwoReplies(replies, replies[i], honest); }
  }

  /** The vote fails or yields the honest reply. */
  ghost predicate Unswayed<T>(replies: seq<T>, quorum: nat, honest: T) {
    Verdict(replies, quorum) == None || Verdict(replies, quorum) == Some(honest)
  }

  function Repeated<T>(v: T, n: nat): (s: seq<T>)
    ensures |s| == n && forall i :: 0 <= i < n ==> s[i] == v
  {
    seq(n, _ => v)
  }

  lemma {:induction false} RepeatedCount<T>(v: T, n: nat, x: T)
    ensures multiset(Repeated(v, n))[x] == if x == v then n else 0
  {
    if n > 0 {
      RepeatedCount(v, n - 1, x);
      assert Repeated(v, n) == Repeated(v, n - 1) + [v];
    }
  }

  /** Enough lies, arriving first, carry the vote. */
  lemma LiesPrevail<T(!new)>(copies: nat, quorum: nat, honest: T, lie: T, f: nat) returns (replies: seq<T>)
    requires copies > 0 && lie != honest && !Outvotes(copies, quorum, f)
    ensures |replies| == copies && copies - multiset(replies)[honest] <= f
    ensures Verdict(replies, quorum) == Some(lie)
  {
    var n := MinInt(f, copies);
    replies := Repeated(lie, n) + Repeated(honest, copies - n);
    RepeatedCount(lie, n, honest);
    RepeatedCount(lie, n, lie);
    RepeatedCount(honest, copies - n, honest);
    RepeatedCount(honest, copies - n, lie);
    LeaderLeads(replies, copies);
    var i := Leader(replies, copies);
    assert replies[0] == lie;
    assert replies[i] in replies;
  }

  /** Exactly when a vote among `copies` copies of which up to `f` are false never yields a lie. */
  lemma VoteExact<T(!new)>(copies: nat, quorum: nat, honest: T, lie: T, f: nat)
    requires copies > 0 && lie != honest
    ensures (forall replies :: |replies| == copies && copies - multiset(replies)[honest] <= f
                               ==> Unswayed(replies, quorum, honest))
       <==> Outvotes(copies, quorum, f)
  {
    if Outvotes(copies, quorum, f) {
      forall replies | |replies| == copies && copies - multiset(replies)[honest] <= f
        ensures Unswayed(replies, quorum, honest)
      {
        FewLies(replies, quorum, honest, f);
      }
    } else {
      var replies := LiesPrevail(copies, quorum, honest, lie, f);
      assert !Unswayed(replies, quorum, honest);
    }
  }

  lemma FewLies<T>(replies: seq<T>, quorum: nat, honest: T, f: nat)
    requires |replies| - multiset(replies)[honest] <= f && Outvotes(|replies|, quorum, f)
    ensures Verdict(replies, quorum) == None || Verdict(replies, quorum) == Some(honest)
  {
    hide Verdict;
    if f < Need(|replies|, quorum) {
      HonestVerdict(replies, quorum, honest);
    } else {
      HonestMajority(replies, quorum, honest);
    }
  }

  /** At most f lying hosts cannot sway a vote whose copies outvote them. */
  lemma LiarsOutvoted<T(!new)>(copies: seq<Copy<T>>, quorum: nat, liars: set<string>, honest: T, f: nat)
    requires DistinctHosts(copies) && |liars| <= f && Outvotes(|copies|, quorum, f)
    requires forall c :: c in copies && c.host !in liars ==> c.reply == honest
    ensures Verdict(Replies(copies), quorum) == None || Verdict(Replies(copies), quorum) == Some(honest)
  {
    hide Verdict, Outvotes;
    LiesBounded(copies, liars, honest);
    SubsetSize(liars * Hosts(copies), liars);
    FewLies(Replies(copies), quorum, honest, f);
  }
}
