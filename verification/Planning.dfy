// The planner: pruning shards by their statistics, ranking hosts per shard, and the shard task that
// walks the ranking.
module Planning {
  import opened Prelude
  import opened Numerals
  import opened JsonModel
  import opened QueryModel
  import opened Sorting
  import opened Datasets

  // ----- pruning -----

  predicate CanMatch(stats: ShardStats, p: Predicate) {
    match p
    case True => true
    case Not(_) => true
    case Or(a, b) => CanMatch(stats, a) || CanMatch(stats, b)
    case And(a, b) => CanMatch(stats, a) && CanMatch(stats, b)
    case Cmp(field, op, value) =>
      if field !in stats.numeric || AsF64(value).None? then true
      else
        var (lo, hi) := stats.numeric[field];
        var v := AsF64(value).value;
        match op
        case Gt => v.Lt(hi)
        case Ge => v.Le(hi)
        case Lt => lo.Lt(v)
        case Le => lo.Le(v)
        case Eq => lo.Le(v) && v.Le(hi)
        case Ne => true
  }

  predicate ShardCanMatch(stats: Option<ShardStats>, p: Predicate) {
    stats.None? || CanMatch(stats.value, p)
  }

  /** A string that reads as a float; `nan` and the infinities do. */
  predicate NumericString(v: Json) {
    v.String? && ParseF64(v.s).Some?
  }

  predicate NaNString(v: Json) {
    v.String? && ParseF64(v.s) == Some(NaN)
  }

  /** Outside a negation no ordered comparison is against a string that reads as a float, and no
      equality against one that reads as NaN. */
  predicate SafeLiterals(p: Predicate) {
    match p
    case True => true
    case Not(_) => true
    case Or(a, b) => SafeLiterals(a) && SafeLiterals(b)
    case And(a, b) => SafeLiterals(a) && SafeLiterals(b)
    case Cmp(_, op, value) => op == Ne || (if op == Eq then !NaNString(value) else !NumericString(value))
  }

  lemma CellInRange(stats: ShardStats, rows: seq<Row>, field: string, row: Row)
    requires Describes(stats.numeric, rows) && row in rows && field in row && field in stats.numeric
    ensures AsF64(row[field]).Some?
    ensures var v := AsF64(row[field]).value;
      !v.NaN? ==> stats.numeric[field].0.Le(v) && v.Le(stats.numeric[field].1)
  {
    hide AsF64, Cells;
    CellOfRow(rows, row, field);
    assert IsRange(stats.numeric[field], Cells(rows, field));
  }

  lemma LeafSound(stats: ShardStats, rows: seq<Row>, field: string, op: CmpOp, value: Json, row: Row)
    requires Describes(stats.numeric, rows) && row in rows
    requires SafeLiterals(Cmp(field, op, value)) && !CanMatch(stats, Cmp(field, op, value))
    ensures !Cmp(field, op, value).Eval(row)
  {
    hide ParseF64, Describes;
    if field in row {
      CellInRange(stats, rows, field, row);
      if row[field].String? && value.String? { CompareStringFlips(row[field].s, value.s); }
    }
  }

  /** Pruning is sound: a shard whose statistics rule the predicate out has no matching row, for any
      nesting, ragged rows and mixed-type columns. */
  lemma {:induction false} PruningSound(stats: ShardStats, rows: seq<Row>, p: Predicate, row: Row)
    requires Describes(stats.numeric, rows) && row in rows
    requires SafeLiterals(p) && !CanMatch(stats, p)
    ensures !p.Eval(row)
  {
    match p
    case And(a, b) =>
      if CanMatch(stats, a) { PruningSound(stats, rows, b, row); } else { PruningSound(stats, rows, a, row); }
    case Or(a, b) =>
      PruningSound(stats, rows, a, row);
      PruningSound(stats, rows, b, row);
    case Cmp(field, op, value) => LeafSound(stats, rows, field, op, value, row);
  }

  /** Pruning with these statistics never skips a shard holding a matching row. */
  ghost predicate PrunesSoundly(stats: ShardStats, rows: seq<Row>, p: Predicate) {
    Describes(stats.numeric, rows) && !CanMatch(stats, p) ==> forall row :: row in rows ==> !p.Eval(row)
  }

  /** A numeric-string literal always has a shard it prunes wrongly: the comparison of two strings
      is lexical, and a leading plus sign changes it without changing the number. */
  lemma NumericStringUnsound(field: string, s: string) returns (op: CmpOp, t: string)
    requires NumericString(String(s))
    ensures NumericString(String(t))
    ensures var v := ParseF64(t).value;
      !PrunesSoundly(ShardStats(map[field := (v, v)]), [map[field := String(t)]], Cmp(field, op, String(s)))
  {
    hide ParseF64, Describes, CanMatch;
    Unsigned(s);
    if s[0] == '+' {
      op, t := Gt, s[1..];
      SignOff(s);
    } else if s[0] == '-' {
      op, t := Lt, "+0";
      MinusBelowPlusZero(s);
    } else {
      op, t := Lt, "+" + s;
      PlusInFront(s);
    }
    WronglyPruned(field, op, s, t);
  }

  /** A cell on the matching side lexically and on the other side numerically is pruned away. */
  lemma WronglyPruned(field: string, op: CmpOp, s: string, t: string)
    requires NumericString(String(s)) && NumericString(String(t))
    requires || (op == Lt && CompareString(t, s) == Less && !ParseF64(t).value.Lt(ParseF64(s).value))
             || (op == Gt && CompareString(t, s) == Greater && !ParseF64(s).value.Lt(ParseF64(t).value))
             || (op == Eq && t == s && ParseF64(s).value.NaN?)
    ensures var v := ParseF64(t).value;
      !PrunesSoundly(ShardStats(map[field := (v, v)]), [map[field := String(t)]], Cmp(field, op, String(s)))
  {
    hide ParseF64, CompareString;
    OneCell(field, t);
    CompareStringFlips(s, s);
    hide Describes;
    var row: Row := map[field := String(t)];
    assert row in [row];
    assert Cmp(field, op, String(s)).Eval(row);
  }

  lemma OneCell(field: string, t: string)
    requires NumericString(String(t))
    ensures var v := ParseF64(t).value;
      Describes(map[field := (v, v)], [map[field := String(t)]])
  {
    hide ParseF64;
    var rows: seq<Row> := [map[field := String(t)]];
    assert AsF64(String(t)) == Some(ParseF64(t).value);
    assert rows[..0] == [];
    assert Cells(rows, field) == [String(t)];
    assert String(t) in [String(t)];
    forall d | d != field ensures Cells(rows, d) == [] {
      assert Cells(rows[..0], d) == [];
    }
  }

  /** A float word or a decimal: what is left of a numeric string without its sign. */
  lemma Unsigned(s: string)
    requires NumericString(String(s))
    ensures s != ""
    ensures var body := if IsSign(s[0]) then s[1..] else s;
      body != "" && (IsFloatWord(body) || ParseDecimal(body).Some?) && !IsSign(body[0])
  {
    hide ParseDecimal;
    var body := if s != "" && IsSign(s[0]) then s[1..] else s;
    if IsFloatWord(body) { WordStart(body); } else { DecimalStart(body); }
  }

  lemma WordStart(w: string)
    requires IsFloatWord(w)
    ensures w != "" && !IsSign(w[0])
  {
    assert Lower(w)[0] == LowerChar(w[0]);
  }

  lemma SignOff(s: string)
    requires NumericString(String(s)) && s != "" && s[0] == '+'
    ensures ParseF64(s[1..]) == ParseF64(s)
    ensures CompareString(s[1..], s) == Greater
  {
    hide ParseDecimal, IsFloatWord;
    Unsigned(s);
    AboveSigns(s[1..]);
  }

  lemma PlusInFront(s: string)
    requires NumericString(String(s)) && s != "" && s[0] != '+' && s[0] != '-'
    ensures ParseF64("+" + s) == ParseF64(s)
    ensures CompareString("+" + s, s) == Less
  {
    hide ParseDecimal, IsFloatWord;
    Unsigned(s);
    AboveSigns(s);
    assert ("+" + s)[1..] == s;
  }

  /** Digits, the point and letters come after the signs. */
  lemma AboveSigns(body: string)
    requires body != "" && (IsFloatWord(body) || ParseDecimal(body).Some?)
    ensures body[0] > '-'
  {
    hide ParseDecimal;
    if IsFloatWord(body) {
      assert Lower(body)[0] == LowerChar(body[0]);
    } else {
      DecimalStart(body);
    }
  }

  lemma MinusBelowPlusZero(s: string)
    requires NumericString(String(s)) && s != "" && s[0] == '-'
    ensures ParseF64("+0") == Some(Finite(0.0))
    ensures !Finite(0.0).Lt(ParseF64(s).value)
    ensures CompareString("+0", s) == Less
  {
    PlusZero();
    MinusNotPositive(s);
    hide ParseF64;
  }

  lemma MinusNotPositive(s: string)
    requires NumericString(String(s)) && s != "" && s[0] == '-'
    ensures !Finite(0.0).Lt(ParseF64(s).value)
  {
    hide ParseDecimal, IsFloatWord;
    if !IsFloatWord(s[1..]) { DecimalStart(s[1..]); }
  }

  lemma PlusZero()
    ensures ParseF64("+0") == Some(Finite(0.0))
  {
    PlainZero();
    hide ParseDecimal, ParseF64;
    ParseSigned("0");
    assert "+" + "0" == "+0";
  }

  lemma PlainZero()
    ensures ParseDecimal("0") == Some(0.0)
  {
    ParseMantissaDigits(0);
    assert ShowNat(0) == "0";
    hide ParseMantissa;
    assert Find("0", IsE) == 1;
    assert "0"[..1] == "0";
  }

  lemma SafeLiteralSound(stats: ShardStats, rows: seq<Row>, field: string, op: CmpOp, value: Json)
    requires SafeLiterals(Cmp(field, op, value))
    ensures PrunesSoundly(stats, rows, Cmp(field, op, value))
  {
    if Describes(stats.numeric, rows) && !CanMatch(stats, Cmp(field, op, value)) {
      forall row | row in rows ensures !Cmp(field, op, value).Eval(row) {
        LeafSound(stats, rows, field, op, value, row);
      }
    }
  }

  /** Exactly when pruning is sound for a literal under every operator and over every shard: when it
      is not a string that reads as a float. */
  lemma PruningExact(field: string, value: Json)
    ensures (forall op, rows, stats :: PrunesSoundly(stats, rows, Cmp(field, op, value))) <==> !NumericString(value)
  {
    hide PrunesSoundly, ParseF64;
    if NumericString(value) {
      assert value == String(value.s);
      var op, t := NumericStringUnsound(field, value.s);
      var v := ParseF64(t).value;
      var rows: seq<Row> := [map[field := String(t)]];
      assert !PrunesSoundly(ShardStats(map[field := (v, v)]), rows, Cmp(field, op, value));
    } else {
      forall op, rows, stats ensures PrunesSoundly(stats, rows, Cmp(field, op, value)) {
        SafeLiteralSound(stats, rows, field, op, value);
      }
    }
  }

  /** Exactly when pruning is sound for a literal under equality: when it does not read as NaN. A
      shard whose cells are the NaN string itself is pruned although they are equal to it. */
  lemma EqualityPruningExact(field: string, value: Json)
    ensures (forall rows, stats :: PrunesSoundly(stats, rows, Cmp(field, Eq, value))) <==> !NaNString(value)
  {
    hide PrunesSoundly, ParseF64;
    if NaNString(value) {
      assert value == String(value.s);
      WronglyPruned(field, Eq, value.s, value.s);
      var rows: seq<Row> := [map[field := value]];
      assert !PrunesSoundly(ShardStats(map[field := (NaN, NaN)]), rows, Cmp(field, Eq, value));
    } else {
      forall rows, stats ensures PrunesSoundly(stats, rows, Cmp(field, Eq, value)) {
        SafeLiteralSound(stats, rows, field, Eq, value);
      }
    }
  }

  /** Pruning gives nothing away: on a column with a range and against a finite literal a comparison is
      ruled out if and only if no number in the range satisfies it. An inequality never is. */
  lemma PruningTight(field: string, op: CmpOp, n: Num, lo: real, hi: real)
    requires lo <= hi
    ensures var stats := ShardStats(map[field := (Finite(lo), Finite(hi))]);
      CanMatch(stats, Cmp(field, op, Number(n))) <==>
        op == Ne || exists x: real :: lo <= x <= hi && op.Eval(Number(Float(x)), Number(n))
  {
    var v := n.Real();
    if op == Eq && lo <= v <= hi { assert op.Eval(Number(Float(v)), Number(n)); }
    if (op == Lt && lo < v) || (op == Le && lo <= v) { assert op.Eval(Number(Float(lo)), Number(n)); }
    if (op == Gt && hi > v) || (op == Ge && hi >= v) { assert op.Eval(Number(Float(hi)), Number(n)); }
  }

  /** Without statistics on the column, or with none at all, and against what is no number, nothing is
      ruled out; nor is a negation, nor the missing WHERE. */
  lemma DoubtKeeps(stats: Option<ShardStats>, field: string, op: CmpOp, value: Json, p: Predicate)
    ensures stats.None? ==> ShardCanMatch(stats, p)
    ensures stats.Some? && (field !in stats.value.numeric || AsF64(value).None?) ==>
      ShardCanMatch(stats, Cmp(field, op, value))
    ensures ShardCanMatch(stats, Not(p)) && ShardCanMatch(stats, True)
  {}

  /** AND is ruled out by either side, OR by both together. */
  lemma ConnectivesPrune(stats: ShardStats, a: Predicate, b: Predicate)
    ensures CanMatch(stats, And(a, b)) <==> CanMatch(stats, a) && CanMatch(stats, b)
    ensures CanMatch(stats, Or(a, b)) <==> CanMatch(stats, a) || CanMatch(stats, b)
  {}

  // ----- rendezvous ranking -----

  /** Higher score first, ties by host id. `score` stands for the hash of shard and host. */
  function RankOrder(score: (string, string) -> nat, cid: string): (string, string) -> bool {
    (a, b) => score(cid, a) > score(cid, b) || (score(cid, a) == score(cid, b) && CompareString(a, b) != Greater)
  }

  function RankHosts(score: (string, string) -> nat, cid: string, hosts: seq<string>): seq<string> {
    StableSort(hosts, RankOrder(score, cid))
  }

  /** The best score comes first, and equal scores go by host name. */
  lemma RankMeans(score: (string, string) -> nat, cid: string, hosts: seq<string>, i: nat, j: nat)
    requires i < j < |RankHosts(score, cid, hosts)|
    ensures var a, b := RankHosts(score, cid, hosts)[i], RankHosts(score, cid, hosts)[j];
      && score(cid, a) >= score(cid, b)
      && (score(cid, a) == score(cid, b) ==> CompareString(a, b) != Greater)
  {
    RankIndependent(score, cid, hosts, hosts);
    var out := RankHosts(score, cid, hosts);
    hide RankHosts;
    assert RankOrder(score, cid)(out[i], out[j]);
  }

  lemma RankIsTotal(score: (string, string) -> nat, cid: string)
    ensures TotalPreorder(RankOrder(score, cid))
    ensures forall a, b :: RankOrder(score, cid)(a, b) && RankOrder(score, cid)(b, a) ==> a == b
  {
    var le := RankOrder(score, cid);
    forall a, b ensures le(a, b) || le(b, a) { CompareStringFlips(a, b); }
    forall a, b | le(a, b) && le(b, a) ensures a == b { CompareStringFlips(a, b); }
    forall a, b, c | le(a, b) && le(b, c) ensures le(a, c) {
      if score(cid, a) == score(cid, b) == score(cid, c) { CompareStringTransitive(a, b, c); }
    }
  }

  /** The ranking is a sorted permutation of the hosts and ignores the order they came in. */
  lemma RankIndependent(score: (string, string) -> nat, cid: string, hosts: seq<string>, hosts': seq<string>)
    requires multiset(hosts) == multiset(hosts')
    ensures RankHosts(score, cid, hosts) == RankHosts(score, cid, hosts')
    ensures Sorted(RankHosts(score, cid, hosts), RankOrder(score, cid))
    ensures multiset(RankHosts(score, cid, hosts)) == multiset(hosts)
  {
    var le := RankOrder(score, cid);
    RankIsTotal(score, cid);
    SortIsStable(hosts, le);
    SortIsStable(hosts', le);
    SortKeeps(hosts, le);
    SortKeeps(hosts', le);
    hide RankOrder, StableSort;
    SortedMultisetUnique(StableSort(hosts, le), StableSort(hosts', le), le);
  }

  /** Removing a host deletes it from every ranking and moves nothing else, so a shard changes its
      primary only if the removed host was it, and every fallback chain keeps its order. */
  lemma RankStability(score: (string, string) -> nat, cid: string, hosts: seq<string>, gone: string)
    ensures RankHosts(score, cid, Filter(hosts, (h: string) => h != gone))
         == Filter(RankHosts(score, cid, hosts), (h: string) => h != gone)
    ensures hosts != [] && RankHosts(score, cid, hosts)[0] != gone ==>
      var rest := RankHosts(score, cid, Filter(hosts, (h: string) => h != gone));
      rest != [] && rest[0] == RankHosts(score, cid, hosts)[0]
  {
    var keep := (h: string) => h != gone;
    RankIsTotal(score, cid);
    SortFilter(hosts, keep, RankOrder(score, cid));
    SortKeeps(hosts, RankOrder(score, cid));
    var ranked := RankHosts(score, cid, hosts);
    if hosts != [] && ranked[0] != gone {
      assert ranked == [ranked[0]] + ranked[1..];
      FilterConcat([ranked[0]], ranked[1..], keep);
      assert [ranked[0]][..0] == [];
    }
  }

  // ----- a shard task -----

  /** One shard with its ranking and the position of the host now assigned. */
  class ShardTask {
    const shard: Shard
    const rankedHosts: seq<string>
    var attempt: nat

    constructor Planned(shard: Shard, rankedHosts: seq<string>)
      ensures this.shard == shard && this.rankedHosts == rankedHosts && attempt == 0
    {
      this.shard, this.rankedHosts, attempt := shard, rankedHosts, 0;
    }

    function Host(): (h: Option<string>)
      reads this
      ensures h.Some? <==> !Exhausted()
      ensures h.Some? ==> attempt < |rankedHosts| && h.value == rankedHosts[attempt]
    {
      if attempt < |rankedHosts| then Some(rankedHosts[attempt]) else None
    }

    predicate Exhausted()
      reads this
    {
      attempt >= |rankedHosts|
    }

    /** Move to the next-best host, or past the end. */
    method Advance() returns (more: bool)
      modifies this
      ensures more <==> old(attempt) + 1 < |rankedHosts|
      ensures attempt == if more then old(attempt) + 1 else |rankedHosts|
    {
      if attempt + 1 < |rankedHosts| {
        attempt := attempt + 1;
        more := true;
      } else {
        attempt := |rankedHosts|;
        more := false;
      }
    }
  }
}
