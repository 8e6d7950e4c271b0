// The language of the front end, as a relation between tokens and queries that does not mention the
// parser: every way of spelling a query. The parser accepts exactly the spellings.
module Grammar {
  import opened Prelude
  import opened Numerals
  import opened JsonModel
  import opened QueryModel
  import opened Lexer
  import opened Parser

  // ----- spellings -----

  /** A keyword, in any case. */
  predicate SpellsKw(t: Tok, kw: string) {
    t.Word? && Lower(t.w) == kw
  }

  /** A name is any word but an operator, a comma or a parenthesis. */
  predicate SpellsName(t: Tok, name: string) {
    t == Word(name) && name !in {"=", "!=", "<>", "<", "<=", ">", ">=", ",", "(", ")"}
  }

  predicate SpellsOp(t: Tok, op: CmpOp) {
    match op
    case Eq => t == Word("=")
    case Ne => t == Word("!=") || t == Word("<>")
    case Lt => t == Word("<")
    case Le => t == Word("<=")
    case Gt => t == Word(">")
    case Ge => t == Word(">=")
  }

  /** A quoted literal is its string. A word is a boolean or null in any case, else a 64-bit integer if
      it reads as one, else a float if it reads as a finite one, else null if as another, else itself. */
  predicate SpellsLiteral(t: Tok, v: Json) {
    match t
    case Str(s) => v == String(s)
    case Word(w) =>
      if Lower(w) == "true" then v == Bool(true)
      else if Lower(w) == "false" then v == Bool(false)
      else if Lower(w) == "null" then v == Null
      else if ParseInt(w).Some? && I64_MIN <= ParseInt(w).value <= I64_MAX then v == Number(Int(ParseInt(w).value))
      else if ParseF64(w).None? then v == String(w)
      else if ParseF64(w).value.Finite? then v == Number(Float(ParseF64(w).value.r))
      else v == Null
  }

  /** `col op literal`. */
  predicate SpellsCmp(ts: seq<Tok>, p: Predicate) {
    p.Cmp? && |ts| == 3 && SpellsName(ts[0], p.field) && SpellsOp(ts[1], p.op) && SpellsLiteral(ts[2], p.value)
  }

  /** A comparison, or NOT and a comparison. Without NOT the column cannot be called that. */
  predicate SpellsTerm(ts: seq<Tok>, p: Predicate) {
    if p.Not? then |ts| == 4 && SpellsKw(ts[0], "not") && SpellsCmp(ts[1..], p.inner)
    else SpellsCmp(ts, p) && !SpellsKw(ts[0], "not")
  }

  function TermLength(p: Predicate): nat {
    if p.Not? then 4 else 3
  }

  /** Terms joined by AND and OR alike, each applied to everything before it. */
  predicate SpellsChain(ts: seq<Tok>, p: Predicate) {
    match p
    case And(l, r) => SpellsLink(ts, "and", r) && SpellsChain(ts[..|ts| - 1 - TermLength(r)], l)
    case Or(l, r) => SpellsLink(ts, "or", r) && SpellsChain(ts[..|ts| - 1 - TermLength(r)], l)
    case _ => SpellsTerm(ts, p)
  }

  /** The chain ends with this keyword and this term. */
  predicate SpellsLink(ts: seq<Tok>, kw: string, r: Predicate) {
    var n := |ts| - 1 - TermLength(r);
    n >= 0 && SpellsKw(ts[n], kw) && SpellsTerm(ts[n + 1..], r)
  }

  /** Names with commas between them. */
  predicate SpellsNames(ts: seq<Tok>, ws: seq<string>)
    decreases |ws|
  {
    && ws != [] && ts != [] && SpellsName(ts[0], ws[0])
    && if |ws| == 1 then |ts| == 1 else |ts| >= 2 && ts[1] == Word(",") && SpellsNames(ts[2..], ws[1..])
  }

  /** `FUNC(arg)`: COUNT of any word, the others of any but a star. */
  predicate SpellsAgg(ts: seq<Tok>, a: Agg) {
    && |ts| == 4 && ts[1] == Word("(") && ts[2].Word? && ts[3] == Word(")")
    && match a
       case Count => SpellsKw(ts[0], "count")
       case Sum(f) => SpellsKw(ts[0], "sum") && ts[2].w == f != "*"
       case Min(f) => SpellsKw(ts[0], "min") && ts[2].w == f != "*"
       case Max(f) => SpellsKw(ts[0], "max") && ts[2].w == f != "*"
       case Avg(f) => SpellsKw(ts[0], "avg") && ts[2].w == f != "*"
  }

  predicate SpellsAggs(ts: seq<Tok>, aggs: seq<Agg>)
    decreases |aggs|
  {
    && aggs != [] && |ts| >= 4 && SpellsAgg(ts[..4], aggs[0])
    && if |aggs| == 1 then |ts| == 4 else |ts| >= 5 && ts[4] == Word(",") && SpellsAggs(ts[5..], aggs[1..])
  }

  /** A column, ascending unless DESC is said. */
  predicate SpellsKey(ts: seq<Tok>, k: OrderKey) {
    || (|ts| == 1 && SpellsName(ts[0], k.column) && k.dir == Asc)
    || (|ts| == 2 && SpellsName(ts[0], k.column) && SpellsKw(ts[1], if k.dir == Asc then "asc" else "desc"))
  }

  predicate SpellsKeys(ts: seq<Tok>, keys: seq<OrderKey>)
    decreases |keys|
  {
    if |keys| <= 1 then keys != [] && SpellsKey(ts, keys[0])
    else
      || (|ts| > 1 && SpellsKey(ts[..1], keys[0]) && ts[1] == Word(",") && SpellsKeys(ts[2..], keys[1..]))
      || (|ts| > 2 && SpellsKey(ts[..2], keys[0]) && ts[2] == Word(",") && SpellsKeys(ts[3..], keys[1..]))
  }

  predicate SpellsSelect(ts: seq<Tok>, select: SelectList) {
    match select
    case Aggregates(aggs) => SpellsAggs(ts, aggs)
    case Projection(cols) =>
      if cols == [] then ts == [Word("*")] else SpellsNames(ts, cols) && cols[0] != "*"
  }

  predicate SpellsWhere(ts: seq<Tok>, p: Predicate) {
    if ts == [] then p == True else SpellsKw(ts[0], "where") && SpellsChain(ts[1..], p)
  }

  predicate SpellsGroup(ts: seq<Tok>, cols: seq<string>) {
    if ts == [] then cols == []
    else |ts| >= 2 && SpellsKw(ts[0], "group") && SpellsKw(ts[1], "by") && SpellsNames(ts[2..], cols)
  }

  predicate SpellsOrder(ts: seq<Tok>, keys: seq<OrderKey>) {
    if ts == [] then keys == []
    else |ts| >= 2 && SpellsKw(ts[0], "order") && SpellsKw(ts[1], "by") && SpellsKeys(ts[2..], keys)
  }

  predicate SpellsLimit(ts: seq<Tok>, limit: Option<nat>) {
    if ts == [] then limit == None
    else
      && |ts| == 2 && SpellsKw(ts[0], "limit") && ts[1].Word? && SpellsName(ts[1], ts[1].w)
      && limit.Some? && ParseUsize(ts[1].w) == limit
  }

  /** The parts of a query's text between its keywords SELECT and FROM and its dataset. */
  datatype Parts = Parts(select: seq<Tok>, where: seq<Tok>, group: seq<Tok>, order: seq<Tok>, limit: seq<Tok>)

  function SelectOf(q: Query): SelectList {
    if q.projection.None? then Aggregates(q.aggregates) else Projection(q.projection.value)
  }

  /** SELECT and FROM around the select list, then the dataset and the clauses in their fixed order. */
  predicate SpellsQuery(toks: seq<Tok>, parts: Parts, q: Query) {
    var at := 1 + |parts.select|;
    && at + 2 <= |toks|
    && SpellsKw(toks[0], "select") && SpellsKw(toks[at], "from") && SpellsName(toks[at + 1], q.dataset)
    && toks[1..at] == parts.select
    && toks[at + 2..] == parts.where + (parts.group + (parts.order + parts.limit))
    && SpellsSelect(parts.select, SelectOf(q)) && SpellsWhere(parts.where, q.predicate_)
    && SpellsGroup(parts.group, q.groupBy) && SpellsOrder(parts.order, q.orderBy) && SpellsLimit(parts.limit, q.limit)
    && q.Valid() && (q.projection.Some? ==> q.aggregates == [])
  }

  ghost predicate Spells(toks: seq<Tok>, q: Query) {
    exists parts :: SpellsQuery(toks, parts, q)
  }

  // ----- where tokens stand -----

  /** `part` stands in `toks` at `pos`. */
  ghost predicate Has(toks: seq<Tok>, pos: nat, part: seq<Tok>) {
    pos + |part| <= |toks| && toks[pos..pos + |part|] == part
  }

  lemma HasSplit(toks: seq<Tok>, pos: nat, a: seq<Tok>, b: seq<Tok>)
    requires Has(toks, pos, a + b)
    ensures Has(toks, pos, a) && Has(toks, pos + |a|, b)
  {
    var part := toks[pos..pos + |a + b|];
    assert part[..|a|] == a && part[|a|..] == b;
    assert toks[pos..pos + |a|] == part[..|a|];
    assert toks[pos + |a|..pos + |a| + |b|] == part[|a|..];
  }

  lemma HasCut(toks: seq<Tok>, pos: nat, part: seq<Tok>, n: nat)
    requires Has(toks, pos, part) && n <= |part|
    ensures Has(toks, pos, part[..n]) && Has(toks, pos + n, part[n..])
    ensures n < |part| ==> pos + n < |toks| && toks[pos + n] == part[n]
  {
    assert part == part[..n] + part[n..];
    HasSplit(toks, pos, part[..n], part[n..]);
    HasAt(toks, pos, part);
  }

  lemma HasAt(toks: seq<Tok>, pos: nat, part: seq<Tok>)
    requires Has(toks, pos, part)
    ensures forall i :: 0 <= i < |part| ==> pos + i < |toks| && toks[pos + i] == part[i]
  {
    forall i | 0 <= i < |part| ensures toks[pos + i] == part[i] {
      assert toks[pos..pos + |part|][i] == toks[pos + i];
    }
  }

  // ----- every spelling is read -----

  lemma LiteralRead(toks: seq<Tok>, pos: nat, v: Json)
    requires pos < |toks|
    ensures LiteralAt(toks, pos) == Parsed(v, pos + 1) <==> SpellsLiteral(toks[pos], v)
  {
    hide ParseInt, ParseF64, Lower;
  }

  lemma OpRead(toks: seq<Tok>, pos: nat, op: CmpOp)
    requires pos < |toks|
    ensures OpAt(toks, pos) == Parsed(op, pos + 1) <==> SpellsOp(toks[pos], op)
  {}

  lemma NameRead(toks: seq<Tok>, pos: nat)
    ensures IsName(toks, pos) <==> pos < |toks| && toks[pos].Word? && SpellsName(toks[pos], toks[pos].w)
  {}

  lemma TermRead(toks: seq<Tok>, pos: nat, ts: seq<Tok>, p: Predicate)
    requires SpellsTerm(ts, p) && Has(toks, pos, ts)
    ensures TermAt(toks, pos) == Parsed(p, pos + |ts|) && |ts| == TermLength(p)
  {
    hide SpellsLiteral, SpellsOp, SpellsName, LiteralAt, OpAt, IsName, Lower, Has;
    HasAt(toks, pos, ts);
    var at := if p.Not? then pos + 1 else pos;
    assert toks[pos + 0] == ts[0] && toks[pos + 1] == ts[1] && toks[pos + 2] == ts[2];
    if p.Not? { assert toks[pos + 3] == ts[3]; }
    var cmp := if p.Not? then p.inner else p;
    assert SpellsName(toks[at], cmp.field) && SpellsOp(toks[at + 1], cmp.op) && SpellsLiteral(toks[at + 2], cmp.value);
    NameIs(toks[at], cmp.field);
    NameRead(toks, at);
    OpRead(toks, at + 1, cmp.op);
    LiteralRead(toks, at + 2, cmp.value);
  }

  lemma NameIs(t: Tok, name: string)
    requires SpellsName(t, name)
    ensures t == Word(name)
  {}

  lemma {:induction false} ChainRead(toks: seq<Tok>, pos: nat, ts: seq<Tok>, p: Predicate)
    requires SpellsChain(ts, p) && Has(toks, pos, ts)
    ensures PredicateAt(toks, pos) == ChainAt(toks, pos + |ts|, p)
    decreases p, 1
  {
    hide TermAt, SpellsTerm, Has, SpellsLink;
    match p
    case And(l, r) => LinkRead(toks, pos, ts, p, l, r, "and");
    case Or(l, r) => LinkRead(toks, pos, ts, p, l, r, "or");
    case _ => TermRead(toks, pos, ts, p);
  }

  lemma {:induction false} LinkRead(toks: seq<Tok>, pos: nat, ts: seq<Tok>, p: Predicate, l: Predicate, r: Predicate,
                                    kw: string)
    requires (kw == "and" && p == And(l, r)) || (kw == "or" && p == Or(l, r))
    requires SpellsLink(ts, kw, r) && SpellsChain(ts[..|ts| - 1 - TermLength(r)], l) && Has(toks, pos, ts)
    ensures PredicateAt(toks, pos) == ChainAt(toks, pos + |ts|, p)
    decreases p, 0
  {
    hide TermAt, SpellsTerm, PredicateAt, ChainAt, SpellsChain, Has, Lower, TermLength;
    var n := |ts| - 1 - TermLength(r);
    HasCut(toks, pos, ts, n);
    HasCut(toks, pos, ts, n + 1);
    ChainRead(toks, pos, ts[..n], l);
    TermRead(toks, pos + n + 1, ts[n + 1..], r);
    ChainUnfold(toks, pos + n, l, r, kw, pos + |ts|);
  }

  lemma ChainUnfold(toks: seq<Tok>, pos: nat, l: Predicate, r: Predicate, kw: string, end: nat)
    requires (kw == "and" || kw == "or") && IsKw(toks, pos, kw)
    requires TermAt(toks, pos + 1) == Parsed(r, end) && end > pos
    ensures ChainAt(toks, pos, l) == ChainAt(toks, end, if kw == "and" then And(l, r) else Or(l, r))
  {
    hide TermAt;
  }

  lemma ChainStops(toks: seq<Tok>, pos: nat, p: Predicate)
    requires !IsKw(toks, pos, "and") && !IsKw(toks, pos, "or")
    ensures ChainAt(toks, pos, p) == Parsed(p, pos)
  {}

  lemma {:induction false} NamesRead(toks: seq<Tok>, pos: nat, ts: seq<Tok>, ws: seq<string>, acc: seq<string>)
    requires SpellsNames(ts, ws) && Has(toks, pos, ts) && !IsWord(toks, pos + |ts|, ",")
    ensures NamesAt(toks, pos, acc) == Parsed(acc + ws, pos + |ts|)
    decreases |ws|
  {
    hide SpellsName, IsName, Has;
    HasCut(toks, pos, ts, 0);
    NameIs(ts[0], ws[0]);
    NameRead(toks, pos);
    if |ws| == 1 {
      assert ws == [ws[0]];
    } else {
      HasCut(toks, pos, ts, 1);
      HasCut(toks, pos, ts, 2);
      NamesRead(toks, pos + 2, ts[2..], ws[1..], acc + [ws[0]]);
      assert acc + [ws[0]] + ws[1..] == acc + ws;
    }
  }

  lemma AggRead(toks: seq<Tok>, pos: nat, ts: seq<Tok>, a: Agg)
    requires SpellsAgg(ts, a) && Has(toks, pos, ts)
    ensures AggAt(toks, pos) == Parsed(a, pos + 4)
    ensures IsName(toks, pos) && IsWord(toks, pos + 1, "(") && !IsWord(toks, pos, "*")
  {
    HasAt(toks, pos, ts);
    assert toks[pos + 0] == ts[0] && toks[pos + 1] == ts[1] && toks[pos + 2] == ts[2] && toks[pos + 3] == ts[3];
    hide Has;
    FuncIsName(ts[0].w);
  }

  /** The name of an aggregate function is no operator and no star. */
  lemma FuncIsName(w: string)
    requires Lower(w) in ["count", "sum", "min", "max", "avg"]
    ensures !IsOperator(w) && w != "*"
  {
    assert |Lower(w)| == |w| == if Lower(w) == "count" then 5 else 3;
  }

  lemma {:induction false} AggsRead(toks: seq<Tok>, pos: nat, ts: seq<Tok>, aggs: seq<Agg>, acc: seq<Agg>)
    requires SpellsAggs(ts, aggs) && Has(toks, pos, ts) && !IsWord(toks, pos + |ts|, ",")
    ensures AggsAt(toks, pos, acc) == Parsed(acc + aggs, pos + |ts|)
    ensures IsName(toks, pos) && IsWord(toks, pos + 1, "(") && !IsWord(toks, pos, "*")
    decreases |aggs|
  {
    hide AggAt, SpellsAgg, Has;
    HasCut(toks, pos, ts, 4);
    AggRead(toks, pos, ts[..4], aggs[0]);
    if |aggs| == 1 {
      assert aggs == [aggs[0]];
    } else {
      HasCut(toks, pos, ts, 5);
      AggsRead(toks, pos + 5, ts[5..], aggs[1..], acc + [aggs[0]]);
      assert acc + [aggs[0]] + aggs[1..] == acc + aggs;
    }
  }

  lemma KeyRead(toks: seq<Tok>, pos: nat, ts: seq<Tok>, k: OrderKey)
    requires SpellsKey(ts, k) && Has(toks, pos, ts)
    requires !IsKw(toks, pos + |ts|, "asc") && !IsKw(toks, pos + |ts|, "desc")
    ensures IsName(toks, pos) && toks[pos] == Word(k.column) && DirAt(toks, pos + 1) == (k.dir, pos + |ts|)
  {
    hide Lower, IsOperator;
    HasAt(toks, pos, ts);
    assert toks[pos + 0] == ts[0];
    if |ts| == 2 { assert toks[pos + 1] == ts[1]; }
    hide Has;
    NameIs(ts[0], k.column);
    NameRead(toks, pos);
  }

  lemma CommaIsNoKw(toks: seq<Tok>, pos: nat, kw: string)
    requires IsWord(toks, pos, ",") && (kw == "asc" || kw == "desc")
    ensures !IsKw(toks, pos, kw)
  {
    assert |Lower(",")| == 1;
  }

  lemma {:induction false} KeysRead(toks: seq<Tok>, pos: nat, ts: seq<Tok>, keys: seq<OrderKey>, acc: seq<OrderKey>)
    requires SpellsKeys(ts, keys) && Has(toks, pos, ts)
    requires !IsWord(toks, pos + |ts|, ",") && !IsKw(toks, pos + |ts|, "asc") && !IsKw(toks, pos + |ts|, "desc")
    ensures KeysAt(toks, pos, acc) == Parsed(acc + keys, pos + |ts|)
    decreases |keys|
  {
    hide DirAt, SpellsKey, IsName, IsKw, Has;
    var k := keys[0];
    assert k == OrderKey(k.column, k.dir);
    if |keys| == 1 {
      KeyRead(toks, pos, ts, k);
      assert keys == [k];
    } else {
      var short := |ts| > 1 && SpellsKey(ts[..1], k) && ts[1] == Word(",") && SpellsKeys(ts[2..], keys[1..]);
      var n := if short then 1 else 2;
      HasCut(toks, pos, ts, n);
      HasCut(toks, pos, ts, n + 1);
      CommaIsNoKw(toks, pos + n, "asc");
      CommaIsNoKw(toks, pos + n, "desc");
      KeyRead(toks, pos, ts[..n], k);
      KeysRead(toks, pos + n + 1, ts[n + 1..], keys[1..], acc + [k]);
      assert acc + [k] + keys[1..] == acc + keys;
    }
  }

  /** The tokens end at `pos` or go on with one of `kws`, all of them clause keywords. */
  ghost predicate StopsAt(toks: seq<Tok>, pos: nat, kws: set<string>) {
    && kws <= {"from", "group", "order", "limit"}
    && (pos >= |toks| || (toks[pos].Word? && Lower(toks[pos].w) in kws))
  }

  lemma StopIsNoOther(toks: seq<Tok>, pos: nat, kws: set<string>)
    requires StopsAt(toks, pos, kws)
    ensures !IsWord(toks, pos, ",") && !IsWord(toks, pos, "(")
    ensures forall kw :: kw !in kws ==> !IsKw(toks, pos, kw)
  {
    if pos < |toks| { assert |Lower(toks[pos].w)| == |toks[pos].w|; }
  }

  lemma SelectRead(toks: seq<Tok>, pos: nat, ts: seq<Tok>, select: SelectList)
    requires SpellsSelect(ts, select) && Has(toks, pos, ts) && IsKw(toks, pos + |ts|, "from")
    ensures SelectAt(toks, pos) == Parsed(select, pos + |ts|)
  {
    hide AggsAt, NamesAt, SpellsAggs, Has, IsName, Lower;
    assert StopsAt(toks, pos + |ts|, {"from"});
    StopIsNoOther(toks, pos + |ts|, {"from"});
    match select
    case Aggregates(aggs) =>
      AggsRead(toks, pos, ts, aggs, []);
      assert [] + aggs == aggs;
    case Projection(cols) =>
      if cols == [] {
        HasCut(toks, pos, ts, 0);
      } else {
        ColumnsRead(toks, pos, ts, cols);
      }
  }

  lemma ColumnsRead(toks: seq<Tok>, pos: nat, ts: seq<Tok>, cols: seq<string>)
    requires SpellsNames(ts, cols) && cols[0] != "*" && Has(toks, pos, ts)
    requires !IsWord(toks, pos + |ts|, ",") && !IsWord(toks, pos + |ts|, "(")
    ensures SelectAt(toks, pos) == Parsed(Projection(cols), pos + |ts|)
  {
    hide NamesAt, AggsAt, Has, IsName, SpellsName;
    NamesRead(toks, pos, ts, cols, []);
    assert [] + cols == cols;
    HasCut(toks, pos, ts, 0);
    NameIs(ts[0], cols[0]);
    NameRead(toks, pos);
    if |cols| > 1 { HasCut(toks, pos, ts, 1); }
  }

  lemma WhereRead(toks: seq<Tok>, pos: nat, ts: seq<Tok>, p: Predicate)
    requires SpellsWhere(ts, p) && Has(toks, pos, ts) && StopsAt(toks, pos + |ts|, {"group", "order", "limit"})
    ensures WhereAt(toks, pos) == Parsed(p, pos + |ts|)
  {
    hide PredicateAt, SpellsChain, Has, ChainAt, StopsAt, Lower;
    StopIsNoOther(toks, pos + |ts|, {"group", "order", "limit"});
    if ts != [] {
      HasCut(toks, pos, ts, 0);
      HasCut(toks, pos, ts, 1);
      ChainRead(toks, pos + 1, ts[1..], p);
      ChainStops(toks, pos + |ts|, p);
    }
  }

  lemma GroupRead(toks: seq<Tok>, pos: nat, ts: seq<Tok>, cols: seq<string>)
    requires SpellsGroup(ts, cols) && Has(toks, pos, ts) && StopsAt(toks, pos + |ts|, {"order", "limit"})
    ensures GroupAt(toks, pos) == Parsed(cols, pos + |ts|)
  {
    hide NamesAt, SpellsNames, Has, StopsAt, IsWord, Lower;
    StopIsNoOther(toks, pos + |ts|, {"order", "limit"});
    if ts != [] {
      HasCut(toks, pos, ts, 0);
      HasCut(toks, pos, ts, 1);
      HasCut(toks, pos, ts, 2);
      NamesRead(toks, pos + 2, ts[2..], cols, []);
      assert [] + cols == cols;
    }
  }

  lemma OrderRead(toks: seq<Tok>, pos: nat, ts: seq<Tok>, keys: seq<OrderKey>)
    requires SpellsOrder(ts, keys) && Has(toks, pos, ts) && StopsAt(toks, pos + |ts|, {"limit"})
    ensures OrderAt(toks, pos) == Parsed(keys, pos + |ts|)
  {
    hide KeysAt, SpellsKeys, Has, StopsAt, IsWord, Lower;
    StopIsNoOther(toks, pos + |ts|, {"limit"});
    if ts != [] {
      HasCut(toks, pos, ts, 0);
      HasCut(toks, pos, ts, 1);
      HasCut(toks, pos, ts, 2);
      KeysRead(toks, pos + 2, ts[2..], keys, []);
      assert [] + keys == keys;
    }
  }

  lemma LimitRead(toks: seq<Tok>, pos: nat, ts: seq<Tok>, limit: Option<nat>)
    requires SpellsLimit(ts, limit) && Has(toks, pos, ts) && pos + |ts| == |toks|
    ensures LimitAt(toks, pos) == Parsed(limit, |toks|)
  {
    hide Has, Lower, ParseUsize, SpellsName, IsName;
    if ts != [] {
      HasCut(toks, pos, ts, 0);
      HasCut(toks, pos, ts, 1);
      NameRead(toks, pos + 1);
    }
  }

  lemma PartStops(toks: seq<Tok>, pos: nat, ts: seq<Tok>, kw: string, kws: set<string>, all: set<string>)
    requires Has(toks, pos, ts) && (ts == [] || SpellsKw(ts[0], kw)) && StopsAt(toks, pos + |ts|, kws)
    requires kws + {kw} == all <= {"group", "order", "limit"}
    ensures StopsAt(toks, pos, all)
  {
    hide Has, Lower;
    if ts != [] { HasCut(toks, pos, ts, 0); }
  }

  /** Where each clause stands, and what it may be followed by. */
  ghost predicate Placed(toks: seq<Tok>, pos: nat, parts: Parts) {
    var g := pos + |parts.where|;
    var o := g + |parts.group|;
    var l := o + |parts.order|;
    && Has(toks, pos, parts.where) && Has(toks, g, parts.group) && Has(toks, o, parts.order)
    && Has(toks, l, parts.limit)
    && l + |parts.limit| == |toks|
    && StopsAt(toks, g, {"group", "order", "limit"}) && StopsAt(toks, o, {"order", "limit"})
    && StopsAt(toks, l, {"limit"})
  }

  lemma ClausesPlaced(toks: seq<Tok>, pos: nat, parts: Parts, q: Query)
    requires pos <= |toks| && toks[pos..] == parts.where + (parts.group + (parts.order + parts.limit))
    requires SpellsGroup(parts.group, q.groupBy) && SpellsOrder(parts.order, q.orderBy)
    requires SpellsLimit(parts.limit, q.limit)
    ensures Placed(toks, pos, parts)
  {
    hide Has, SpellsGroup, SpellsOrder, SpellsLimit, StopsAt, SpellsKw;
    ClausesSplit(toks, pos, parts);
    ClausesStart(parts, q);
    var o := pos + |parts.where| + |parts.group|;
    EndStops(toks);
    PartStops(toks, o + |parts.order|, parts.limit, "limit", {}, {"limit"});
    PartStops(toks, o, parts.order, "order", {"limit"}, {"order", "limit"});
    PartStops(toks, pos + |parts.where|, parts.group, "group", {"order", "limit"}, {"group", "order", "limit"});
  }

  lemma ClausesSplit(toks: seq<Tok>, pos: nat, parts: Parts)
    requires pos <= |toks| && toks[pos..] == parts.where + (parts.group + (parts.order + parts.limit))
    ensures var g := pos + |parts.where|;
      var o := g + |parts.group|;
      var l := o + |parts.order|;
      && Has(toks, pos, parts.where) && Has(toks, g, parts.group) && Has(toks, o, parts.order)
      && Has(toks, l, parts.limit) && l + |parts.limit| == |toks|
  {
    var g := pos + |parts.where|;
    assert Has(toks, pos, toks[pos..]);
    assert |toks[pos..]| == |parts.where| + (|parts.group| + (|parts.order| + |parts.limit|));
    hide Has;
    HasSplit(toks, pos, parts.where, parts.group + (parts.order + parts.limit));
    HasSplit(toks, g, parts.group, parts.order + parts.limit);
    HasSplit(toks, g + |parts.group|, parts.order, parts.limit);
  }

  lemma ClausesStart(parts: Parts, q: Query)
    requires SpellsGroup(parts.group, q.groupBy) && SpellsOrder(parts.order, q.orderBy)
    requires SpellsLimit(parts.limit, q.limit)
    ensures parts.group == [] || SpellsKw(parts.group[0], "group")
    ensures parts.order == [] || SpellsKw(parts.order[0], "order")
    ensures parts.limit == [] || SpellsKw(parts.limit[0], "limit")
  {
    hide SpellsNames, SpellsKeys, SpellsKw, ParseUsize;
  }

  lemma EndStops(toks: seq<Tok>)
    ensures StopsAt(toks, |toks|, {})
  {}

  lemma ClausesRead(toks: seq<Tok>, pos: nat, parts: Parts, q: Query)
    requires Placed(toks, pos + 1, parts) && pos < |toks| && SpellsName(toks[pos], q.dataset)
    requires SpellsWhere(parts.where, q.predicate_) && SpellsGroup(parts.group, q.groupBy)
    requires SpellsOrder(parts.order, q.orderBy) && SpellsLimit(parts.limit, q.limit)
    requires q.projection.Some? ==> q.aggregates == [] && q.groupBy == []
    ensures ClausesAt(toks, pos, SelectOf(q)) == Parsed(q, |toks|)
  {
    hide Has, StopsAt, WhereAt, GroupAt, OrderAt, LimitAt, SpellsName, SpellsWhere, SpellsGroup, SpellsOrder;
    hide SpellsLimit, IsName;
    NameIs(toks[pos], q.dataset);
    NameRead(toks, pos);
    var g := pos + 1 + |parts.where|;
    WhereRead(toks, pos + 1, parts.where, q.predicate_);
    GroupRead(toks, g, parts.group, q.groupBy);
    OrderRead(toks, g + |parts.group|, parts.order, q.orderBy);
    LimitRead(toks, g + |parts.group| + |parts.order|, parts.limit, q.limit);
  }

  lemma QueryRead(toks: seq<Tok>, parts: Parts, q: Query)
    requires SpellsQuery(toks, parts, q)
    ensures ParseTokens(toks) == Some(q)
  {
    hide SpellsSelect, SpellsWhere, SpellsGroup, SpellsOrder, SpellsLimit, SpellsName, Lower, SelectAt, ClausesAt;
    var at := 1 + |parts.select|;
    assert Has(toks, 1, parts.select) && toks[at + 2..] == toks[at + 1 + 1..];
    hide Has;
    SelectRead(toks, 1, parts.select, SelectOf(q));
    ClausesPlaced(toks, at + 2, parts, q);
    ClausesRead(toks, at + 1, parts, q);
  }

  // ----- only spellings are read -----

  lemma TermSpelled(toks: seq<Tok>, pos: nat)
    requires TermAt(toks, pos).Parsed?
    ensures var r := TermAt(toks, pos); pos < r.pos <= |toks| && SpellsTerm(toks[pos..r.pos], r.value)
  {
    hide LiteralAt, OpAt, IsName, SpellsName, SpellsOp, SpellsLiteral, Lower;
    var r := TermAt(toks, pos);
    var at := if IsKw(toks, pos, "not") then pos + 1 else pos;
    var cmp := if at == pos then r.value else r.value.inner;
    NameRead(toks, at);
    ReadsOne(toks, at);
    OpRead(toks, at + 1, cmp.op);
    LiteralRead(toks, at + 2, cmp.value);
    assert SpellsCmp(toks[at..at + 3], cmp);
    if at == pos {
      assert toks[pos..r.pos] == toks[at..at + 3];
    } else {
      assert toks[pos..r.pos][1..] == toks[at..at + 3];
    }
  }

  /** An operator and a literal are one token each. */
  lemma ReadsOne(toks: seq<Tok>, at: nat)
    ensures OpAt(toks, at + 1).Parsed? ==> at + 1 < |toks| && OpAt(toks, at + 1).pos == at + 2
    ensures LiteralAt(toks, at + 2).Parsed? ==> at + 2 < |toks| && LiteralAt(toks, at + 2).pos == at + 3
  {
    hide LiteralFromWord;
  }

  lemma {:induction false} ChainSpelled(toks: seq<Tok>, start: nat, pos: nat, left: Predicate)
    requires start <= pos <= |toks| && SpellsChain(toks[start..pos], left) && ChainAt(toks, pos, left).Parsed?
    ensures var r := ChainAt(toks, pos, left); pos <= r.pos <= |toks| && SpellsChain(toks[start..r.pos], r.value)
    decreases |toks| - pos
  {
    hide TermAt, SpellsTerm, Lower, SpellsChain;
    if IsKw(toks, pos, "and") || IsKw(toks, pos, "or") {
      var t := TermAt(toks, pos + 1);
      TermSpelled(toks, pos + 1);
      var kw := if IsKw(toks, pos, "and") then "and" else "or";
      LinkSpelled(toks, start, pos, t.pos, left, t.value, kw);
      ChainSpelled(toks, start, t.pos, if kw == "and" then And(left, t.value) else Or(left, t.value));
    }
  }

  lemma LinkSpelled(toks: seq<Tok>, start: nat, pos: nat, end: nat, l: Predicate, r: Predicate, kw: string)
    requires start <= pos < end <= |toks| && IsKw(toks, pos, kw) && (kw == "and" || kw == "or")
    requires SpellsChain(toks[start..pos], l) && SpellsTerm(toks[pos + 1..end], r)
    ensures SpellsChain(toks[start..end], if kw == "and" then And(l, r) else Or(l, r))
  {
    hide SpellsCmp, Lower;
    var ts := toks[start..end];
    assert |toks[pos + 1..end]| == TermLength(r) by { TermLengthIs(toks[pos + 1..end], r); }
    hide SpellsTerm;
    var n := pos - start;
    assert ts[n] == toks[pos] && ts[n + 1..] == toks[pos + 1..end] && ts[..n] == toks[start..pos];
  }

  lemma TermLengthIs(ts: seq<Tok>, p: Predicate)
    requires SpellsTerm(ts, p)
    ensures |ts| == TermLength(p)
  {
    hide SpellsName, SpellsOp, SpellsLiteral, Lower;
  }

  lemma PredicateSpelled(toks: seq<Tok>, pos: nat)
    requires PredicateAt(toks, pos).Parsed?
    ensures var r := PredicateAt(toks, pos); pos < r.pos <= |toks| && SpellsChain(toks[pos..r.pos], r.value)
  {
    hide TermAt, ChainAt;
    TermSpelled(toks, pos);
    var t := TermAt(toks, pos);
    assert SpellsChain(toks[pos..t.pos], t.value) by { TermAlone(toks[pos..t.pos], t.value); }
    hide SpellsChain, SpellsTerm;
    ChainSpelled(toks, pos, t.pos, t.value);
  }

  lemma TermAlone(ts: seq<Tok>, p: Predicate)
    requires SpellsTerm(ts, p)
    ensures SpellsChain(ts, p)
  {
    hide SpellsName, SpellsOp, SpellsLiteral, Lower;
  }

  lemma {:induction false} NamesSpelled(toks: seq<Tok>, pos: nat, acc: seq<string>)
    requires NamesAt(toks, pos, acc).Parsed?
    ensures var r := NamesAt(toks, pos, acc);
      pos < r.pos <= |toks| && acc <= r.value && SpellsNames(toks[pos..r.pos], r.value[|acc|..])
    decreases |toks| - pos
  {
    hide SpellsName, IsName;
    NameRead(toks, pos);
    var w, r := toks[pos].w, NamesAt(toks, pos, acc);
    if IsWord(toks, pos + 1, ",") {
      NamesSpelled(toks, pos + 2, acc + [w]);
      assert r.value[|acc|..] == [w] + r.value[|acc| + 1..];
      assert r.value[|acc|..][1..] == r.value[|acc + [w]|..];
      assert toks[pos..r.pos][2..] == toks[pos + 2..r.pos];
    } else {
      assert r.value[|acc|..] == [w];
    }
  }

  lemma AggSpelled(toks: seq<Tok>, pos: nat)
    requires AggAt(toks, pos).Parsed?
    ensures AggAt(toks, pos).pos == pos + 4 <= |toks| && SpellsAgg(toks[pos..pos + 4], AggAt(toks, pos).value)
  {
    hide Lower, IsName;
    var ts := toks[pos..pos + 4];
    assert ts[0] == toks[pos] && ts[1] == toks[pos + 1] && ts[2] == toks[pos + 2] && ts[3] == toks[pos + 3];
    NameRead(toks, pos);
  }

  lemma {:induction false} AggsSpelled(toks: seq<Tok>, pos: nat, acc: seq<Agg>)
    requires AggsAt(toks, pos, acc).Parsed?
    ensures var r := AggsAt(toks, pos, acc);
      pos < r.pos <= |toks| && acc <= r.value && SpellsAggs(toks[pos..r.pos], r.value[|acc|..])
    decreases |toks| - pos
  {
    hide AggAt, SpellsAgg;
    AggSpelled(toks, pos);
    var a, r := AggAt(toks, pos).value, AggsAt(toks, pos, acc);
    if IsWord(toks, pos + 4, ",") {
      AggsSpelled(toks, pos + 5, acc + [a]);
      assert r.value[|acc|..] == [a] + r.value[|acc| + 1..];
      assert r.value[|acc|..][1..] == r.value[|acc + [a]|..];
      assert toks[pos..r.pos][5..] == toks[pos + 5..r.pos] && toks[pos..r.pos][..4] == toks[pos..pos + 4];
    } else {
      assert r.value[|acc|..] == [a];
      assert toks[pos..r.pos][..4] == toks[pos..pos + 4];
    }
  }

  lemma KeySpelled(toks: seq<Tok>, pos: nat)
    requires IsName(toks, pos)
    ensures var (dir, p) := DirAt(toks, pos + 1);
      pos < p <= pos + 2 && p <= |toks| && SpellsKey(toks[pos..p], OrderKey(toks[pos].w, dir))
  {
    hide Lower, IsName, SpellsName;
    NameRead(toks, pos);
    var (dir, p) := DirAt(toks, pos + 1);
    assert toks[pos..p][0] == toks[pos];
    if p == pos + 2 { assert toks[pos..p][1] == toks[pos + 1]; }
  }

  lemma {:induction false} KeysSpelled(toks: seq<Tok>, pos: nat, acc: seq<OrderKey>)
    requires KeysAt(toks, pos, acc).Parsed?
    ensures var r := KeysAt(toks, pos, acc);
      pos < r.pos <= |toks| && acc <= r.value && SpellsKeys(toks[pos..r.pos], r.value[|acc|..])
    decreases |toks| - pos
  {
    hide DirAt, SpellsKey, IsName, SpellsName;
    NameRead(toks, pos);
    KeySpelled(toks, pos);
    var (dir, p) := DirAt(toks, pos + 1);
    var k, r := OrderKey(toks[pos].w, dir), KeysAt(toks, pos, acc);
    if IsWord(toks, p, ",") {
      KeysSpelled(toks, p + 1, acc + [k]);
      var ts := toks[pos..r.pos];
      assert r.value[|acc|..] == [k] + r.value[|acc| + 1..];
      assert r.value[|acc|..][1..] == r.value[|acc + [k]|..];
      assert ts[p - pos] == Word(",") && ts[p - pos + 1..] == toks[p + 1..r.pos] && ts[..p - pos] == toks[pos..p];
    } else {
      assert r.value[|acc|..] == [k];
    }
  }

  lemma SelectSpelled(toks: seq<Tok>, pos: nat)
    requires SelectAt(toks, pos).Parsed?
    ensures var r := SelectAt(toks, pos); pos < r.pos <= |toks| && SpellsSelect(toks[pos..r.pos], r.value)
  {
    hide AggsAt, NamesAt, SpellsAggs, SpellsName, IsName;
    if IsWord(toks, pos, "*") {
      assert toks[pos..pos + 1] == [Word("*")];
    } else if IsName(toks, pos) && IsWord(toks, pos + 1, "(") {
      AggsSpelled(toks, pos, []);
    } else {
      NamesSpelled(toks, pos, []);
      var r := NamesAt(toks, pos, []);
      assert toks[pos..r.pos][0] == toks[pos];
      NameIs(toks[pos], r.value[0]);
    }
  }

  lemma WhereSpelled(toks: seq<Tok>, pos: nat)
    requires pos <= |toks| && WhereAt(toks, pos).Parsed?
    ensures var r := WhereAt(toks, pos); pos <= r.pos <= |toks| && SpellsWhere(toks[pos..r.pos], r.value)
  {
    hide PredicateAt, SpellsChain, Lower;
    if IsKw(toks, pos, "where") {
      PredicateSpelled(toks, pos + 1);
      var r := WhereAt(toks, pos);
      assert toks[pos..r.pos][1..] == toks[pos + 1..r.pos];
    }
  }

  lemma GroupSpelled(toks: seq<Tok>, pos: nat)
    requires pos <= |toks| && GroupAt(toks, pos).Parsed?
    ensures var r := GroupAt(toks, pos); pos <= r.pos <= |toks| && SpellsGroup(toks[pos..r.pos], r.value)
  {
    hide NamesAt, SpellsNames, Lower;
    if IsKw(toks, pos, "group") {
      NamesSpelled(toks, pos + 2, []);
      var r := GroupAt(toks, pos);
      assert toks[pos..r.pos][2..] == toks[pos + 2..r.pos] && r.value[0..] == r.value;
    }
  }

  lemma OrderSpelled(toks: seq<Tok>, pos: nat)
    requires pos <= |toks| && OrderAt(toks, pos).Parsed?
    ensures var r := OrderAt(toks, pos); pos <= r.pos <= |toks| && SpellsOrder(toks[pos..r.pos], r.value)
  {
    hide KeysAt, SpellsKeys, Lower;
    if IsKw(toks, pos, "order") {
      KeysSpelled(toks, pos + 2, []);
      var r := OrderAt(toks, pos);
      assert toks[pos..r.pos][2..] == toks[pos + 2..r.pos] && r.value[0..] == r.value;
    }
  }

  lemma LimitSpelled(toks: seq<Tok>, pos: nat)
    requires pos <= |toks| && LimitAt(toks, pos).Parsed?
    ensures var r := LimitAt(toks, pos); pos <= r.pos <= |toks| && SpellsLimit(toks[pos..r.pos], r.value)
  {
    hide Lower, ParseUsize, IsName, SpellsName;
    if IsKw(toks, pos, "limit") {
      NameRead(toks, pos + 1);
      assert toks[pos..pos + 2][0] == toks[pos] && toks[pos..pos + 2][1] == toks[pos + 1];
    }
  }

  lemma ClausesSpelled(toks: seq<Tok>, pos: nat, select: SelectList) returns (parts: Parts)
    requires ClausesAt(toks, pos, select).Parsed? && ClausesAt(toks, pos, select).pos >= |toks|
    ensures var q := ClausesAt(toks, pos, select).value;
      && SelectOf(q) == select && (q.projection.Some? ==> q.aggregates == [])
      && pos < |toks| && SpellsName(toks[pos], q.dataset)
      && toks[pos + 1..] == parts.where + (parts.group + (parts.order + parts.limit))
      && SpellsWhere(parts.where, q.predicate_) && SpellsGroup(parts.group, q.groupBy)
      && SpellsOrder(parts.order, q.orderBy) && SpellsLimit(parts.limit, q.limit)
  {
    hide WhereAt, GroupAt, OrderAt, LimitAt, SpellsName, IsName, SpellsWhere, SpellsGroup, SpellsOrder, SpellsLimit;
    NameRead(toks, pos);
    var w := WhereAt(toks, pos + 1);
    WhereSpelled(toks, pos + 1);
    var g := GroupAt(toks, w.pos);
    GroupSpelled(toks, w.pos);
    var o := OrderAt(toks, g.pos);
    OrderSpelled(toks, g.pos);
    var l := LimitAt(toks, o.pos);
    LimitSpelled(toks, o.pos);
    parts := Parts([], toks[pos + 1..w.pos], toks[w.pos..g.pos], toks[g.pos..o.pos], toks[o.pos..l.pos]);
  }

  lemma QuerySpelled(toks: seq<Tok>)
    requires ParseTokens(toks).Some?
    ensures Spells(toks, ParseTokens(toks).value)
  {
    hide SelectAt, ClausesAt, SpellsSelect, SpellsWhere, SpellsGroup, SpellsOrder, SpellsLimit, SpellsName, Lower;
    hide Query.Valid;
    var select := SelectAt(toks, 1);
    SelectSpelled(toks, 1);
    var q := ParseTokens(toks).value;
    var parts := ClausesSpelled(toks, select.pos + 1, select.value);
    parts := parts.(select := toks[1..select.pos]);
    assert SpellsQuery(toks, parts, q);
  }

  // ----- main results -----

  /** The parser accepts exactly the spellings, and each spells one query. */
  lemma ParserIsGrammar(toks: seq<Tok>, q: Query)
    ensures ParseTokens(toks) == Some(q) <==> Spells(toks, q)
  {
    hide ParseTokens, SpellsQuery;
    if ParseTokens(toks) == Some(q) {
      QuerySpelled(toks);
    } else if parts :| SpellsQuery(toks, parts, q) {
      QueryRead(toks, parts, q);
    }
  }

  /** What text parses to: it is a way of writing tokens that spell the query. */
  lemma ParseMeans(input: string, q: Query)
    ensures Parse(input) == Some(q) <==> exists toks :: Written(input, toks) && Spells(toks, q)
  {
    hide Lex, ParseTokens, Written, Spells;
    if Parse(input) == Some(q) {
      var toks := Lex(input).value;
      LexerIsLayout(input, toks);
      ParserIsGrammar(toks, q);
    }
    if toks :| Written(input, toks) && Spells(toks, q) {
      LexerIsLayout(input, toks);
      ParserIsGrammar(toks, q);
    }
  }
}
