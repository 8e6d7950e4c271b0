// The recursive-descent parser: an object with a position into its tokens, each method proved to
// compute the grammar function of the same name.
module Parser {
  import opened Prelude
  import opened Numerals
  import opened JsonModel
  import opened QueryModel
  import opened Lexer

  datatype Parsed<+T> = Parsed(value: T, pos: nat) | Reject

  datatype SelectList = Aggregates(aggs: seq<Agg>) | Projection(columns: seq<string>)

  predicate IsOperator(w: string) {
    w == "=" || w == "!=" || w == "<>" || w == "<" || w == "<=" || w == ">" || w == ">=" || w == "," || w == "("
    || w == ")"
  }

  /** The token at `pos` is the word `w`. */
  predicate IsWord(toks: seq<Tok>, pos: nat, w: string) {
    pos < |toks| && toks[pos] == Word(w)
  }

  /** The token at `pos` is the keyword `kw`, given in lower case, in any case. */
  predicate IsKw(toks: seq<Tok>, pos: nat, kw: string) {
    pos < |toks| && toks[pos].Word? && Lower(toks[pos].w) == kw
  }

  /** A bare word at `pos`: not a string, not an operator. */
  predicate IsName(toks: seq<Tok>, pos: nat) {
    pos < |toks| && toks[pos].Word? && !IsOperator(toks[pos].w)
  }

  // ----- the grammar -----

  /** `literal_from_word`. */
  function LiteralFromWord(w: string): Json {
    var l := Lower(w);
    if l == "true" then Bool(true)
    else if l == "false" then Bool(false)
    else if l == "null" then Null
    else match ParseI64(w)
      case Some(i) => Number(Int(i))
      case None =>
        match ParseF64(w)
        case Some(Finite(r)) => Number(Float(r))
        case Some(_) => Null
        case None => String(w)
  }

  function LiteralAt(toks: seq<Tok>, pos: nat): Parsed<Json> {
    if pos >= |toks| then Reject
    else
      match toks[pos]
      case Str(s) => Parsed(String(s), pos + 1)
      case Word(w) => Parsed(LiteralFromWord(w), pos + 1)
  }

  function OpOf(w: string): Option<CmpOp> {
    if w == "=" then Some(Eq)
    else if w == "!=" || w == "<>" then Some(Ne)
    else if w == "<" then Some(Lt)
    else if w == "<=" then Some(Le)
    else if w == ">" then Some(Gt)
    else if w == ">=" then Some(Ge)
    else None
  }

  function OpAt(toks: seq<Tok>, pos: nat): Parsed<CmpOp> {
    if pos < |toks| && toks[pos].Word? && OpOf(toks[pos].w).Some?
    then Parsed(OpOf(toks[pos].w).value, pos + 1) else Reject
  }

  /** `[NOT] col <op> <literal>`. */
  function TermAt(toks: seq<Tok>, pos: nat): Parsed<Predicate> {
    var at := if IsKw(toks, pos, "not") then pos + 1 else pos;
    if !IsName(toks, at) then Reject
    else
      match OpAt(toks, at + 1)
      case Reject => Reject
      case Parsed(op, p) =>
        match LiteralAt(toks, p)
        case Reject => Reject
        case Parsed(v, p') =>
          var cmp := Cmp(toks[at].w, op, v);
          Parsed(if at == pos then cmp else Not(cmp), p')
  }

  /** Further AND/OR terms, each applied to everything before it. */
  function ChainAt(toks: seq<Tok>, pos: nat, left: Predicate): Parsed<Predicate>
    decreases |toks| - pos
  {
    if IsKw(toks, pos, "and") then
      match TermAt(toks, pos + 1)
      case Reject => Reject
      case Parsed(t, p) => if p <= pos then Reject else ChainAt(toks, p, And(left, t))
    else if IsKw(toks, pos, "or") then
      match TermAt(toks, pos + 1)
      case Reject => Reject
      case Parsed(t, p) => if p <= pos then Reject else ChainAt(toks, p, Or(left, t))
    else Parsed(left, pos)
  }

  function PredicateAt(toks: seq<Tok>, pos: nat): Parsed<Predicate> {
    match TermAt(toks, pos)
    case Reject => Reject
    case Parsed(t, p) => ChainAt(toks, p, t)
  }

  /** Comma-separated names, appended to `acc`. */
  function NamesAt(toks: seq<Tok>, pos: nat, acc: seq<string>): Parsed<seq<string>>
    decreases |toks| - pos
  {
    if !IsName(toks, pos) then Reject
    else if IsWord(toks, pos + 1, ",") then NamesAt(toks, pos + 2, acc + [toks[pos].w])
    else Parsed(acc + [toks[pos].w], pos + 1)
  }

  function AggOf(func: string, arg: string): Option<Agg> {
    var f := Lower(func);
    if f == "count" then Some(Agg.Count)
    else if arg == "*" then None
    else if f == "sum" then Some(Agg.Sum(arg))
    else if f == "min" then Some(Agg.Min(arg))
    else if f == "max" then Some(Agg.Max(arg))
    else if f == "avg" then Some(Agg.Avg(arg))
    else None
  }

  /** `FUNC(arg)`, where the argument may be any word. */
  function AggAt(toks: seq<Tok>, pos: nat): Parsed<Agg> {
    if IsName(toks, pos) && IsWord(toks, pos + 1, "(") && pos + 2 < |toks| && toks[pos + 2].Word?
       && IsWord(toks, pos + 3, ")") && AggOf(toks[pos].w, toks[pos + 2].w).Some?
    then Parsed(AggOf(toks[pos].w, toks[pos + 2].w).value, pos + 4) else Reject
  }

  function AggsAt(toks: seq<Tok>, pos: nat, acc: seq<Agg>): Parsed<seq<Agg>>
    decreases |toks| - pos
  {
    match AggAt(toks, pos)
    case Reject => Reject
    case Parsed(a, p) =>
      if IsWord(toks, p, ",") then AggsAt(toks, p + 1, acc + [a]) else Parsed(acc + [a], p)
  }

  function SelectAt(toks: seq<Tok>, pos: nat): Parsed<SelectList> {
    if IsWord(toks, pos, "*") then Parsed(Projection([]), pos + 1)
    else if IsName(toks, pos) && IsWord(toks, pos + 1, "(") then
      match AggsAt(toks, pos, [])
      case Reject => Reject
      case Parsed(aggs, p) => Parsed(Aggregates(aggs), p)
    else
      match NamesAt(toks, pos, [])
      case Reject => Reject
      case Parsed(cols, p) => Parsed(Projection(cols), p)
  }

  function DirAt(toks: seq<Tok>, pos: nat): (OrderDir, nat) {
    if IsKw(toks, pos, "asc") then (Asc, pos + 1)
    else if IsKw(toks, pos, "desc") then (Desc, pos + 1)
    else (Asc, pos)
  }

  function KeysAt(toks: seq<Tok>, pos: nat, acc: seq<OrderKey>): Parsed<seq<OrderKey>>
    decreases |toks| - pos
  {
    if !IsName(toks, pos) then Reject
    else
      var (dir, p) := DirAt(toks, pos + 1);
      var acc' := acc + [OrderKey(toks[pos].w, dir)];
      if IsWord(toks, p, ",") then KeysAt(toks, p + 1, acc') else Parsed(acc', p)
  }

  function WhereAt(toks: seq<Tok>, pos: nat): Parsed<Predicate> {
    if IsKw(toks, pos, "where") then PredicateAt(toks, pos + 1) else Parsed(True, pos)
  }

  function GroupAt(toks: seq<Tok>, pos: nat): Parsed<seq<string>> {
    if !IsKw(toks, pos, "group") then Parsed([], pos)
    else if !IsKw(toks, pos + 1, "by") then Reject
    else NamesAt(toks, pos + 2, [])
  }

  function OrderAt(toks: seq<Tok>, pos: nat): Parsed<seq<OrderKey>> {
    if !IsKw(toks, pos, "order") then Parsed([], pos)
    else if !IsKw(toks, pos + 1, "by") then Reject
    else KeysAt(toks, pos + 2, [])
  }

  function LimitAt(toks: seq<Tok>, pos: nat): Parsed<Option<nat>> {
    if !IsKw(toks, pos, "limit") then Parsed(None, pos)
    else if !IsName(toks, pos + 1) then Reject
    else
      match ParseUsize(toks[pos + 1].w)
      case None => Reject
      case Some(n) => Parsed(Some(n), pos + 2)
  }

  function Assembled(select: SelectList, dataset: string, predicate_: Predicate, groupBy: seq<string>,
                     orderBy: seq<OrderKey>, limit: Option<nat>): Option<Query> {
    match select
    case Aggregates(aggs) => Some(Query(dataset, aggs, predicate_, groupBy, orderBy, limit, None))
    case Projection(cols) =>
      if groupBy != [] then None
      else Some(Query(dataset, [], predicate_, [], orderBy, limit, Some(cols)))
  }

  /** Everything after the select list and FROM. */
  function ClausesAt(toks: seq<Tok>, pos: nat, select: SelectList): Parsed<Query> {
    if !IsName(toks, pos) then Reject
    else
      match WhereAt(toks, pos + 1)
      case Reject => Reject
      case Parsed(pred, p1) =>
        match GroupAt(toks, p1)
        case Reject => Reject
        case Parsed(groupBy, p2) =>
          match OrderAt(toks, p2)
          case Reject => Reject
          case Parsed(orderBy, p3) =>
            match LimitAt(toks, p3)
            case Reject => Reject
            case Parsed(limit, p4) =>
              match Assembled(select, toks[pos].w, pred, groupBy, orderBy, limit)
              case None => Reject
              case Some(q) => Parsed(q, p4)
  }

  function QueryAt(toks: seq<Tok>, pos: nat): Parsed<Query> {
    if !IsKw(toks, pos, "select") then Reject
    else
      match SelectAt(toks, pos + 1)
      case Reject => Reject
      case Parsed(select, p) =>
        if IsKw(toks, p, "from") then ClausesAt(toks, p + 1, select) else Reject
  }

  function ParseTokens(toks: seq<Tok>): Option<Query> {
    match QueryAt(toks, 0)
    case Reject => None
    case Parsed(q, p) => if p >= |toks| && q.Valid() then Some(q) else None
  }

  /** `parse`: tokenize, parse, demand the end of input, validate. */
  function Parse(input: string): Option<Query> {
    match Lex(input)
    case None => None
    case Some(toks) => ParseTokens(toks)
  }

  /** A method's result and the new position are what the grammar function says. */
  ghost predicate Agrees<T>(r: Option<T>, pos: nat, spec: Parsed<T>) {
    match spec
    case Reject => r == None
    case Parsed(v, p) => r == Some(v) && pos == p
  }

  // ----- the parser object -----

  class TokenParser {
    const tokens: seq<Tok>
    var pos: nat

    constructor (tokens: seq<Tok>)
      ensures this.tokens == tokens && pos == 0
    {
      this.tokens, pos := tokens, 0;
    }

    /** Consume and return the current token. */
    method NextTok() returns (t: Option<Tok>)
      modifies this
      ensures old(pos) < |tokens| ==> t == Some(tokens[old(pos)]) && pos == old(pos) + 1
      ensures old(pos) >= |tokens| ==> t == None && pos == old(pos)
    {
      if pos < |tokens| {
        t := Some(tokens[pos]);
        pos := pos + 1;
      } else {
        t := None;
      }
    }

    method ExpectKw(kw: string) returns (ok: bool)
      modifies this
      ensures ok == IsKw(tokens, old(pos), kw)
      ensures ok ==> pos == old(pos) + 1
    {
      var t := NextTok();
      ok := t.Some? && t.value.Word? && Lower(t.value.w) == kw;
    }

    method ExpectWord(w: string) returns (ok: bool)
      modifies this
      ensures ok == IsWord(tokens, old(pos), w)
      ensures ok ==> pos == old(pos) + 1
    {
      var t := NextTok();
      ok := t == Some(Word(w));
    }

    method NextWord() returns (w: Option<string>)
      modifies this
      ensures w.Some? <==> IsName(tokens, old(pos))
      ensures w.Some? ==> w.value == tokens[old(pos)].w && pos == old(pos) + 1
      ensures w.None? ==> pos == old(pos)
    {
      if IsName(tokens, pos) {
        w := Some(tokens[pos].w);
        pos := pos + 1;
      } else {
        w := None;
      }
    }

    method ParseLiteral() returns (r: Option<Json>)
      modifies this
      ensures Agrees(r, pos, LiteralAt(tokens, old(pos)))
    {
      var t := NextTok();
      match t
      case None => r := None;
      case Some(Str(s)) => r := Some(String(s));
      case Some(Word(w)) => r := Some(LiteralFromWord(w));
    }

    method ParseOp() returns (r: Option<CmpOp>)
      modifies this
      ensures Agrees(r, pos, OpAt(tokens, old(pos)))
    {
      var t := NextTok();
      r := if t.Some? && t.value.Word? then OpOf(t.value.w) else None;
    }

    method ParseTerm() returns (r: Option<Predicate>)
      modifies this
      ensures Agrees(r, pos, TermAt(tokens, old(pos)))
      ensures r.Some? ==> pos > old(pos)
    {
      var negate := IsKw(tokens, pos, "not");
      if negate { var _ := ExpectKw("not"); }
      var field := NextWord();
      if field.None? { return None; }
      var op := ParseOp();
      if op.None? { return None; }
      var value := ParseLiteral();
      if value.None? { return None; }
      var cmp := Cmp(field.value, op.value, value.value);
      r := Some(if negate then Not(cmp) else cmp);
    }

    method ParsePredicate() returns (r: Option<Predicate>)
      modifies this
      ensures Agrees(r, pos, PredicateAt(tokens, old(pos)))
    {
      hide TermAt;
      var first := ParseTerm();
      if first.None? { return None; }
      var left := first.value;
      while true
        invariant PredicateAt(tokens, old(pos)) == ChainAt(tokens, pos, left)
        decreases |tokens| - pos
      {
        if IsKw(tokens, pos, "and") {
          var _ := ExpectKw("and");
          var right := ParseTerm();
          if right.None? { return None; }
          left := And(left, right.value);
        } else if IsKw(tokens, pos, "or") {
          var _ := ExpectKw("or");
          var right := ParseTerm();
          if right.None? { return None; }
          left := Or(left, right.value);
        } else {
          break;
        }
      }
      r := Some(left);
    }

    method ParseNames() returns (r: Option<seq<string>>)
      modifies this
      ensures Agrees(r, pos, NamesAt(tokens, old(pos), []))
    {
      var cols: seq<string> := [];
      while true
        invariant NamesAt(tokens, old(pos), []) == NamesAt(tokens, pos, cols)
        decreases |tokens| - pos
      {
        var col := NextWord();
        if col.None? { return None; }
        cols := cols + [col.value];
        if IsWord(tokens, pos, ",") {
          pos := pos + 1;
        } else {
          break;
        }
      }
      r := Some(cols);
    }

    method ParseAgg() returns (r: Option<Agg>)
      modifies this
      ensures Agrees(r, pos, AggAt(tokens, old(pos)))
      ensures r.Some? ==> pos > old(pos)
    {
      var func := NextWord();
      if func.None? { return None; }
      var open := ExpectWord("(");
      if !open { return None; }
      var arg := NextTok();
      if arg.None? || arg.value.Str? { return None; }
      var close := ExpectWord(")");
      if !close { return None; }
      r := AggOf(func.value, arg.value.w);
    }

    method ParseAggList() returns (r: Option<seq<Agg>>)
      modifies this
      ensures Agrees(r, pos, AggsAt(tokens, old(pos), []))
    {
      hide AggAt;
      var aggs: seq<Agg> := [];
      while true
        invariant AggsAt(tokens, old(pos), []) == AggsAt(tokens, pos, aggs)
        decreases |tokens| - pos
      {
        var agg := ParseAgg();
        if agg.None? { return None; }
        aggs := aggs + [agg.value];
        if IsWord(tokens, pos, ",") {
          pos := pos + 1;
        } else {
          break;
        }
      }
      r := Some(aggs);
    }

    method ParseSelectList() returns (r: Option<SelectList>)
      modifies this
      ensures Agrees(r, pos, SelectAt(tokens, old(pos)))
    {
      hide AggsAt, NamesAt;
      if IsWord(tokens, pos, "*") {
        pos := pos + 1;
        return Some(Projection([]));
      }
      if IsName(tokens, pos) && IsWord(tokens, pos + 1, "(") {
        var aggs := ParseAggList();
        return if aggs.None? then None else Some(Aggregates(aggs.value));
      }
      var cols := ParseNames();
      r := if cols.None? then None else Some(Projection(cols.value));
    }

    /** The optional direction of one ORDER BY key. */
    method ParseDir() returns (dir: OrderDir)
      modifies this
      ensures (dir, pos) == DirAt(tokens, old(pos)) && pos >= old(pos)
    {
      dir := Asc;
      if IsKw(tokens, pos, "asc") {
        var _ := ExpectKw("asc");
      } else if IsKw(tokens, pos, "desc") {
        var _ := ExpectKw("desc");
        dir := Desc;
      }
    }

    method ParseOrderBy() returns (r: Option<seq<OrderKey>>)
      requires IsKw(tokens, pos, "order")
      modifies this
      ensures Agrees(r, pos, OrderAt(tokens, old(pos)))
    {
      hide DirAt;
      var _ := ExpectKw("order");
      var hasBy := ExpectKw("by");
      if !hasBy { return None; }
      var keys: seq<OrderKey> := [];
      while true
        invariant OrderAt(tokens, old(pos)) == KeysAt(tokens, pos, keys)
        decreases |tokens| - pos
      {
        var column := NextWord();
        if column.None? { return None; }
        var dir := ParseDir();
        keys := keys + [OrderKey(column.value, dir)];
        if IsWord(tokens, pos, ",") {
          pos := pos + 1;
        } else {
          break;
        }
      }
      r := Some(keys);
    }

    method ParseLimit() returns (r: Option<nat>)
      requires IsKw(tokens, pos, "limit")
      modifies this
      ensures LimitAt(tokens, old(pos)) == if r.None? then Reject else Parsed(r, pos)
    {
      var _ := ExpectKw("limit");
      var w := NextWord();
      if w.None? { return None; }
      r := ParseUsize(w.value);
    }

    method ParseQuery() returns (r: Option<Query>)
      modifies this
      ensures Agrees(r, pos, QueryAt(tokens, old(pos)))
    {
      hide SelectAt, ClausesAt;
      var select_ := ExpectKw("select");
      if !select_ { return None; }
      var select := ParseSelectList();
      if select.None? { return None; }
      var from_ := ExpectKw("from");
      if !from_ { return None; }
      r := ParseClauses(select.value);
    }

    method ParseWhere() returns (r: Option<Predicate>)
      modifies this
      ensures Agrees(r, pos, WhereAt(tokens, old(pos)))
    {
      hide PredicateAt;
      if !IsKw(tokens, pos, "where") { return Some(True); }
      var _ := ExpectKw("where");
      r := ParsePredicate();
    }

    method ParseGroupBy() returns (r: Option<seq<string>>)
      modifies this
      ensures Agrees(r, pos, GroupAt(tokens, old(pos)))
    {
      hide NamesAt;
      if !IsKw(tokens, pos, "group") { return Some([]); }
      var _ := ExpectKw("group");
      var hasBy := ExpectKw("by");
      if !hasBy { return None; }
      r := ParseNames();
    }

    method ParseClauses(select: SelectList) returns (r: Option<Query>)
      modifies this
      ensures Agrees(r, pos, ClausesAt(tokens, old(pos), select))
    {
      hide WhereAt, GroupAt, KeysAt, ParseUsize, Assembled;
      var dataset := NextWord();
      if dataset.None? { return None; }
      var pred := ParseWhere();
      if pred.None? { return None; }
      var groupBy := ParseGroupBy();
      if groupBy.None? { return None; }
      var orderBy: seq<OrderKey> := [];
      if IsKw(tokens, pos, "order") {
        var keys := ParseOrderBy();
        if keys.None? { return None; }
        orderBy := keys.value;
      }
      var limit: Option<nat> := None;
      if IsKw(tokens, pos, "limit") {
        limit := ParseLimit();
        if limit.None? { return None; }
      }
      r := Assembled(select, dataset.value, pred.value, groupBy.value, orderBy, limit);
    }
  }

  /** `parse`. */
  method ParseSql(input: string) returns (r: Option<Query>)
    ensures r == Parse(input)
  {
    hide Lex, QueryAt;
    var toks := Tokenize(input);
    if toks.None? { return None; }
    var p := new TokenParser(toks.value);
    var q := p.ParseQuery();
    if q.None? || p.pos < |p.tokens| || !q.value.Valid() { return None; }
    r := q;
  }
}
