// The parser and a canonical printer are inverse: every accepted query is in normal form, every
// normal form prints to text that parses back to it.
module SqlRoundTrip {
  import opened Prelude
  import opened Numerals
  import opened JsonModel
  import opened QueryModel
  import opened Lexer
  import opened Planning
  import opened Parser
  import opened Grammar

  // ----- normal forms -----

  /** A word the parser takes as a name. */
  predicate Name(w: string) {
    Clean(Word(w)) && !IsOperator(w)
  }

  predicate AllNames(ws: seq<string>) {
    forall i :: 0 <= i < |ws| ==> Name(ws[i])
  }

  /** A value with a finite decimal expansion. */
  ghost predicate Decimal(r: real) {
    exists m: int, k: nat :: IsDecimal(r, m, k)
  }

  ghost predicate IsDecimal(r: real, m: int, k: nat) {
    r == m as real / Pow10(k)
  }

  ghost predicate NormalLiteral(v: Json) {
    match v
    case Null => true
    case Bool(_) => true
    case Number(Int(i)) => I64_MIN <= i <= I64_MAX
    case Number(Float(r)) => Decimal(r)
    case String(s) => Quotable(s)
    case Array(_) => false
    case Object(_) => false
  }

  ghost predicate NormalCmp(p: Predicate) {
    p.Cmp? && Name(p.field) && NormalLiteral(p.value)
  }

  /** A comparison, negated or not; an unnegated one cannot be on a column called NOT. */
  ghost predicate NormalTerm(p: Predicate) {
    (NormalCmp(p) && Lower(p.field) != "not") || (p.Not? && NormalCmp(p.inner))
  }

  /** A left-leaning AND/OR chain of terms. */
  ghost predicate LeftChain(p: Predicate) {
    match p
    case And(l, r) => LeftChain(l) && NormalTerm(r)
    case Or(l, r) => LeftChain(l) && NormalTerm(r)
    case _ => NormalTerm(p)
  }

  predicate NormalAgg(a: Agg) {
    a.Count? || (Clean(Word(a.field)) && a.field != "*")
  }

  ghost predicate NormalSelect(q: Query) {
    match q.projection
    case None => q.aggregates != [] && forall i :: 0 <= i < |q.aggregates| ==> NormalAgg(q.aggregates[i])
    case Some(cols) =>
      && q.aggregates == [] && q.groupBy == []
      && AllNames(cols) && (cols != [] ==> cols[0] != "*")
  }

  ghost predicate Normal(q: Query) {
    && q.Valid()
    && Name(q.dataset)
    && NormalSelect(q)
    && (q.predicate_ == True || LeftChain(q.predicate_))
    && AllNames(q.groupBy)
    && (forall i :: 0 <= i < |q.orderBy| ==> Name(q.orderBy[i].column))
    && (q.limit.Some? ==> q.limit.value <= U64_MAX)
  }

  // ----- the printer -----

  /** A decimal value written with an explicit exponent. */
  ghost function ShowReal(r: real): string
    requires Decimal(r)
  {
    var m: int, k: nat :| IsDecimal(r, m, k);
    ShowFloat(m, k)
  }

  ghost function PrintLiteral(v: Json): Tok
    requires NormalLiteral(v)
  {
    match v
    case Null => Word("null")
    case Bool(b) => Word(if b then "true" else "false")
    case Number(Int(i)) => Word(ShowInt(i))
    case Number(Float(r)) => Word(ShowReal(r))
    case String(s) => Str(s)
  }

  function PrintOp(op: CmpOp): string {
    match op
    case Eq => "="
    case Ne => "!="
    case Lt => "<"
    case Le => "<="
    case Gt => ">"
    case Ge => ">="
  }

  ghost function PrintCmp(p: Predicate): seq<Tok>
    requires NormalCmp(p)
  {
    [Word(p.field), Word(PrintOp(p.op)), PrintLiteral(p.value)]
  }

  ghost function PrintTerm(p: Predicate): seq<Tok>
    requires NormalTerm(p)
  {
    if p.Not? then [Word("not")] + PrintCmp(p.inner) else PrintCmp(p)
  }

  ghost function PrintChain(p: Predicate): seq<Tok>
    requires LeftChain(p)
  {
    match p
    case And(l, r) => PrintChain(l) + ([Word("and")] + PrintTerm(r))
    case Or(l, r) => PrintChain(l) + ([Word("or")] + PrintTerm(r))
    case _ => PrintTerm(p)
  }

  function PrintNames(ws: seq<string>): seq<Tok>
    requires ws != []
  {
    if |ws| == 1 then [Word(ws[0])] else [Word(ws[0]), Word(",")] + PrintNames(ws[1..])
  }

  function PrintAgg(a: Agg): seq<Tok> {
    match a
    case Count => [Word("count"), Word("("), Word("*"), Word(")")]
    case Sum(f) => [Word("sum"), Word("("), Word(f), Word(")")]
    case Min(f) => [Word("min"), Word("("), Word(f), Word(")")]
    case Max(f) => [Word("max"), Word("("), Word(f), Word(")")]
    case Avg(f) => [Word("avg"), Word("("), Word(f), Word(")")]
  }

  function PrintAggs(aggs: seq<Agg>): seq<Tok>
    requires aggs != []
  {
    if |aggs| == 1 then PrintAgg(aggs[0]) else PrintAgg(aggs[0]) + ([Word(",")] + PrintAggs(aggs[1..]))
  }

  function PrintKey(k: OrderKey): seq<Tok> {
    [Word(k.column), Word(if k.dir == Asc then "asc" else "desc")]
  }

  function PrintKeys(keys: seq<OrderKey>): seq<Tok>
    requires keys != []
  {
    if |keys| == 1 then PrintKey(keys[0]) else PrintKey(keys[0]) + ([Word(",")] + PrintKeys(keys[1..]))
  }

  function PrintSelect(q: Query): seq<Tok> {
    if q.projection.None? then if q.aggregates == [] then [] else PrintAggs(q.aggregates)
    else if q.projection.value == [] then [Word("*")]
    else PrintNames(q.projection.value)
  }

  ghost function PrintWhere(p: Predicate): seq<Tok>
    requires p == True || LeftChain(p)
  {
    if p == True then [] else [Word("where")] + PrintChain(p)
  }

  function PrintGroup(cols: seq<string>): seq<Tok> {
    if cols == [] then [] else [Word("group"), Word("by")] + PrintNames(cols)
  }

  function PrintOrder(keys: seq<OrderKey>): seq<Tok> {
    if keys == [] then [] else [Word("order"), Word("by")] + PrintKeys(keys)
  }

  function PrintLimit(limit: Option<nat>): seq<Tok> {
    if limit.None? then [] else [Word("limit"), Word(ShowNat(limit.value))]
  }

  ghost function PrintClauses(q: Query): seq<Tok>
    requires Normal(q)
  {
    [Word(q.dataset)]
    + (PrintWhere(q.predicate_) + (PrintGroup(q.groupBy) + (PrintOrder(q.orderBy) + PrintLimit(q.limit))))
  }

  ghost function PrintTokens(q: Query): seq<Tok>
    requires Normal(q)
  {
    [Word("select")] + (PrintSelect(q) + ([Word("from")] + PrintClauses(q)))
  }

  ghost function Print(q: Query): string
    requires Normal(q)
  {
    Render(PrintTokens(q))
  }

  // ----- the printer spells -----

  /** The words the printer writes of its own, all in lower case. */
  predicate Keyword(w: string) {
    || w == "select" || w == "from" || w == "where" || w == "and" || w == "or" || w == "not"
    || w == "group" || w == "by" || w == "order" || w == "limit" || w == "asc" || w == "desc"
    || w == "count" || w == "sum" || w == "min" || w == "max" || w == "avg"
    || w == "true" || w == "false" || w == "null"
  }

  lemma KeywordLetters(w: string)
    requires Keyword(w)
    ensures w != "" && forall i :: 0 <= i < |w| ==> 'a' <= w[i] <= 'z'
  {}

  lemma LowerKeyword(w: string)
    requires Keyword(w)
    ensures Lower(w) == w
  {
    hide Keyword;
    KeywordLetters(w);
    assert forall i :: 0 <= i < |w| ==> LowerChar(w[i]) == w[i];
  }

  lemma SpelledKw(w: string)
    requires Keyword(w)
    ensures SpellsKw(Word(w), w)
  {
    hide Keyword;
    LowerKeyword(w);
  }

  lemma LiteralBack(v: Json)
    requires NormalLiteral(v) && !v.String?
    ensures PrintLiteral(v).Word? && LiteralFromWord(PrintLiteral(v).w) == v
  {
    match v
    case Null => LowerKeyword("null");
    case Bool(b) => LowerKeyword(if b then "true" else "false");
    case Number(Int(i)) => IntBack(i);
    case Number(Float(r)) => RealBack(r);
  }

  lemma IntBack(i: int)
    requires I64_MIN <= i <= I64_MAX
    ensures LiteralFromWord(ShowInt(i)) == Number(Int(i))
  {
    ParseShowInt(i);
    ShowIntStart(i);
    NoKeyword(ShowInt(i));
    hide ShowInt, ParseInt, ParseF64;
  }

  lemma FloatBack(w: string, r: real)
    requires ParseF64(w) == Some(Finite(r)) && ParseInt(w) == None
    requires w != "" && (IsDigit(w[0]) || w[0] == '-')
    ensures LiteralFromWord(w) == Number(Float(r))
  {
    hide ParseF64, ParseInt;
    NoKeyword(w);
  }

  lemma RealBack(r: real)
    requires Decimal(r)
    ensures LiteralFromWord(ShowReal(r)) == Number(Float(r))
  {
    hide LiteralFromWord, ParseF64, ParseInt, Pow10, ShowFloat;
    var m: int, k: nat :| IsDecimal(r, m, k) && ShowReal(r) == ShowFloat(m, k);
    ParseShowFloat(m, k);
    ShowFloatIsNoInt(m, k);
    ShowFloatStart(m, k);
    FloatBack(ShowFloat(m, k), r);
  }

  lemma ShowIntStart(i: int)
    ensures ShowInt(i) != "" && (IsDigit(ShowInt(i)[0]) || ShowInt(i)[0] == '-')
  {}

  lemma ShowFloatStart(m: int, k: nat)
    ensures ShowFloat(m, k) != "" && (IsDigit(ShowFloat(m, k)[0]) || ShowFloat(m, k)[0] == '-')
  {}

  lemma NoKeyword(w: string)
    requires w != "" && (IsDigit(w[0]) || w[0] == '-')
    ensures Lower(w) != "true" && Lower(w) != "false" && Lower(w) != "null"
  {
    assert Lower(w)[0] == w[0];
  }

  lemma LiteralPrinted(v: Json)
    requires NormalLiteral(v)
    ensures SpellsLiteral(PrintLiteral(v), v)
  {
    hide LiteralFromWord, SpellsLiteral;
    if v.String? {
      assert PrintLiteral(v) == Str(v.s);
    } else {
      LiteralBack(v);
    }
    LiteralRead([PrintLiteral(v)], 0, v);
  }

  lemma NameSpelled(w: string)
    requires Name(w)
    ensures SpellsName(Word(w), w)
  {}

  lemma CmpPrinted(p: Predicate)
    requires NormalCmp(p)
    ensures SpellsCmp(PrintCmp(p), p)
  {
    hide NormalLiteral, SpellsLiteral, PrintLiteral, Name;
    NameSpelled(p.field);
    LiteralPrinted(p.value);
  }

  lemma TermPrinted(p: Predicate)
    requires NormalTerm(p)
    ensures SpellsTerm(PrintTerm(p), p) && |PrintTerm(p)| == TermLength(p)
  {
    hide NormalLiteral, SpellsLiteral, PrintLiteral, SpellsName, SpellsOp, Name;
    SpelledKw("not");
    CmpPrinted(if p.Not? then p.inner else p);
    if p.Not? { assert PrintTerm(p)[1..] == PrintCmp(p.inner); }
  }

  lemma {:induction false} ChainPrinted(p: Predicate)
    requires LeftChain(p)
    ensures SpellsChain(PrintChain(p), p)
    decreases p, 0
  {
    hide PrintTerm, NormalTerm, SpellsTerm, SpellsKw, TermLength;
    match p
    case And(l, r) => LinkPrinted(l, r, "and");
    case Or(l, r) => LinkPrinted(l, r, "or");
    case _ => TermPrinted(p);
  }

  lemma {:induction false} LinkPrinted(l: Predicate, r: Predicate, kw: string)
    requires LeftChain(l) && NormalTerm(r) && (kw == "and" || kw == "or")
    ensures var ts := PrintChain(l) + ([Word(kw)] + PrintTerm(r));
      SpellsLink(ts, kw, r) && SpellsChain(ts[..|ts| - 1 - TermLength(r)], l)
    decreases l, 1
  {
    hide PrintTerm, NormalTerm, SpellsTerm, SpellsKw, TermLength, SpellsChain, PrintChain, LeftChain;
    SpelledKw(kw);
    TermPrinted(r);
    ChainPrinted(l);
    var ts := PrintChain(l) + ([Word(kw)] + PrintTerm(r));
    var n := |PrintChain(l)|;
    assert ts[..n] == PrintChain(l) && ts[n] == Word(kw) && ts[n + 1..] == PrintTerm(r);
  }

  lemma {:induction false} NamesPrinted(ws: seq<string>)
    requires ws != [] && AllNames(ws)
    ensures SpellsNames(PrintNames(ws), ws)
    decreases |ws|
  {
    hide Name, SpellsName;
    NameSpelled(ws[0]);
    if |ws| > 1 {
      NamesPrinted(ws[1..]);
      assert PrintNames(ws)[2..] == PrintNames(ws[1..]);
    }
  }

  lemma AggPrinted(a: Agg)
    requires NormalAgg(a)
    ensures SpellsAgg(PrintAgg(a), a)
  {
    hide Clean, SpellsKw;
    SpelledKw(PrintAgg(a)[0].w);
  }

  lemma {:induction false} AggsPrinted(aggs: seq<Agg>)
    requires aggs != [] && forall i :: 0 <= i < |aggs| ==> NormalAgg(aggs[i])
    ensures SpellsAggs(PrintAggs(aggs), aggs)
    decreases |aggs|
  {
    hide NormalAgg, SpellsAgg;
    AggPrinted(aggs[0]);
    assert |PrintAgg(aggs[0])| == 4;
    var ts := PrintAggs(aggs);
    assert ts[..4] == PrintAgg(aggs[0]);
    if |aggs| > 1 {
      AggsPrinted(aggs[1..]);
      assert ts[5..] == PrintAggs(aggs[1..]);
    }
  }

  lemma {:induction false} KeysPrinted(keys: seq<OrderKey>)
    requires keys != [] && forall i :: 0 <= i < |keys| ==> Name(keys[i].column)
    ensures SpellsKeys(PrintKeys(keys), keys)
    decreases |keys|
  {
    hide Name, SpellsName, SpellsKw;
    var k, ts := keys[0], PrintKeys(keys);
    NameSpelled(k.column);
    SpelledKw(if k.dir == Asc then "asc" else "desc");
    assert SpellsKey(PrintKey(k), k);
    if |keys| > 1 {
      KeysPrinted(keys[1..]);
      assert ts[..2] == PrintKey(k) && ts[3..] == PrintKeys(keys[1..]);
    }
  }

  lemma SelectPrinted(q: Query)
    requires NormalSelect(q)
    ensures SpellsSelect(PrintSelect(q), SelectOf(q))
  {
    hide PrintAggs, PrintNames, SpellsAggs, SpellsNames, NormalAgg, Name;
    if q.projection.None? { AggsPrinted(q.aggregates); }
    else if q.projection.value != [] { NamesPrinted(q.projection.value); }
  }

  lemma WherePrinted(p: Predicate)
    requires p == True || LeftChain(p)
    ensures SpellsWhere(PrintWhere(p), p)
  {
    hide PrintChain, SpellsChain, LeftChain, SpellsKw;
    SpelledKw("where");
    if p != True {
      ChainPrinted(p);
      assert PrintWhere(p)[1..] == PrintChain(p);
    }
  }

  lemma GroupPrinted(cols: seq<string>)
    requires AllNames(cols)
    ensures SpellsGroup(PrintGroup(cols), cols)
  {
    hide PrintNames, SpellsNames, SpellsKw, AllNames;
    SpelledKw("group");
    SpelledKw("by");
    if cols != [] {
      NamesPrinted(cols);
      assert PrintGroup(cols)[2..] == PrintNames(cols);
    }
  }

  lemma OrderPrinted(keys: seq<OrderKey>)
    requires forall i :: 0 <= i < |keys| ==> Name(keys[i].column)
    ensures SpellsOrder(PrintOrder(keys), keys)
  {
    hide PrintKeys, SpellsKeys, SpellsKw, Name;
    SpelledKw("order");
    SpelledKw("by");
    if keys != [] {
      KeysPrinted(keys);
      assert PrintOrder(keys)[2..] == PrintKeys(keys);
    }
  }

  lemma LimitPrinted(limit: Option<nat>)
    requires limit.Some? ==> limit.value <= U64_MAX
    ensures SpellsLimit(PrintLimit(limit), limit)
  {
    hide SpellsKw, ParseUsize, ShowNat;
    SpelledKw("limit");
    if limit.Some? {
      ParseShowInt(limit.value);
      assert ShowInt(limit.value) == ShowNat(limit.value);
      DigitsAreName(ShowNat(limit.value));
    }
  }

  lemma DigitsAreName(w: string)
    requires w != "" && AllDigits(w)
    ensures SpellsName(Word(w), w)
  {
    assert IsDigit(w[0]);
  }

  lemma QueryPrinted(q: Query)
    requires Normal(q)
    ensures Spells(PrintTokens(q), q)
  {
    hide PrintSelect, PrintWhere, PrintGroup, PrintOrder, PrintLimit, SpellsSelect, SpellsWhere, SpellsGroup;
    hide SpellsOrder, SpellsLimit, SpellsKw, SpellsName, Name, LeftChain, AllNames, Query.Valid;
    SpelledKw("select");
    SpelledKw("from");
    NameSpelled(q.dataset);
    SelectPrinted(q);
    WherePrinted(q.predicate_);
    GroupPrinted(q.groupBy);
    OrderPrinted(q.orderBy);
    LimitPrinted(q.limit);
    var parts := Parts(PrintSelect(q), PrintWhere(q.predicate_), PrintGroup(q.groupBy), PrintOrder(q.orderBy),
                       PrintLimit(q.limit));
    var toks, at := PrintTokens(q), 1 + |parts.select|;
    assert toks[1..at] == parts.select && toks[at] == Word("from") && toks[at + 1] == Word(q.dataset);
    assert toks[at + 2..] == parts.where + (parts.group + (parts.order + parts.limit));
    assert SpellsQuery(toks, parts, q);
  }

  /** Printed tokens parse back to the query. */
  lemma TokensBack(q: Query)
    requires Normal(q)
    ensures ParseTokens(PrintTokens(q)) == Some(q)
  {
    hide ParseTokens, PrintTokens, Normal, Spells;
    QueryPrinted(q);
    ParserIsGrammar(PrintTokens(q), q);
  }

  // ----- printed tokens are clean -----

  lemma KeywordClean(w: string)
    requires Keyword(w)
    ensures Clean(Word(w))
  {
    hide Keyword, Bare;
    KeywordLetters(w);
    LettersBare(w);
  }

  lemma LettersBare(w: string)
    requires w != "" && forall i :: 0 <= i < |w| ==> 'a' <= w[i] <= 'z'
    ensures Bare(w)
  {}

  lemma SymbolsClean()
    ensures Clean(Word(",")) && Clean(Word("(")) && Clean(Word(")")) && Clean(Word("*"))
  {}

  lemma OpClean(op: CmpOp)
    ensures Clean(Word(PrintOp(op)))
  {
    var w := PrintOp(op);
    if |w| == 2 { assert w[..2] == w; }
  }

  lemma CleanConcat(a: seq<Tok>, b: seq<Tok>)
    requires AllClean(a) && AllClean(b)
    ensures AllClean(a + b)
  {}

  lemma CleanPush(t: Tok, a: seq<Tok>)
    requires Clean(t) && AllClean(a)
    ensures AllClean([t] + a)
  {
    hide Clean;
  }

  lemma NameClean(w: string)
    requires Name(w)
    ensures Clean(Word(w))
  {}

  lemma DigitsBare(s: string)
    requires s != "" && forall i :: 0 <= i < |s| ==> IsDigit(s[i]) || s[i] == '-' || s[i] == 'e'
    ensures Bare(s)
  {}

  lemma LiteralClean(v: Json)
    requires NormalLiteral(v)
    ensures Clean(PrintLiteral(v))
  {
    match v
    case Null => KeywordClean("null");
    case Bool(b) => KeywordClean(if b then "true" else "false");
    case Number(Int(i)) => DigitsBare(ShowInt(i));
    case Number(Float(r)) =>
      var m: int, k: nat :| IsDecimal(r, m, k) && ShowReal(r) == ShowFloat(m, k);
      DigitsBare(ShowFloat(m, k));
    case String(_) =>
  }

  lemma CmpClean(p: Predicate)
    requires NormalCmp(p)
    ensures AllClean(PrintCmp(p))
  {
    hide PrintLiteral, NormalLiteral;
    LiteralClean(p.value);
    OpClean(p.op);
  }

  lemma {:induction false} ChainClean(p: Predicate)
    requires LeftChain(p)
    ensures AllClean(PrintChain(p))
  {
    hide PrintTerm, NormalTerm, Clean, AllClean;
    KeywordClean("and");
    KeywordClean("or");
    match p
    case And(l, r) =>
      ChainClean(l);
      TermClean(r);
      CleanPush(Word("and"), PrintTerm(r));
      CleanConcat(PrintChain(l), [Word("and")] + PrintTerm(r));
    case Or(l, r) =>
      ChainClean(l);
      TermClean(r);
      CleanPush(Word("or"), PrintTerm(r));
      CleanConcat(PrintChain(l), [Word("or")] + PrintTerm(r));
    case _ => TermClean(p);
  }

  lemma TermClean(p: Predicate)
    requires NormalTerm(p)
    ensures AllClean(PrintTerm(p))
  {
    KeywordClean("not");
    hide PrintCmp, NormalCmp;
    CmpClean(if p.Not? then p.inner else p);
  }

  lemma {:induction false} NamesClean(ws: seq<string>)
    requires ws != [] && AllNames(ws)
    ensures AllClean(PrintNames(ws))
    decreases |ws|
  {
    SymbolsClean();
    if |ws| > 1 {
      NamesClean(ws[1..]);
      CleanConcat([Word(ws[0]), Word(",")], PrintNames(ws[1..]));
    }
  }

  lemma {:induction false} AggsClean(aggs: seq<Agg>)
    requires aggs != [] && forall i :: 0 <= i < |aggs| ==> NormalAgg(aggs[i])
    ensures AllClean(PrintAggs(aggs))
    decreases |aggs|
  {
    SymbolsClean();
    AggClean(aggs[0]);
    if |aggs| > 1 {
      AggsClean(aggs[1..]);
      CleanConcat([Word(",")], PrintAggs(aggs[1..]));
      CleanConcat(PrintAgg(aggs[0]), [Word(",")] + PrintAggs(aggs[1..]));
    }
  }

  lemma AggClean(a: Agg)
    requires NormalAgg(a)
    ensures AllClean(PrintAgg(a))
  {
    SymbolsClean();
    KeywordClean("count"); KeywordClean("sum"); KeywordClean("min"); KeywordClean("max"); KeywordClean("avg");
  }

  lemma {:induction false} KeysClean(keys: seq<OrderKey>)
    requires keys != [] && forall i :: 0 <= i < |keys| ==> Name(keys[i].column)
    ensures AllClean(PrintKeys(keys))
    decreases |keys|
  {
    SymbolsClean();
    KeywordClean("asc"); KeywordClean("desc");
    if |keys| > 1 {
      KeysClean(keys[1..]);
      CleanConcat([Word(",")], PrintKeys(keys[1..]));
      CleanConcat(PrintKey(keys[0]), [Word(",")] + PrintKeys(keys[1..]));
    }
  }

  lemma SelectClean(q: Query)
    requires NormalSelect(q)
    ensures AllClean(PrintSelect(q))
  {
    SymbolsClean();
    if q.projection.None? { AggsClean(q.aggregates); }
    else if q.projection.value != [] { NamesClean(q.projection.value); }
  }

  lemma ClausesClean(q: Query)
    requires Normal(q)
    ensures AllClean(PrintWhere(q.predicate_)) && AllClean(PrintGroup(q.groupBy))
    ensures AllClean(PrintOrder(q.orderBy)) && AllClean(PrintLimit(q.limit))
  {
    hide PrintChain, PrintNames, PrintKeys, LeftChain, Clean;
    KeywordClean("where"); KeywordClean("group"); KeywordClean("by"); KeywordClean("order"); KeywordClean("limit");
    if q.predicate_ != True { ChainClean(q.predicate_); CleanConcat([Word("where")], PrintChain(q.predicate_)); }
    if q.groupBy != [] { NamesClean(q.groupBy); CleanConcat([Word("group"), Word("by")], PrintNames(q.groupBy)); }
    if q.orderBy != [] { KeysClean(q.orderBy); CleanConcat([Word("order"), Word("by")], PrintKeys(q.orderBy)); }
    if q.limit.Some? { LimitClean(q.limit.value); }
  }

  lemma LimitClean(n: nat)
    ensures Clean(Word(ShowNat(n)))
  {
    DigitsBare(ShowNat(n));
  }

  lemma TokensClean(q: Query)
    requires Normal(q)
    ensures AllClean(PrintTokens(q))
  {
    hide PrintSelect, PrintWhere, PrintGroup, PrintOrder, PrintLimit, Clean, AllClean, LeftChain;
    hide NormalSelect, AllNames;
    SelectClean(q);
    ClausesClean(q);
    KeywordClean("select");
    KeywordClean("from");
    NameClean(q.dataset);
    var tail := PrintOrder(q.orderBy) + PrintLimit(q.limit);
    CleanConcat(PrintOrder(q.orderBy), PrintLimit(q.limit));
    CleanConcat(PrintGroup(q.groupBy), tail);
    CleanConcat(PrintWhere(q.predicate_), PrintGroup(q.groupBy) + tail);
    CleanPush(Word(q.dataset), PrintWhere(q.predicate_) + (PrintGroup(q.groupBy) + tail));
    CleanPush(Word("from"), PrintClauses(q));
    CleanConcat(PrintSelect(q), [Word("from")] + PrintClauses(q));
    CleanPush(Word("select"), PrintSelect(q) + ([Word("from")] + PrintClauses(q)));
  }

  /** Every normal form prints to text that parses back to it, through the characters. */
  lemma PrintParses(q: Query)
    requires Normal(q)
    ensures Parse(Print(q)) == Some(q)
  {
    TokensClean(q);
    LexRender(PrintTokens(q));
    TokensBack(q);
    hide ParseTokens, PrintTokens, Lex, Render;
  }

  // ----- accepted queries are normal -----

  lemma {:induction false} Pow10Add(a: nat, b: nat)
    ensures Pow10(a + b) == Pow10(a) * Pow10(b)
  {
    if a > 0 { Pow10Add(a - 1, b); }
  }

  lemma {:induction false} Pow10Whole(n: nat) returns (t: nat)
    ensures t as real == Pow10(n)
  {
    if n == 0 {
      t := 1;
    } else {
      var u := Pow10Whole(n - 1);
      t := 10 * u;
    }
  }

  lemma ScaledUp(v: real, m: int, k: nat, e: nat, q: real)
    requires IsDecimal(v, m, k) && q == Pow10(e)
    ensures Decimal(v * q)
  {
    var t := Pow10Whole(e);
    var product := TimesQuotient(v, m, Pow10(k), t, q);
    assert IsDecimal(v * q, product, k);
  }

  lemma TimesQuotient(v: real, m: int, p: real, t: nat, q: real) returns (product: int)
    requires p > 0.0 && v == m as real / p && q == t as real
    ensures v * q == product as real / p
  {
    product := m * t;
    assert m as real == v * p;
    assert product as real == m as real * q;
    assert product as real == (v * q) * p;
  }

  lemma ScaledDown(v: real, m: int, k: nat, e: nat)
    requires IsDecimal(v, m, k)
    ensures Decimal(v / Pow10(e))
  {
    hide Pow10;
    Pow10Add(k, e);
    DivideTwice(v, m as real, Pow10(k), Pow10(e));
    assert IsDecimal(v / Pow10(e), m, k + e);
  }

  lemma DivideTwice(v: real, a: real, p: real, q: real)
    requires p > 0.0 && q > 0.0 && v == a / p
    ensures p * q > 0.0
    ensures v / q == a / (p * q)
  {
    var x := v / q;
    assert a == v * p && v == x * q;
    assert a == x * (p * q);
    assert p * q > 0.0;
  }

  lemma ScaledIsDecimal(v: real, x: int)
    requires Decimal(v)
    ensures Decimal(Scale(v, x))
  {
    hide Pow10, IsDecimal;
    var m: int, k: nat :| IsDecimal(v, m, k);
    if x >= 0 {
      var q := Pow10(x);
      assert Scale(v, x) == v * q;
      ScaledUp(v, m, k, x, q);
    } else {
      assert Scale(v, x) == v / Pow10(-x);
      ScaledDown(v, m, k, -x);
    }
  }

  lemma UnsignedIsDecimal(s: string)
    requires ParseDecimal(s).Some?
    ensures Decimal(ParseDecimal(s).value)
  {
    hide ParseMantissa, Find, ParseInt, Decimal, Scale, Pow10, ShowNat, Value;
    var e := Find(s, IsE);
    var m := ParseMantissa(s[..e]);
    assert m.Some?;
    MantissaIsDecimal(s[..e]);
    if e < |s| {
      var x := ParseInt(s[e + 1..]);
      ScaledIsDecimal(m.value, x.value);
    }
  }

  lemma MantissaIsDecimal(s: string)
    requires ParseMantissa(s).Some?
    ensures Decimal(ParseMantissa(s).value)
  {
    var d := Find(s, IsDot);
    var frac := if d < |s| then s[d + 1..] else "";
    assert IsDecimal(ParseMantissa(s).value, Value(s[..d] + frac), |frac|);
  }

  /** Every finite float a word reads as has a finite decimal expansion. */
  lemma FloatIsDecimal(s: string, r: real)
    requires ParseF64(s) == Some(Finite(r))
    ensures Decimal(r)
  {
    hide ParseDecimal, IsFloatWord;
    var body := if s != "" && IsSign(s[0]) then s[1..] else s;
    UnsignedIsDecimal(body);
    var v := ParseDecimal(body).value;
    var m, k :| IsDecimal(v, m, k);
    NegateQuotient(m as real, Pow10(k));
    assert -(m as real) == (-m) as real;
    assert IsDecimal(-v, -m, k);
  }

  lemma WordQuotable(w: string)
    requires Clean(Word(w))
    ensures Quotable(w)
  {
    if Bare(w) {
      assert forall i :: 0 <= i < |w| ==> w[i] != '\'';
    } else {
      assert |w| == 2 ==> w[..2] == w;
    }
  }

  lemma LiteralNormal(toks: seq<Tok>, pos: nat)
    requires AllClean(toks) && LiteralAt(toks, pos).Parsed?
    ensures NormalLiteral(LiteralAt(toks, pos).value)
  {
    assert Clean(toks[pos]);
    hide ParseF64, ParseInt, Quotable, Bare, Symbol;
    if toks[pos].Word? {
      var w := toks[pos].w;
      WordQuotable(w);
      match ParseF64(w)
      case Some(Finite(r)) => FloatIsDecimal(w, r);
      case _ =>
    }
  }

  lemma TermNormal(toks: seq<Tok>, pos: nat)
    requires AllClean(toks) && TermAt(toks, pos).Parsed?
    ensures NormalTerm(TermAt(toks, pos).value)
  {
    var at := if IsKw(toks, pos, "not") then pos + 1 else pos;
    assert Clean(toks[at]);
    hide Clean, LiteralAt, OpAt, NormalLiteral;
    LiteralNormal(toks, OpAt(toks, at + 1).pos);
  }

  lemma {:induction false} ChainNormal(toks: seq<Tok>, pos: nat, left: Predicate)
    requires AllClean(toks) && LeftChain(left) && ChainAt(toks, pos, left).Parsed?
    ensures LeftChain(ChainAt(toks, pos, left).value)
    decreases |toks| - pos
  {
    hide TermAt, NormalTerm;
    if IsKw(toks, pos, "and") || IsKw(toks, pos, "or") {
      TermNormal(toks, pos + 1);
      var t := TermAt(toks, pos + 1);
      ChainNormal(toks, t.pos, if IsKw(toks, pos, "and") then And(left, t.value) else Or(left, t.value));
    }
  }

  lemma TermIsChain(p: Predicate)
    requires NormalTerm(p)
    ensures LeftChain(p) && p != True
  {
    hide NormalLiteral, Name;
  }

  lemma {:induction false} NamesNormal(toks: seq<Tok>, pos: nat, acc: seq<string>)
    requires AllClean(toks) && AllNames(acc) && NamesAt(toks, pos, acc).Parsed?
    ensures AllNames(NamesAt(toks, pos, acc).value)
    ensures IsName(toks, pos) && acc + [toks[pos].w] <= NamesAt(toks, pos, acc).value
    decreases |toks| - pos
  {
    assert Clean(toks[pos]);
    hide Clean;
    if IsWord(toks, pos + 1, ",") { NamesNormal(toks, pos + 2, acc + [toks[pos].w]); }
  }

  lemma AggNormal(toks: seq<Tok>, pos: nat)
    requires AllClean(toks) && AggAt(toks, pos).Parsed?
    ensures NormalAgg(AggAt(toks, pos).value)
  {
    assert Clean(toks[pos + 2]);
    hide Clean;
  }

  lemma {:induction false} AggsNormal(toks: seq<Tok>, pos: nat, acc: seq<Agg>)
    requires AllClean(toks) && (forall i :: 0 <= i < |acc| ==> NormalAgg(acc[i])) && AggsAt(toks, pos, acc).Parsed?
    ensures forall i :: 0 <= i < |AggsAt(toks, pos, acc).value| ==> NormalAgg(AggsAt(toks, pos, acc).value[i])
    ensures AggsAt(toks, pos, acc).value != []
    decreases |toks| - pos
  {
    AggNormal(toks, pos);
    var a := AggAt(toks, pos);
    AggAdvances(toks, pos);
    hide AggAt, NormalAgg;
    if IsWord(toks, a.pos, ",") { AggsNormal(toks, a.pos + 1, acc + [a.value]); }
  }

  lemma AggAdvances(toks: seq<Tok>, pos: nat)
    requires AggAt(toks, pos).Parsed?
    ensures AggAt(toks, pos).pos == pos + 4
  {}

  lemma {:induction false} KeysNormal(toks: seq<Tok>, pos: nat, acc: seq<OrderKey>)
    requires AllClean(toks) && (forall i :: 0 <= i < |acc| ==> Name(acc[i].column)) && KeysAt(toks, pos, acc).Parsed?
    ensures forall i :: 0 <= i < |KeysAt(toks, pos, acc).value| ==> Name(KeysAt(toks, pos, acc).value[i].column)
    decreases |toks| - pos
  {
    assert Clean(toks[pos]);
    hide Clean;
    var (dir, p) := DirAt(toks, pos + 1);
    if IsWord(toks, p, ",") { KeysNormal(toks, p + 1, acc + [OrderKey(toks[pos].w, dir)]); }
  }

  lemma SelectNormal(toks: seq<Tok>, pos: nat)
    requires AllClean(toks) && SelectAt(toks, pos).Parsed?
    ensures match SelectAt(toks, pos).value
      case Aggregates(aggs) => aggs != [] && forall i :: 0 <= i < |aggs| ==> NormalAgg(aggs[i])
      case Projection(cols) => AllNames(cols) && (cols != [] ==> cols[0] != "*")
  {
    hide NamesAt, AggsAt, NormalAgg, Name;
    if IsWord(toks, pos, "*") {
    } else if IsName(toks, pos) && IsWord(toks, pos + 1, "(") {
      AggsNormal(toks, pos, []);
    } else {
      NamesNormal(toks, pos, []);
      var cols := NamesAt(toks, pos, []).value;
      assert cols[0] == ([] + [toks[pos].w])[0];
    }
  }

  lemma WhereNormal(toks: seq<Tok>, pos: nat)
    requires AllClean(toks) && WhereAt(toks, pos).Parsed?
    ensures var p := WhereAt(toks, pos).value; p == True || LeftChain(p)
  {
    hide TermAt, NormalTerm, ChainAt, LeftChain;
    if IsKw(toks, pos, "where") {
      TermNormal(toks, pos + 1);
      var t := TermAt(toks, pos + 1);
      TermIsChain(t.value);
      ChainNormal(toks, t.pos, t.value);
    }
  }

  lemma GroupNormal(toks: seq<Tok>, pos: nat)
    requires AllClean(toks) && GroupAt(toks, pos).Parsed?
    ensures AllNames(GroupAt(toks, pos).value)
  {
    hide NamesAt, Name;
    if IsKw(toks, pos, "group") { NamesNormal(toks, pos + 2, []); }
  }

  lemma OrderNormal(toks: seq<Tok>, pos: nat)
    requires AllClean(toks) && OrderAt(toks, pos).Parsed?
    ensures forall i :: 0 <= i < |OrderAt(toks, pos).value| ==> Name(OrderAt(toks, pos).value[i].column)
  {
    hide KeysAt, Name;
    if IsKw(toks, pos, "order") { KeysNormal(toks, pos + 2, []); }
  }

  lemma LimitNormal(toks: seq<Tok>, pos: nat)
    requires LimitAt(toks, pos).Parsed?
    ensures LimitAt(toks, pos).value.Some? ==> LimitAt(toks, pos).value.value <= U64_MAX
  {}

  ghost predicate NormalParts(q: Query) {
    && Name(q.dataset) && NormalSelect(q)
    && (q.predicate_ == True || LeftChain(q.predicate_))
    && AllNames(q.groupBy)
    && (forall i :: 0 <= i < |q.orderBy| ==> Name(q.orderBy[i].column))
    && (q.limit.Some? ==> q.limit.value <= U64_MAX)
  }

  lemma NameIsName(toks: seq<Tok>, pos: nat)
    requires AllClean(toks) && IsName(toks, pos)
    ensures pos < |toks| && toks[pos].Word? && Name(toks[pos].w)
  {
    hide Clean;
    assert Clean(toks[pos]);
  }

  lemma ClausesNormal(toks: seq<Tok>, pos: nat, select: SelectList)
    requires AllClean(toks) && ClausesAt(toks, pos, select).Parsed?
    requires match select
      case Aggregates(aggs) => aggs != [] && forall i :: 0 <= i < |aggs| ==> NormalAgg(aggs[i])
      case Projection(cols) => AllNames(cols) && (cols != [] ==> cols[0] != "*")
    ensures NormalParts(ClausesAt(toks, pos, select).value)
  {
    hide WhereAt, GroupAt, OrderAt, LimitAt, LeftChain, AllClean, NormalAgg, IsName, Name;
    assert IsName(toks, pos);
    NameIsName(toks, pos);
    WhereNormal(toks, pos + 1);
    var p1 := WhereAt(toks, pos + 1).pos;
    GroupNormal(toks, p1);
    var p2 := GroupAt(toks, p1).pos;
    OrderNormal(toks, p2);
    LimitNormal(toks, OrderAt(toks, p2).pos);
  }

  /** Parse normal form: whatever `parse` accepts is a normal query, its predicate a left-leaning
      AND/OR chain of possibly negated comparisons. */
  lemma AcceptedIsNormal(input: string)
    requires Parse(input).Some?
    ensures Normal(Parse(input).value)
  {
    hide Lex, SelectAt, ClausesAt, AllClean, LeftChain, IsKw, Query.Valid;
    LexClean(input);
    var toks := Lex(input).value;
    SelectNormal(toks, 1);
    var select := SelectAt(toks, 1);
    ClausesNormal(toks, select.pos + 1, select.value);
  }

  /** The canonical text of an accepted query parses back to the same query. */
  lemma ParsePrintParse(input: string)
    requires Parse(input).Some?
    ensures Normal(Parse(input).value)
    ensures Parse(Print(Parse(input).value)) == Parse(input)
  {
    AcceptedIsNormal(input);
    hide Parse, Print, Normal;
    PrintParses(Parse(input).value);
  }

  /** The parser's image is exactly the normal forms. */
  lemma NormalFormsAreTheImage(q: Query)
    ensures Normal(q) <==> exists input :: Parse(input) == Some(q)
  {
    if Normal(q) {
      PrintParses(q);
    }
    forall input | Parse(input) == Some(q) ensures Normal(q) {
      AcceptedIsNormal(input);
    }
  }

  /** Only a quoted literal can make pruning unsound: a bare word that reads as a number is parsed as
      one, so it is never a numeric string. */
  lemma BareWordsPruneSafely(w: string)
    ensures !NumericString(LiteralFromWord(w))
  {
    hide ParseF64, ParseInt;
  }
}
