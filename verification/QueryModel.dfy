// The query plan and its row-level meaning: predicates, group keys and projections.
module QueryModel {
  import opened Prelude
  import opened Numerals
  import opened JsonModel

  datatype CmpOp = Eq | Ne | Lt | Le | Gt | Ge
  {
    /** Incomparable operands satisfy `Ne` and nothing else. */
    predicate Eval(left: Json, right: Json) {
      var o := JsonCmp(left, right);
      match this
      case Eq => o == Some(Equal)
      case Ne => o != Some(Equal)
      case Lt => o == Some(Less)
      case Le => o == Some(Less) || o == Some(Equal)
      case Gt => o == Some(Greater)
      case Ge => o == Some(Greater) || o == Some(Equal)
    }
  }

  datatype Predicate =
    | True
    | Cmp(field: string, op: CmpOp, value: Json)
    | And(left: Predicate, right: Predicate)
    | Or(left: Predicate, right: Predicate)
    | Not(inner: Predicate)
  {
    predicate Eval(row: Row) {
      match this
      case True => true
      case Cmp(field, op, value) => op.Eval(if field in row then row[field] else Null, value)
      case And(a, b) => a.Eval(row) && b.Eval(row)
      case Or(a, b) => a.Eval(row) || b.Eval(row)
      case Not(a) => !a.Eval(row)
    }
  }

  datatype Agg = Count | Sum(field: string) | Min(field: string) | Max(field: string) | Avg(field: string)
  {
    function OutputName(): string {
      match this
      case Count => "count"
      case Sum(f) => "sum_" + f
      case Min(f) => "min_" + f
      case Max(f) => "max_" + f
      case Avg(f) => "avg_" + f
    }
  }

  datatype OrderDir = Asc | Desc

  datatype OrderKey = OrderKey(column: string, dir: OrderDir)

  datatype Query = Query(
    dataset: string,
    aggregates: seq<Agg>,
    predicate_: Predicate,
    groupBy: seq<string>,
    orderBy: seq<OrderKey>,
    limit: Option<nat>,
    projection: Option<seq<string>>)
  {
    predicate IsProjection() {
      projection.Some?
    }

    /** `validate`: a named dataset, and either aggregates or a projection but not both. */
    predicate Valid() {
      && Trim(dataset) != ""
      && if IsProjection() then aggregates == [] && groupBy == [] else aggregates != []
    }

    predicate Keeps(row: Row) {
      predicate_.Eval(row)
    }

    /** The string form of each GROUP BY cell; `show` is the JSON text of a non-string cell. */
    function GroupKey(show: Json -> string, row: Row): Key {
      Map(k => if k !in row then "" else if row[k].String? then row[k].s else show(row[k]), groupBy)
    }

    function ProjectRow(row: Row): Row {
      if projection.None? || projection.value == [] then row
      else map c | c in row && c in projection.value :: row[c]
    }

    /** `project_shard`: the kept rows, cut down to the selected columns. */
    function ProjectShard(rows: seq<Row>): seq<Row> {
      Map(r => ProjectRow(r), Filter(rows, r => Keeps(r)))
    }
  }

  type Key = seq<string>

  /** The names results go by. */
  lemma OutputNames(f: string)
    ensures Count.OutputName() == "count" && Sum(f).OutputName() == "sum_" + f && Avg(f).OutputName() == "avg_" + f
    ensures Min(f).OutputName() == "min_" + f && Max(f).OutputName() == "max_" + f
  {}

  // ----- what filters, keys and projections mean -----

  /** A comparison with a number literal holds of numbers alone, by value; with a string literal of
      strings alone, in their order; and anything of another type, or missing, is only unequal. */
  lemma ComparisonMeans(row: Row, field: string, op: CmpOp, value: Json)
    ensures var cell := if field in row then row[field] else Null;
      && (cell.Number? && value.Number? ==>
            var x, y := cell.n.Real(), value.n.Real();
            Cmp(field, op, value).Eval(row) <==>
              match op case Eq => x == y case Ne => x != y case Lt => x < y
                       case Le => x <= y case Gt => x > y case Ge => x >= y)
      && (cell.String? && value.String? ==>
            var o := CompareString(cell.s, value.s);
            Cmp(field, op, value).Eval(row) <==>
              match op case Eq => cell.s == value.s case Ne => cell.s != value.s case Lt => o == Less
                       case Le => o == Less || cell.s == value.s case Gt => o == Greater
                       case Ge => o == Greater || cell.s == value.s)
      && (cell.Bool? && value.Bool? ==>
            (Cmp(field, op, value).Eval(row) <==>
              match op case Eq => cell.b == value.b case Ne => cell.b != value.b case Lt => !cell.b && value.b
                       case Le => cell.b ==> value.b case Gt => cell.b && !value.b case Ge => value.b ==> cell.b))
      && (cell == Null && value == Null ==> (Cmp(field, op, value).Eval(row) <==> op == Eq || op == Le || op == Ge))
      && (TypeRank(cell) != TypeRank(value) || cell.Array? || cell.Object? ==>
            (Cmp(field, op, value).Eval(row) <==> op == Ne))
  {
    var cell := if field in row then row[field] else Null;
    if cell.String? && value.String? { CompareStringFlips(cell.s, value.s); }
  }

  /** AND, OR and NOT are those of logic, and no WHERE keeps every row. */
  lemma ConnectivesMean(a: Predicate, b: Predicate, row: Row)
    ensures And(a, b).Eval(row) <==> a.Eval(row) && b.Eval(row)
    ensures Or(a, b).Eval(row) <==> a.Eval(row) || b.Eval(row)
    ensures Not(a).Eval(row) <==> !a.Eval(row)
    ensures True.Eval(row)
  {}

  /** The text a cell contributes to a group key. */
  predicate KeyText(show: Json -> string, row: Row, column: string, text: string) {
    if column !in row then text == ""
    else if row[column].String? then text == row[column].s
    else text == show(row[column])
  }

  /** A group key has one text per GROUP BY column, in their order. */
  lemma GroupKeyMeans(q: Query, show: Json -> string, row: Row, key: Key)
    ensures q.GroupKey(show, row) == key <==>
      |key| == |q.groupBy| && forall i :: 0 <= i < |key| ==> KeyText(show, row, q.groupBy[i], key[i])
  {
    if |key| == |q.groupBy| && forall i :: 0 <= i < |key| ==> KeyText(show, row, q.groupBy[i], key[i]) {
      assert q.GroupKey(show, row) == key;
    }
  }

  /** A projection keeps exactly the matching rows, one for one and in order, with the selected columns
      of each, or all of them for a star. */
  lemma ProjectionMeans(q: Query, rows: seq<Row>, row: Row)
    ensures q.ProjectShard(rows + [row])
         == q.ProjectShard(rows) + if q.predicate_.Eval(row) then [q.ProjectRow(row)] else []
    ensures q.ProjectShard([]) == []
    ensures forall c :: c in q.ProjectRow(row) <==>
      c in row && (q.projection.None? || q.projection.value == [] || c in q.projection.value)
    ensures forall c :: c in q.ProjectRow(row) ==> q.ProjectRow(row)[c] == row[c]
  {
    assert (rows + [row])[..|rows|] == rows;
  }

  /** What `validate` accepts: a dataset that is not blank, and aggregates or a projection, not both;
      a projection has no GROUP BY. */
  lemma ValidMeans(q: Query)
    ensures Trim(q.dataset) == "" ==> !q.Valid()
    ensures q.aggregates == [] && q.projection.None? ==> !q.Valid()
    ensures q.projection.Some? && (q.aggregates != [] || q.groupBy != []) ==> !q.Valid()
    ensures Trim(q.dataset) != "" && q.aggregates != [] && q.projection.None? ==> q.Valid()
    ensures Trim(q.dataset) != "" && q.aggregates == [] && q.groupBy == [] && q.projection.Some? ==> q.Valid()
    ensures q.IsProjection() <==> q.projection.Some?
  {
    hide Trim;
  }

  /** Output names never collide: equal names come from equal aggregates. */
  lemma OutputNameInjective(a: Agg, b: Agg)
    ensures a.OutputName() == b.OutputName() <==> a == b
  {
    var x, y := a.OutputName(), b.OutputName();
    if x == y {
      assert x[1] == y[1] && x[2] == y[2];
      if !a.Count? && !b.Count? {
        assert x[4..] == a.field && y[4..] == b.field;
      }
    }
  }
}
