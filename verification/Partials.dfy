// Map and reduce: the per-group accumulators of a shard, their merge, and the theorem that any way
// of splitting, ordering and merging the rows gives the answer computed in one place.
module Partials {
  import opened Prelude
  import opened Numerals
  import opened JsonModel
  import opened QueryModel
  import opened Accumulators

  type Groups = map<Key, seq<Accum>>

  datatype Partial = Partial(aggregates: seq<Agg>, groups: Groups)

  function Zeros(aggs: seq<Agg>): seq<Accum> {
    Map(a => Zero(a), aggs)
  }

  /** Fold a row into parallel accumulators: `zip` stops at the shorter list. */
  function FoldRow(aggs: seq<Agg>, accs: seq<Accum>, row: Row): (r: seq<Accum>)
    ensures |r| == |accs|
  {
    seq(|accs|, i requires 0 <= i < |accs| => if i < |aggs| then Fold(aggs[i], accs[i], row) else accs[i])
  }

  function MapGroups(q: Query, show: Json -> string, rows: seq<Row>): Groups {
    if rows == [] then map[]
    else
      var before, row := MapGroups(q, show, rows[..|rows| - 1]), rows[|rows| - 1];
      if !q.Keeps(row) then before
      else
        var key := q.GroupKey(show, row);
        before[key := FoldRow(q.aggregates, if key in before then before[key] else Zeros(q.aggregates), row)]
  }

  function MapShard(q: Query, show: Json -> string, rows: seq<Row>): Partial {
    Partial(q.aggregates, MapGroups(q, show, rows))
  }

  function MergeAccums(a: seq<Accum>, b: seq<Accum>): (r: seq<Accum>)
    ensures |r| == |a|
  {
    seq(|a|, i requires 0 <= i < |a| => if i < |b| then Merge(a[i], b[i]) else a[i])
  }

  function MergeEntry(a: Groups, b: Groups, k: Key): seq<Accum>
    requires k in a || k in b
  {
    if k !in b then a[k] else if k !in a then b[k] else MergeAccums(a[k], b[k])
  }

  function MergeGroups(a: Groups, b: Groups): Groups {
    map k | k in a.Keys + b.Keys :: MergeEntry(a, b, k)
  }

  function ReduceGroups(parts: seq<Partial>): Groups {
    if parts == [] then map[]
    else MergeGroups(ReduceGroups(parts[..|parts| - 1]), parts[|parts| - 1].groups)
  }

  // ----- the loops -----

  /** `map_shard`: fold every kept row into its group's accumulators. */
  method MapRows(q: Query, show: Json -> string, rows: seq<Row>) returns (p: Partial)
    ensures p == MapShard(q, show, rows)
  {
    hide Fold, Zeros, Query.Keeps, Query.GroupKey;
    var groups: Groups := map[];
    for n := 0 to |rows|
      invariant groups == MapGroups(q, show, rows[..n])
    {
      var row := rows[n];
      assert rows[..n + 1][..n] == rows[..n];
      if !q.Keeps(row) { continue; }
      var key := q.GroupKey(show, row);
      var accs := if key in groups then groups[key] else Zeros(q.aggregates);
      ghost var start := accs;
      for j := 0 to MinInt(|q.aggregates|, |accs|)
        invariant |accs| == |start|
        invariant forall i :: 0 <= i < |accs| ==>
          accs[i] == if i < j && i < |q.aggregates| then Fold(q.aggregates[i], start[i], row) else start[i]
      {
        accs := accs[j := Fold(q.aggregates[j], accs[j], row)];
      }
      assert accs == FoldRow(q.aggregates, start, row);
      groups := groups[key := accs];
    }
    assert rows[..|rows|] == rows;
    p := Partial(q.aggregates, groups);
  }

  /** A partial being merged into, group by group. */
  class RunningPartial {
    const aggregates: seq<Agg>
    var groups: Groups

    constructor Empty(aggregates: seq<Agg>)
      ensures this.aggregates == aggregates && groups == map[]
    {
      this.aggregates := aggregates;
      groups := map[];
    }

    /** `Partial::merge`, visiting the other side's groups in any order. */
    method MergeIn(other: Partial)
      modifies this
      ensures groups == MergeGroups(old(groups), other.groups)
    {
      ghost var before := groups;
      var todo := other.groups.Keys;
      while todo != {}
        invariant todo <= other.groups.Keys
        invariant groups.Keys == before.Keys + (other.groups.Keys - todo)
        invariant forall k :: k in groups ==>
          groups[k] == if k in todo || k !in other.groups then before[k] else MergeEntry(before, other.groups, k)
        decreases todo
      {
        var k :| k in todo;
        var accs := other.groups[k];
        if k in groups {
          accs := groups[k];
          for j := 0 to MinInt(|accs|, |other.groups[k]|)
            invariant |accs| == |groups[k]|
            invariant forall i :: 0 <= i < |accs| ==>
              accs[i] == if i < j && i < |other.groups[k]| then Merge(groups[k][i], other.groups[k][i])
                         else groups[k][i]
          {
            accs := accs[j := Merge(accs[j], other.groups[k][j])];
          }
          assert accs == MergeAccums(groups[k], other.groups[k]);
        }
        groups := groups[k := accs];
        todo := todo - {k};
      }
      assert groups == MergeGroups(before, other.groups);
    }
  }

  /** `reduce`: merge the partials into an empty one, in arrival order. */
  method Reduce(aggregates: seq<Agg>, parts: seq<Partial>) returns (p: Partial)
    ensures p == Partial(aggregates, ReduceGroups(parts))
  {
    var acc := new RunningPartial.Empty(aggregates);
    for n := 0 to |parts|
      invariant acc.groups == ReduceGroups(parts[..n])
    {
      acc.MergeIn(parts[n]);
      assert parts[..n + 1][..n] == parts[..n];
    }
    assert parts[..|parts|] == parts;
    p := Partial(acc.aggregates, acc.groups);
  }

  // ----- the answer a set of rows determines -----

  /** The rows of one group: kept by the filter, with this key. */
  ghost function Members(q: Query, show: Json -> string, rows: seq<Row>, key: Key): seq<Row> {
    if rows == [] then []
    else
      var row := rows[|rows| - 1];
      Members(q, show, rows[..|rows| - 1], key)
      + if q.Keeps(row) && q.GroupKey(show, row) == key then [row] else []
  }

  ghost predicate AnswersGroup(accs: seq<Accum>, aggs: seq<Agg>, members: seq<Row>) {
    && |accs| == |aggs|
    && forall i :: 0 <= i < |aggs| ==> Represents(accs[i], TallyOf(aggs[i], members))
  }

  /** The groups are exactly the non-empty ones, and each has one accumulator of the right variant
      per aggregate, standing for that aggregate over the group's rows. */
  ghost predicate Answers(groups: Groups, q: Query, show: Json -> string, rows: seq<Row>) {
    && (forall k :: k in groups <==> Members(q, show, rows, k) != [])
    && (forall k :: k in groups ==> AnswersGroup(groups[k], q.aggregates, Members(q, show, rows, k)))
  }

  /** The lane of every sum of the query is decided by its group's cells alone: see Settled. */
  ghost predicate Fits(q: Query, show: Json -> string, rows: seq<Row>) {
    forall k, i :: 0 <= i < |q.aggregates| ==> Settled(TallyOf(q.aggregates[i], Members(q, show, rows, k)))
  }

  function WidenedGroups(g: Groups): Groups {
    map k | k in g :: Map(a => Widened(a), g[k])
  }

  lemma ZerosAnswer(aggs: seq<Agg>)
    ensures AnswersGroup(Zeros(aggs), aggs, [])
  {
    forall i | 0 <= i < |aggs| ensures Represents(Zeros(aggs)[i], TallyOf(aggs[i], [])) {
      ZeroRepresents(aggs[i]);
    }
  }

  lemma FoldAnswers(aggs: seq<Agg>, accs: seq<Accum>, members: seq<Row>, row: Row)
    requires AnswersGroup(accs, aggs, members)
    ensures AnswersGroup(FoldRow(aggs, accs, row), aggs, members + [row])
  {
    hide Represents, Fold, Plus, RowTally;
    forall i | 0 <= i < |aggs|
      ensures Represents(FoldRow(aggs, accs, row)[i], TallyOf(aggs[i], members + [row]))
    {
      FoldRepresents(aggs[i], accs[i], TallyOf(aggs[i], members), row);
      assert (members + [row])[..|members|] == members;
    }
  }

  lemma MergeAnswers(aggs: seq<Agg>, a: seq<Accum>, x: seq<Row>, b: seq<Accum>, y: seq<Row>)
    requires AnswersGroup(a, aggs, x) && AnswersGroup(b, aggs, y)
    ensures AnswersGroup(MergeAccums(a, b), aggs, x + y)
  {
    hide Represents, Merge, Plus, TallyOf;
    forall i | 0 <= i < |aggs| ensures Represents(MergeAccums(a, b)[i], TallyOf(aggs[i], x + y)) {
      MergeRepresents(aggs[i], a[i], TallyOf(aggs[i], x), b[i], TallyOf(aggs[i], y));
      TallyConcat(aggs[i], x, y);
    }
  }

  /** Mapping a shard computes the answer of its rows. */
  lemma {:induction false} MapAnswers(q: Query, show: Json -> string, rows: seq<Row>)
    ensures Answers(MapGroups(q, show, rows), q, show, rows)
  {
    hide AnswersGroup;
    if rows != [] {
      var front, row := rows[..|rows| - 1], rows[|rows| - 1];
      MapAnswers(q, show, front);
      var before, after := MapGroups(q, show, front), MapGroups(q, show, rows);
      forall k ensures (k in after <==> Members(q, show, rows, k) != [])
                    && (k in after ==> AnswersGroup(after[k], q.aggregates, Members(q, show, rows, k)))
      {
        if q.Keeps(row) && q.GroupKey(show, row) == k {
          ZerosAnswer(q.aggregates);
          FoldAnswers(q.aggregates, if k in before then before[k] else Zeros(q.aggregates),
                      Members(q, show, front, k), row);
        } else {
          assert Members(q, show, rows, k) == Members(q, show, front, k);
        }
      }
    }
  }

  lemma {:induction false} MembersConcat(q: Query, show: Json -> string, a: seq<Row>, b: seq<Row>, key: Key)
    ensures Members(q, show, a + b, key) == Members(q, show, a, key) + Members(q, show, b, key)
  {
    if b == [] {
      assert a + b == a;
    } else {
      assert (a + b)[..|a + b| - 1] == a + b[..|b| - 1];
      MembersConcat(q, show, a, b[..|b| - 1], key);
    }
  }

  /** Merging two answers gives the answer of the rows together. */
  lemma MergeGroupsAnswers(q: Query, show: Json -> string, a: Groups, x: seq<Row>, b: Groups, y: seq<Row>)
    requires Answers(a, q, show, x) && Answers(b, q, show, y)
    ensures Answers(MergeGroups(a, b), q, show, x + y)
  {
    hide AnswersGroup;
    var m := MergeGroups(a, b);
    forall k ensures (k in m <==> Members(q, show, x + y, k) != [])
                  && (k in m ==> AnswersGroup(m[k], q.aggregates, Members(q, show, x + y, k)))
    {
      MembersConcat(q, show, x, y, k);
      if k in a && k in b {
        MergeAnswers(q.aggregates, a[k], Members(q, show, x, k), b[k], Members(q, show, y, k));
      } else if k in a {
        assert Members(q, show, x + y, k) == Members(q, show, x, k);
      } else if k in b {
        assert Members(q, show, x + y, k) == Members(q, show, y, k);
      }
    }
  }

  /** Reducing answers of parts gives the answer of all the parts' rows. */
  lemma {:induction false} ReduceAnswers(q: Query, show: Json -> string, parts: seq<Partial>, data: seq<seq<Row>>)
    requires |parts| == |data|
    requires forall i :: 0 <= i < |parts| ==> Answers(parts[i].groups, q, show, data[i])
    ensures Answers(ReduceGroups(parts), q, show, Flatten(data))
  {
    hide Answers;
    if parts == [] {
      MapAnswers(q, show, []);
    } else {
      var n := |parts| - 1;
      ReduceAnswers(q, show, parts[..n], data[..n]);
      MergeGroupsAnswers(q, show, ReduceGroups(parts[..n]), Flatten(data[..n]), parts[n].groups, data[n]);
    }
  }

  /** The answer is a function of the rows: at most the lane of an overflowed sum can differ. */
  lemma SameAnswer(q: Query, show: Json -> string, rows: seq<Row>, a: Groups, b: Groups)
    requires Answers(a, q, show, rows) && Answers(b, q, show, rows)
    ensures WidenedGroups(a) == WidenedGroups(b)
    ensures Fits(q, show, rows) ==> a == b
  {
    assert a.Keys == b.Keys by {
      forall k ensures k in a <==> k in b {}
    }
    forall k | k in a
      ensures Map(x => Widened(x), a[k]) == Map(x => Widened(x), b[k])
      ensures Fits(q, show, rows) ==> a[k] == b[k]
    {
      var members := Members(q, show, rows, k);
      assert AnswersGroup(a[k], q.aggregates, members) && AnswersGroup(b[k], q.aggregates, members);
      forall i | 0 <= i < |q.aggregates|
        ensures Widened(a[k][i]) == Widened(b[k][i])
        ensures Fits(q, show, rows) ==> a[k][i] == b[k][i]
      {
        RepresentsUnique(a[k][i], b[k][i], TallyOf(q.aggregates[i], members));
      }
    }
  }

  // ----- order does not matter -----

  lemma {:induction false} MembersCount(q: Query, show: Json -> string, rows: seq<Row>, key: Key, r: Row)
    ensures multiset(Members(q, show, rows, key))[r]
         == if q.Keeps(r) && q.GroupKey(show, r) == key then multiset(rows)[r] else 0
  {
    hide Query.Keeps, Query.GroupKey;
    if rows != [] {
      var front, row := rows[..|rows| - 1], rows[|rows| - 1];
      MembersCount(q, show, front, key, r);
      assert multiset(rows) == multiset(front) + multiset{row} by { assert rows == front + [row]; }
    }
  }

  lemma {:induction false} TallyPermute(agg: Agg, a: seq<Row>, b: seq<Row>)
    requires multiset(a) == multiset(b)
    ensures TallyOf(agg, a) == TallyOf(agg, b)
  {
    hide TallyOf;
    if a == [] {
      assert |multiset(b)| == 0;
      assert b == [];
    } else {
      var i := PermutationStep(a, b);
      TallyPermute(agg, a[1..], b[..i] + b[i + 1..]);
      TallyConcat(agg, [a[0]], a[1..]);
      assert a == [a[0]] + a[1..];
      TallyConcat(agg, b[..i], b[i + 1..]);
      TallyConcat(agg, b[..i] + [b[i]], b[i + 1..]);
      TallyConcat(agg, b[..i], [b[i]]);
      MoveToFront(agg, TallyOf(agg, b[..i]), TallyOf(agg, [b[i]]), TallyOf(agg, b[i + 1..]));
    }
  }

  lemma MoveToFront(agg: Agg, a: Tally, x: Tally, b: Tally)
    requires Kind(agg, a) && Kind(agg, x) && Kind(agg, b)
    ensures Plus(Plus(a, x), b) == Plus(x, Plus(a, b))
  {}

  lemma MembersPermute(q: Query, show: Json -> string, a: seq<Row>, b: seq<Row>, k: Key)
    requires multiset(a) == multiset(b)
    ensures multiset(Members(q, show, a, k)) == multiset(Members(q, show, b, k))
    ensures Members(q, show, a, k) == [] <==> Members(q, show, b, k) == []
  {
    var x, y := Members(q, show, a, k), Members(q, show, b, k);
    forall r ensures multiset(x)[r] == multiset(y)[r] {
      MembersCount(q, show, a, k, r);
      MembersCount(q, show, b, k, r);
    }
    assert multiset(x) == multiset(y);
    assert |x| == |multiset(x)| == |multiset(y)| == |y|;
  }

  /** An answer of some rows is an answer of any permutation of them. */
  lemma AnswersPermute(q: Query, show: Json -> string, g: Groups, a: seq<Row>, b: seq<Row>)
    requires multiset(a) == multiset(b) && Answers(g, q, show, a)
    ensures Answers(g, q, show, b)
  {
    hide Members, TallyOf;
    forall k
      ensures (Members(q, show, a, k) != []) == (Members(q, show, b, k) != [])
      ensures k in g ==> AnswersGroup(g[k], q.aggregates, Members(q, show, b, k))
    {
      var x, y := Members(q, show, a, k), Members(q, show, b, k);
      MembersPermute(q, show, a, b, k);
      forall i | 0 <= i < |q.aggregates| ensures TallyOf(q.aggregates[i], x) == TallyOf(q.aggregates[i], y) {
        TallyPermute(q.aggregates[i], x, y);
      }
    }
  }

  /** Whether the lanes are settled does not depend on the order of the rows. */
  lemma FitsPermute(q: Query, show: Json -> string, a: seq<Row>, b: seq<Row>)
    requires multiset(a) == multiset(b) && Fits(q, show, a)
    ensures Fits(q, show, b)
  {
    hide Members, TallyOf;
    forall k, i | 0 <= i < |q.aggregates|
      ensures Settled(TallyOf(q.aggregates[i], Members(q, show, b, k)))
    {
      MembersPermute(q, show, a, b, k);
      TallyPermute(q.aggregates[i], Members(q, show, a, k), Members(q, show, b, k));
      assert Settled(TallyOf(q.aggregates[i], Members(q, show, a, k)));
    }
  }

  // ----- main results -----

  /** Any plan of scanning pieces of the data and merging the results. */
  datatype Work = Scan(rows: seq<Row>) | Combine(left: Work, right: Work)

  ghost function WorkRows(w: Work): seq<Row> {
    match w
    case Scan(rows) => rows
    case Combine(l, r) => WorkRows(l) + WorkRows(r)
  }

  ghost function WorkGroups(q: Query, show: Json -> string, w: Work): Groups {
    match w
    case Scan(rows) => MapGroups(q, show, rows)
    case Combine(l, r) => MergeGroups(WorkGroups(q, show, l), WorkGroups(q, show, r))
  }

  lemma {:induction false} WorkAnswers(q: Query, show: Json -> string, w: Work)
    ensures Answers(WorkGroups(q, show, w), q, show, WorkRows(w))
  {
    hide Answers;
    match w
    case Scan(rows) => MapAnswers(q, show, rows);
    case Combine(l, r) =>
      WorkAnswers(q, show, l);
      WorkAnswers(q, show, r);
      MergeGroupsAnswers(q, show, WorkGroups(q, show, l), WorkRows(l), WorkGroups(q, show, r), WorkRows(r));
  }

  /** Any split, grouping and order of folds and merges over a permutation of the rows gives the
      partial of mapping them in one place: up to the lane of integer sums always, and identically
      when the cells of every group settle that lane. */
  lemma AnyPlanSameAnswer(q: Query, show: Json -> string, w: Work, rows: seq<Row>)
    requires multiset(WorkRows(w)) == multiset(rows)
    ensures WidenedGroups(WorkGroups(q, show, w)) == WidenedGroups(MapGroups(q, show, rows))
    ensures Fits(q, show, rows) ==> WorkGroups(q, show, w) == MapGroups(q, show, rows)
  {
    hide Answers, Fits;
    WorkAnswers(q, show, w);
    AnswersPermute(q, show, WorkGroups(q, show, w), WorkRows(w), rows);
    MapAnswers(q, show, rows);
    SameAnswer(q, show, rows, WorkGroups(q, show, w), MapGroups(q, show, rows));
  }

  /** The map homomorphism: mapping a concatenation is merging the maps. */
  lemma MapHomomorphism(q: Query, show: Json -> string, a: seq<Row>, b: seq<Row>)
    ensures WidenedGroups(MergeGroups(MapGroups(q, show, a), MapGroups(q, show, b)))
         == WidenedGroups(MapGroups(q, show, a + b))
    ensures Fits(q, show, a + b) ==>
      MergeGroups(MapGroups(q, show, a), MapGroups(q, show, b)) == MapGroups(q, show, a + b)
  {
    AnyPlanSameAnswer(q, show, Combine(Scan(a), Scan(b)), a + b);
  }

  lemma {:induction false} CountTally(rows: seq<Row>)
    ensures TallyOf(Agg.Count, rows) == Rows(|rows|)
  {
    if rows != [] { CountTally(rows[..|rows| - 1]); }
  }

  /** Under every plan each accumulator of each group is in its exact lane: see ExactLane. COUNT is
      the number of the group's rows, saturated. */
  lemma PlanLanes(q: Query, show: Json -> string, w: Work, k: Key, i: nat)
    requires k in WorkGroups(q, show, w) && i < |q.aggregates|
    ensures |WorkGroups(q, show, w)[k]| == |q.aggregates|
    ensures ExactLane(q.aggregates[i], WorkGroups(q, show, w)[k][i],
                      TallyOf(q.aggregates[i], Members(q, show, WorkRows(w), k)))
    ensures q.aggregates[i].Count? ==>
      WorkGroups(q, show, w)[k][i] == Accum.Count(MinInt(|Members(q, show, WorkRows(w), k)|, U64_MAX))
  {
    CountTally(Members(q, show, WorkRows(w), k));
    WorkAnswers(q, show, w);
    assert AnswersGroup(WorkGroups(q, show, w)[k], q.aggregates, Members(q, show, WorkRows(w), k));
    hide ExactLane, Represents;
    RepresentsExactly(q.aggregates[i], WorkGroups(q, show, w)[k][i],
                      TallyOf(q.aggregates[i], Members(q, show, WorkRows(w), k)));
  }

  lemma AddRow(f: string, rows: seq<Row>, row: Row)
    ensures var before, after := TallyOf(Agg.Sum(f), rows), TallyOf(Agg.Sum(f), rows + [row]);
      var r := RowTally(Agg.Sum(f), row);
      && before.gain <= after.gain == before.gain + r.gain
      && before.loss <= after.loss == before.loss + r.loss
  {
    hide CellNumber;
    assert (rows + [row])[..|rows|] == rows;
  }

  lemma {:induction false} GroupWithinColumn(q: Query, show: Json -> string, rows: seq<Row>, k: Key, f: string)
    ensures var group, column := TallyOf(Agg.Sum(f), Members(q, show, rows, k)), TallyOf(Agg.Sum(f), rows);
      group.gain <= column.gain && group.loss <= column.loss
  {
    hide TallyOf, RowTally;
    if rows != [] {
      var front, row := rows[..|rows| - 1], rows[|rows| - 1];
      GroupWithinColumn(q, show, front, k, f);
      assert rows == front + [row];
      AddRow(f, front, row);
      AddRow(f, Members(q, show, front, k), row);
      assert Members(q, show, front, k) + [] == Members(q, show, front, k);
    }
  }

  /** It is enough that each summed column's gains and losses fit i128 over all rows. */
  lemma FitsWhenColumnsFit(q: Query, show: Json -> string, rows: seq<Row>)
    requires forall a :: a in q.aggregates && a.Sum? ==> InRange(TallyOf(a, rows))
    ensures Fits(q, show, rows)
  {
    forall k, i | 0 <= i < |q.aggregates|
      ensures Settled(TallyOf(q.aggregates[i], Members(q, show, rows, k)))
    {
      var a := q.aggregates[i];
      if a.Sum? {
        assert a in q.aggregates && a == Agg.Sum(a.field);
        GroupWithinColumn(q, show, rows, k, a.field);
      }
    }
  }
}
