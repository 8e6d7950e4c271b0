// From merged accumulators to the answer: finalised groups in key order, ORDER BY as a stable
// multi-key sort over a total cell order, and LIMIT as a prefix of it.
module Results {
  import opened Prelude
  import opened JsonModel
  import opened QueryModel
  import opened Accumulators
  import opened Partials
  import opened Sorting

  datatype GroupResult = GroupResult(key: Key, values: map<string, Json>)

  // ----- the order of group keys -----

  /** `Vec<String>` order: lexicographic, a proper prefix first. */
  function CompareKey(a: Key, b: Key): Ordering {
    if a == [] && b == [] then Equal
    else if a == [] then Less
    else if b == [] then Greater
    else
      var o := CompareString(a[0], b[0]);
      if o == Equal then CompareKey(a[1..], b[1..]) else o
  }

  predicate KeyLe(a: Key, b: Key) {
    CompareKey(a, b) != Greater
  }

  lemma {:induction false} CompareKeyFlips(a: Key, b: Key)
    ensures CompareKey(b, a) == CompareKey(a, b).Reverse()
    ensures CompareKey(a, b) == Equal <==> a == b
  {
    if a != [] && b != [] {
      CompareStringFlips(a[0], b[0]);
      CompareKeyFlips(a[1..], b[1..]);
      assert a == [a[0]] + a[1..] && b == [b[0]] + b[1..];
    }
  }

  lemma {:induction false} KeyLeTransitive(a: Key, b: Key, c: Key)
    requires KeyLe(a, b) && KeyLe(b, c)
    ensures KeyLe(a, c)
  {
    if a != [] && b != [] && c != [] {
      CompareStringTransitive(a[0], b[0], c[0]);
      CompareStringFlips(a[0], b[0]);
      CompareStringFlips(b[0], c[0]);
      if a[0] == b[0] == c[0] { KeyLeTransitive(a[1..], b[1..], c[1..]); }
    }
  }

  ghost predicate Least(k: Key, ks: set<Key>) {
    k in ks && forall x :: x in ks ==> KeyLe(k, x)
  }

  lemma {:induction false} LeastExists(ks: set<Key>)
    requires ks != {}
    ensures exists k :: Least(k, ks)
  {
    var x :| x in ks;
    CompareKeyFlips(x, x);
    if ks == {x} {
      assert Least(x, ks);
    } else {
      var rest := ks - {x};
      LeastExists(rest);
      var y :| Least(y, rest);
      CompareKeyFlips(x, y);
      if KeyLe(x, y) {
        forall z | z in ks ensures KeyLe(x, z) {
          if z != x { KeyLeTransitive(x, y, z); }
        }
        assert Least(x, ks);
      } else {
        assert Least(y, ks);
      }
    }
  }

  /** The keys of a `BTreeMap` in iteration order. */
  ghost function SortedKeys(ks: set<Key>): seq<Key>
    decreases ks
  {
    if ks == {} then []
    else
      LeastExists(ks);
      var k :| Least(k, ks);
      [k] + SortedKeys(ks - {k})
  }

  ghost predicate StrictlyAscending(s: seq<Key>) {
    forall i, j :: 0 <= i < j < |s| ==> KeyLe(s[i], s[j]) && s[i] != s[j]
  }

  lemma {:induction false} SortedKeysAscend(ks: set<Key>)
    ensures StrictlyAscending(SortedKeys(ks))
    ensures forall k :: k in SortedKeys(ks) <==> k in ks
    decreases ks
  {
    if ks != {} {
      var s := SortedKeys(ks);
      SortedKeysAscend(ks - {s[0]});
      assert s[0] in ks by { LeastExists(ks); }
    }
  }

  lemma LeastUnique(a: Key, b: Key, ks: set<Key>)
    requires Least(a, ks) && Least(b, ks)
    ensures a == b
  {
    CompareKeyFlips(a, b);
  }

  // ----- finalisation -----

  /** Named values of one group, written in aggregate order into a map. */
  function Values(aggs: seq<Agg>, accs: seq<Accum>): map<string, Json> {
    if aggs == [] || accs == [] then map[]
    else if |aggs| > |accs| then Values(aggs[..|accs|], accs)
    else
      var n := |aggs| - 1;
      Values(aggs[..n], accs[..n])[aggs[n].OutputName() := FinalizeValue(accs[n])]
  }

  ghost function FinalizeKeys(p: Partial, keys: seq<Key>): seq<GroupResult>
    requires forall k :: k in keys ==> k in p.groups
  {
    if keys == [] then []
    else [GroupResult(keys[0], Values(p.aggregates, p.groups[keys[0]]))] + FinalizeKeys(p, keys[1..])
  }

  ghost function Finalize(p: Partial): seq<GroupResult> {
    SortedKeysAscend(p.groups.Keys);
    FinalizeKeys(p, SortedKeys(p.groups.Keys))
  }

  method FinalizeGroup(aggs: seq<Agg>, accs: seq<Accum>) returns (values: map<string, Json>)
    ensures values == Values(aggs, accs)
  {
    values := map[];
    var n := MinInt(|aggs|, |accs|);
    for i := 0 to n
      invariant values == Values(aggs[..i], accs[..i])
    {
      values := values[aggs[i].OutputName() := FinalizeValue(accs[i])];
      assert aggs[..i + 1][..i] == aggs[..i] && accs[..i + 1][..i] == accs[..i];
    }
    assert aggs[..|aggs|] == aggs;
    LongerAccs(aggs, accs);
  }

  lemma LongerAccs(aggs: seq<Agg>, accs: seq<Accum>)
    ensures var n := MinInt(|aggs|, |accs|); Values(aggs, accs) == Values(aggs[..n], accs[..n])
  {
    hide FinalizeValue, Agg.OutputName;
    var n := MinInt(|aggs|, |accs|);
    if |aggs| > |accs| {
      assert accs[..n] == accs;
    } else {
      assert aggs[..n] == aggs;
      if n > 0 { LastValue(aggs, accs, accs[..n]); }
    }
  }

  lemma LastValue(aggs: seq<Agg>, a: seq<Accum>, b: seq<Accum>)
    requires 0 < |aggs| == |b| <= |a| && b == a[..|b|]
    ensures Values(aggs, a) == Values(aggs, b)
  {
    hide FinalizeValue, Agg.OutputName;
    var n := |aggs| - 1;
    assert a[..n] == b[..n] && a[n] == b[n];
  }

  lemma NoKeys()
    ensures SortedKeys({}) == []
  {}

  lemma LeastFirst(k: Key, ks: set<Key>)
    requires Least(k, ks)
    ensures SortedKeys(ks) == [k] + SortedKeys(ks - {k})
  {
    LeastUnique(k, SortedKeys(ks)[0], ks);
  }

  /** `Partial::finalize`: one result per group, in key order. */
  method FinalizeInOrder(p: Partial) returns (out: seq<GroupResult>)
    ensures out == Finalize(p)
  {
    hide KeyLe, Values, SortedKeys;
    SortedKeysAscend(p.groups.Keys);
    NoKeys();
    out := [];
    var todo := p.groups.Keys;
    while todo != {}
      invariant todo <= p.groups.Keys
      invariant forall k :: k in SortedKeys(todo) ==> k in p.groups
      invariant out + FinalizeKeys(p, SortedKeys(todo)) == Finalize(p)
      decreases todo
    {
      LeastExists(todo);
      var k :| k in todo && forall x :: x in todo ==> KeyLe(k, x);
      LeastFirst(k, todo);
      SortedKeysAscend(todo - {k});
      var values := FinalizeGroup(p.aggregates, p.groups[k]);
      ghost var rest := SortedKeys(todo - {k});
      assert ([k] + rest)[1..] == rest;
      assert FinalizeKeys(p, [k] + rest) == [GroupResult(k, values)] + FinalizeKeys(p, rest);
      out := out + [GroupResult(k, values)];
      todo := todo - {k};
    }
  }

  lemma {:induction false} FinalizeKeysShape(p: Partial, keys: seq<Key>)
    requires forall k :: k in keys ==> k in p.groups
    ensures |FinalizeKeys(p, keys)| == |keys|
    ensures forall i :: 0 <= i < |keys| ==>
      FinalizeKeys(p, keys)[i] == GroupResult(keys[i], Values(p.aggregates, p.groups[keys[i]]))
  {
    if keys != [] { FinalizeKeysShape(p, keys[1..]); }
  }

  /** Equal aggregates always hold equal states, so writing values by name loses nothing. */
  ghost predicate Consistent(aggs: seq<Agg>, accs: seq<Accum>) {
    |accs| == |aggs| && forall i, j :: 0 <= i < |aggs| && 0 <= j < |aggs| && aggs[i] == aggs[j] ==> accs[i] == accs[j]
  }

  lemma {:induction false} ValuesNamed(aggs: seq<Agg>, accs: seq<Accum>, i: nat)
    requires Consistent(aggs, accs) && i < |aggs|
    ensures aggs[i].OutputName() in Values(aggs, accs)
    ensures Values(aggs, accs)[aggs[i].OutputName()] == FinalizeValue(accs[i])
  {
    var n := |aggs| - 1;
    OutputNameInjective(aggs[i], aggs[n]);
    if i < n { ValuesNamed(aggs[..n], accs[..n], i); }
  }

  lemma {:induction false} MapConsistent(q: Query, show: Json -> string, rows: seq<Row>, k: Key)
    requires k in MapGroups(q, show, rows)
    ensures Consistent(q.aggregates, MapGroups(q, show, rows)[k])
  {
    var front, row := rows[..|rows| - 1], rows[|rows| - 1];
    if k in MapGroups(q, show, front) { MapConsistent(q, show, front, k); }
  }

  /** Each aggregate's value stands under its output name in the group's result. */
  lemma ResultNamed(q: Query, show: Json -> string, rows: seq<Row>, k: Key, i: nat)
    requires k in MapGroups(q, show, rows) && i < |q.aggregates|
    ensures var accs := MapGroups(q, show, rows)[k];
      && |accs| == |q.aggregates|
      && q.aggregates[i].OutputName() in Values(q.aggregates, accs)
      && Values(q.aggregates, accs)[q.aggregates[i].OutputName()] == FinalizeValue(accs[i])
  {
    MapConsistent(q, show, rows, k);
    ValuesNamed(q.aggregates, MapGroups(q, show, rows)[k], i);
  }

  /** Position by position, finalisation lists the groups in key order with their named values. */
  lemma FinalizeAt(p: Partial)
    ensures var keys, out := SortedKeys(p.groups.Keys), Finalize(p);
      && |out| == |keys|
      && forall n :: 0 <= n < |keys| ==>
           keys[n] in p.groups && out[n] == GroupResult(keys[n], Values(p.aggregates, p.groups[keys[n]]))
  {
    hide Values;
    var keys := SortedKeys(p.groups.Keys);
    SortedKeysAscend(p.groups.Keys);
    FinalizeKeysShape(p, keys);
    hide SortedKeys, FinalizeKeys;
    assert forall n :: 0 <= n < |keys| ==> keys[n] in keys;
  }

  /** The answer lists every group once, in ascending key order. */
  lemma FinalizeComplete(p: Partial)
    ensures StrictlyAscending(Map((r: GroupResult) => r.key, Finalize(p)))
    ensures forall k :: k in p.groups <==> exists n :: 0 <= n < |Finalize(p)| && Finalize(p)[n].key == k
  {
    hide Values, Finalize, KeyLe;
    var keys := SortedKeys(p.groups.Keys);
    FinalizeAt(p);
    SortedKeysAscend(p.groups.Keys);
    hide SortedKeys;
    assert Map((r: GroupResult) => r.key, Finalize(p)) == keys;
    forall k | k in p.groups ensures exists n :: 0 <= n < |Finalize(p)| && Finalize(p)[n].key == k {
      var n :| 0 <= n < |keys| && keys[n] == k;
      assert Finalize(p)[n].key == k;
    }
  }

  // ----- ORDER BY and LIMIT -----

  /** Compare by the first key that tells the rows apart, each key in its own direction. */
  function CompareBy<T>(cell: (T, string) -> Json, keys: seq<OrderKey>, a: T, b: T): Ordering {
    if keys == [] then Equal
    else
      var o := CellCmp(cell(a, keys[0].column), cell(b, keys[0].column));
      var directed := if keys[0].dir == Desc then o.Reverse() else o;
      if directed != Equal then directed else CompareBy(cell, keys[1..], a, b)
  }

  function OrderOf<T>(cell: (T, string) -> Json, keys: seq<OrderKey>): (T, T) -> bool {
    (a, b) => CompareBy(cell, keys, a, b) != Greater
  }

  lemma {:induction false} CompareByFlips<T>(cell: (T, string) -> Json, keys: seq<OrderKey>, a: T, b: T)
    ensures CompareBy(cell, keys, b, a) == CompareBy(cell, keys, a, b).Reverse()
  {
    if keys != [] {
      CellOrderIsTotal(cell(a, keys[0].column), cell(b, keys[0].column), Null);
      CompareByFlips(cell, keys[1..], a, b);
    }
  }

  lemma {:induction false} CompareByTransitive<T>(cell: (T, string) -> Json, keys: seq<OrderKey>, a: T, b: T, c: T)
    requires CompareBy(cell, keys, a, b) != Greater && CompareBy(cell, keys, b, c) != Greater
    ensures CompareBy(cell, keys, a, c) != Greater
  {
    hide CellCmp;
    if keys != [] {
      var x, y, z := cell(a, keys[0].column), cell(b, keys[0].column), cell(c, keys[0].column);
      CellOrderIsTotal(x, y, z);
      CellOrderIsTotal(y, z, x);
      CellOrderIsTotal(z, x, y);
      CellOrderIsTotal(z, y, x);
      CellOrderIsTotal(x, z, y);
      CellOrderIsTotal(y, x, z);
      if CellCmp(x, y) == Equal && CellCmp(y, z) == Equal {
        CompareByTransitive(cell, keys[1..], a, b, c);
      }
    }
  }

  /** Any ORDER BY list is a total preorder, whatever the cells hold. */
  lemma OrderIsTotal<T(!new)>(cell: (T, string) -> Json, keys: seq<OrderKey>)
    ensures TotalPreorder(OrderOf(cell, keys))
  {
    var le := OrderOf(cell, keys);
    forall a, b ensures le(a, b) || le(b, a) { CompareByFlips(cell, keys, a, b); }
    forall a, b, c | le(a, b) && le(b, c) ensures le(a, c) { CompareByTransitive(cell, keys, a, b, c); }
  }

  /** `order_rows`/`order_raw_rows`. */
  function Ordered<T>(cell: (T, string) -> Json, keys: seq<OrderKey>, rows: seq<T>): seq<T> {
    if keys == [] then rows else StableSort(rows, OrderOf(cell, keys))
  }

  function Limited<T>(rows: seq<T>, limit: Option<nat>): seq<T> {
    if limit.None? then rows else Take(rows, limit.value)
  }

  function UpTo(limit: Option<nat>, n: nat): nat {
    if limit.None? then n else MinInt(limit.value, n)
  }

  /** `row_cell` with its null default: a group column reads the key, anything else a value. */
  function GroupCell(groupBy: seq<string>): (GroupResult, string) -> Json {
    (g: GroupResult, column: string) =>
      if column in groupBy then
        var at := Position(groupBy, column);
        if at < |g.key| then String(g.key[at]) else Null
      else if column in g.values then g.values[column] else Null
  }

  function Position(names: seq<string>, name: string): (i: nat)
    requires name in names
    ensures i < |names| && names[i] == name && name !in names[..i]
  {
    if names[0] == name then 0 else 1 + Position(names[1..], name)
  }

  function RawCell(row: Row, column: string): Json {
    if column in row then row[column] else Null
  }

  /** `Query::shape`. */
  function Shape(q: Query, rows: seq<GroupResult>): seq<GroupResult> {
    Limited(Ordered(GroupCell(q.groupBy), q.orderBy, rows), q.limit)
  }

  /** A result set shaped in place. */
  class ResultRows<T> {
    var rows: seq<T>

    constructor (rows: seq<T>)
      ensures this.rows == rows
    {
      this.rows := rows;
    }

    method OrderBy(cell: (T, string) -> Json, keys: seq<OrderKey>)
      modifies this
      ensures rows == Ordered(cell, keys, old(rows))
    {
      if keys != [] {
        rows := StableSort(rows, OrderOf(cell, keys));
      }
    }

    method Limit(limit: Option<nat>)
      modifies this
      ensures rows == Limited(old(rows), limit)
    {
      if limit.Some? && limit.value < |rows| {
        rows := rows[..limit.value];
      }
    }
  }

  /** Without keys every row ties, so an empty ORDER BY and a sort by it are the same thing. */
  lemma {:induction false} NoKeysKeepOrder<T>(cell: (T, string) -> Json, rows: seq<T>)
    ensures StableSort(rows, OrderOf(cell, [])) == rows
  {
    if rows != [] {
      NoKeysKeepOrder(cell, rows[..|rows| - 1]);
      assert rows == rows[..|rows| - 1] + [rows[|rows| - 1]];
    }
  }

  /** Shaped rows are the leading part of the one stable arrangement of the input, and no row cut
      off by the limit comes strictly before a returned one. */
  lemma ShapeIsTop<T(!new)>(cell: (T, string) -> Json, keys: seq<OrderKey>, limit: Option<nat>, rows: seq<T>)
    ensures var full, le := Ordered(cell, keys, rows), OrderOf(cell, keys);
      && StableSorted(rows, full, le)
      && multiset(full) == multiset(rows)
      && Limited(full, limit) == full[..|Limited(full, limit)|]
      && |Limited(full, limit)| == (if limit.None? then |rows| else MinInt(limit.value, |rows|))
      && (forall i, j :: 0 <= i < |Limited(full, limit)| <= j < |full| ==> le(full[i], full[j]))
  {
    var le := OrderOf(cell, keys);
    OrderIsTotal(cell, keys);
    if keys == [] { NoKeysKeepOrder(cell, rows); }
    SortIsStable(rows, le);
    SortKeeps(rows, le);
  }

  /** Stable arrangements are unique: anything else sorted with the same tie order is this one. */
  lemma OrderedIsUnique<T(!new)>(cell: (T, string) -> Json, keys: seq<OrderKey>, rows: seq<T>, out: seq<T>)
    ensures StableSorted(rows, out, OrderOf(cell, keys)) <==> out == Ordered(cell, keys, rows)
  {
    var le := OrderOf(cell, keys);
    OrderIsTotal(cell, keys);
    if keys == [] { NoKeysKeepOrder(cell, rows); }
    SortIsStable(rows, le);
    if StableSorted(rows, out, le) { SortedTiesUnique(out, StableSort(rows, le), le); }
  }

  // ----- what ORDER BY means -----

  /** Rows `a` and `b` have equal cells under every key before the m-th. */
  ghost predicate TieBefore<T>(cell: (T, string) -> Json, keys: seq<OrderKey>, m: nat, a: T, b: T)
    requires m <= |keys|
  {
    forall p :: 0 <= p < m ==> CellCmp(cell(a, keys[p].column), cell(b, keys[p].column)) == Equal
  }

  /** In the cell order `a` may stand before `b` under this key: ascending not above it, descending not
      below it. */
  predicate MayPrecede<T>(cell: (T, string) -> Json, key: OrderKey, a: T, b: T) {
    CellCmp(cell(a, key.column), cell(b, key.column)) != if key.dir == Asc then Greater else Less
  }

  lemma {:induction false} FirstKeyDecides<T>(cell: (T, string) -> Json, keys: seq<OrderKey>, m: nat, a: T, b: T)
    requires m < |keys| && TieBefore(cell, keys, m, a, b) && CompareBy(cell, keys, a, b) != Greater
    ensures MayPrecede(cell, keys[m], a, b)
  {
    hide CellCmp;
    if m > 0 {
      assert CellCmp(cell(a, keys[0].column), cell(b, keys[0].column)) == Equal;
      FirstKeyDecides(cell, keys[1..], m - 1, a, b);
    }
  }

  /** Sorted rows ascend by an ASC key and descend by a DESC key, among rows that tie on all keys
      before it: the keys count from left to right. */
  lemma OrderMeans<T(!new)>(cell: (T, string) -> Json, keys: seq<OrderKey>, rows: seq<T>, i: nat, j: nat, m: nat)
    requires i < j < |Ordered(cell, keys, rows)| && m < |keys|
    requires TieBefore(cell, keys, m, Ordered(cell, keys, rows)[i], Ordered(cell, keys, rows)[j])
    ensures MayPrecede(cell, keys[m], Ordered(cell, keys, rows)[i], Ordered(cell, keys, rows)[j])
  {
    OrderIsTotal(cell, keys);
    SortIsStable(rows, OrderOf(cell, keys));
    var out := Ordered(cell, keys, rows);
    assert OrderOf(cell, keys)(out[i], out[j]);
    FirstKeyDecides(cell, keys, m, out[i], out[j]);
  }

  /** The rows a LIMIT cuts off would all have stood after those it keeps. */
  lemma LimitMeans<T(!new)>(cell: (T, string) -> Json, keys: seq<OrderKey>, limit: Option<nat>, rows: seq<T>,
                            a: T, b: T, m: nat)
    requires m < |keys| && TieBefore(cell, keys, m, a, b)
    requires a in Limited(Ordered(cell, keys, rows), limit)
    requires b in Ordered(cell, keys, rows)[|Limited(Ordered(cell, keys, rows), limit)|..]
    ensures MayPrecede(cell, keys[m], a, b)
  {
    var full := Ordered(cell, keys, rows);
    var n := |Limited(full, limit)|;
    var i :| 0 <= i < n && Limited(full, limit)[i] == a;
    var j :| 0 <= j < |full| - n && full[n..][j] == b;
    OrderMeans(cell, keys, rows, i, n + j, m);
  }

  /** Where a key's column is looked up: a GROUP BY column in the group's key, an output name among its
      values, anything else is null. */
  lemma GroupCellMeans(groupBy: seq<string>, g: GroupResult, column: string)
    requires |g.key| == |groupBy|
    ensures forall p :: 0 <= p < |groupBy| && groupBy[p] == column && column !in groupBy[..p] ==>
      GroupCell(groupBy)(g, column) == String(g.key[p])
    ensures column !in groupBy && column in g.values ==> GroupCell(groupBy)(g, column) == g.values[column]
    ensures column !in groupBy && column !in g.values ==> GroupCell(groupBy)(g, column) == Null
  {
    forall p | 0 <= p < |groupBy| && groupBy[p] == column && column !in groupBy[..p]
      ensures GroupCell(groupBy)(g, column) == String(g.key[p])
    {
      PositionIs(groupBy, column, p);
    }
  }

  lemma {:induction false} PositionIs(names: seq<string>, name: string, p: nat)
    requires p < |names| && names[p] == name && name !in names[..p]
    ensures Position(names, name) == p
  {
    if p > 0 {
      assert names[..p][0] == names[0] && names[1..][..p - 1] == names[..p][1..];
      PositionIs(names[1..], name, p - 1);
    }
  }

  /** Raw rows are looked up by column, a missing one being null. */
  lemma RawCellMeans(row: Row, column: string)
    ensures column in row ==> RawCell(row, column) == row[column]
    ensures column !in row ==> RawCell(row, column) == Null
  {}

  /** Group keys ascend at the first text that differs, a key that ends first coming first. */
  lemma {:induction false} KeyOrderMeans(a: Key, b: Key)
    ensures CompareKey(a, b) == Less <==>
      exists i :: 0 <= i <= |a| && i < |b| && a[..i] == b[..i] && (i == |a| || CompareString(a[i], b[i]) == Less)
  {
    if a != [] && b != [] {
      CompareStringFlips(a[0], b[0]);
      if a[0] == b[0] {
        KeyOrderMeans(a[1..], b[1..]);
        if CompareKey(a, b) == Less {
          var i :| 0 <= i <= |a| - 1 && i < |b| - 1 && a[1..][..i] == b[1..][..i]
            && (i == |a| - 1 || CompareString(a[1..][i], b[1..][i]) == Less);
          assert a[..i + 1] == [a[0]] + a[1..][..i] && b[..i + 1] == [b[0]] + b[1..][..i];
        }
        if i :| 0 <= i <= |a| && i < |b| && a[..i] == b[..i] && (i == |a| || CompareString(a[i], b[i]) == Less) {
          assert i > 0;
          assert a[1..][..i - 1] == a[..i][1..] && b[1..][..i - 1] == b[..i][1..];
        }
      } else {
        assert a[..0] == b[..0];
        assert forall i :: 0 < i <= |a| && i <= |b| ==> a[..i][0] == a[0] && b[..i][0] == b[0];
      }
    } else {
      assert a[..0] == b[..0];
    }
  }

  // ----- shaping cannot see the sum lane -----

  function WidenedResult(g: GroupResult): GroupResult {
    g.(values := map c | c in g.values :: Widen(g.values[c]))
  }

  function WidenedResults(rows: seq<GroupResult>): seq<GroupResult> {
    Map(WidenedResult, rows)
  }

  lemma {:induction false} CompareWidened(groupBy: seq<string>, keys: seq<OrderKey>, a: GroupResult, b: GroupResult)
    ensures CompareBy(GroupCell(groupBy), keys, WidenedResult(a), WidenedResult(b))
         == CompareBy(GroupCell(groupBy), keys, a, b)
  {
    if keys != [] {
      var c, cell := keys[0].column, GroupCell(groupBy);
      WidenKeepsOrder(cell(a, c), cell(b, c));
      CompareWidened(groupBy, keys[1..], a, b);
      assert cell(WidenedResult(a), c) == (if c in groupBy then cell(a, c) else Widen(cell(a, c)));
      assert cell(WidenedResult(b), c) == (if c in groupBy then cell(b, c) else Widen(cell(b, c)));
    }
  }

  lemma WidenedPrefix(rows: seq<GroupResult>, limit: Option<nat>)
    ensures WidenedResults(Limited(rows, limit)) == Limited(WidenedResults(rows), limit)
  {
    hide WidenedResult;
  }

  lemma ShapeWidened(q: Query, rows: seq<GroupResult>)
    ensures WidenedResults(Shape(q, rows)) == Shape(q, WidenedResults(rows))
  {
    hide StableSort, CompareBy, GroupCell, WidenedResult;
    WidenedPrefix(Ordered(GroupCell(q.groupBy), q.orderBy, rows), q.limit);
    if q.orderBy != [] {
      var le := OrderOf(GroupCell(q.groupBy), q.orderBy);
      forall a, b ensures le(a, b) == le(WidenedResult(a), WidenedResult(b)) {
        CompareWidened(q.groupBy, q.orderBy, a, b);
      }
      SortMap(rows, WidenedResult, le, le);
    }
  }

  lemma {:induction false} ValuesWidened(aggs: seq<Agg>, a: seq<Accum>, b: seq<Accum>)
    requires Map(x => Widened(x), a) == Map(x => Widened(x), b)
    ensures WidenedResult(GroupResult([], Values(aggs, a))) == WidenedResult(GroupResult([], Values(aggs, b)))
    decreases |aggs|
  {
    hide FinalizeValue, Widened, Agg.OutputName;
    assert |a| == |Map(x => Widened(x), a)| == |b|;
    if aggs == [] || a == [] {
    } else if |aggs| > |a| {
      ValuesWidened(aggs[..|a|], a, b);
    } else {
      var n := |aggs| - 1;
      forall i | 0 <= i < |a| ensures Widened(a[i]) == Widened(b[i]) {
        assert Map(x => Widened(x), a)[i] == Map(x => Widened(x), b)[i];
      }
      assert Map(x => Widened(x), a[..n]) == Map(x => Widened(x), b[..n]);
      ValuesWidened(aggs[..n], a[..n], b[..n]);
      FinalizeWidened(a[n]);
      FinalizeWidened(b[n]);
      WidenedUpdate(Values(aggs[..n], a[..n]), aggs[n].OutputName(), FinalizeValue(a[n]));
      WidenedUpdate(Values(aggs[..n], b[..n]), aggs[n].OutputName(), FinalizeValue(b[n]));
    }
  }

  lemma WidenedUpdate(m: map<string, Json>, c: string, v: Json)
    ensures WidenedResult(GroupResult([], m[c := v])).values
         == WidenedResult(GroupResult([], m)).values[c := Widen(v)]
  {}

  lemma SameKey(k: Key, v: map<string, Json>, w: map<string, Json>)
    requires WidenedResult(GroupResult([], v)) == WidenedResult(GroupResult([], w))
    ensures WidenedResult(GroupResult(k, v)) == WidenedResult(GroupResult(k, w))
  {
    assert WidenedResult(GroupResult(k, v)).values == WidenedResult(GroupResult([], v)).values;
    assert WidenedResult(GroupResult(k, w)).values == WidenedResult(GroupResult([], w)).values;
  }

  /** Equal up to the sum lane before finalisation means equal up to the number lane after it. */
  lemma FinalizeWidenedGroups(p: Partial, r: Partial)
    requires p.aggregates == r.aggregates && WidenedGroups(p.groups) == WidenedGroups(r.groups)
    ensures |Finalize(p)| == |Finalize(r)|
    ensures WidenedResults(Finalize(p)) == WidenedResults(Finalize(r))
  {
    hide Values, WidenedResult, Finalize;
    assert p.groups.Keys == WidenedGroups(p.groups).Keys == r.groups.Keys;
    var keys := SortedKeys(p.groups.Keys);
    FinalizeAt(p);
    FinalizeAt(r);
    hide SortedKeys;
    forall i | 0 <= i < |keys| ensures WidenedResult(Finalize(p)[i]) == WidenedResult(Finalize(r)[i]) {
      var k := keys[i];
      assert WidenedGroups(p.groups)[k] == WidenedGroups(r.groups)[k];
      ValuesWidened(p.aggregates, p.groups[k], r.groups[k]);
      SameKey(k, Values(p.aggregates, p.groups[k]), Values(r.aggregates, r.groups[k]));
    }
  }

  /** The whole query answered in one place. */
  ghost function OneShot(q: Query, show: Json -> string, rows: seq<Row>): seq<GroupResult> {
    Shape(q, Finalize(MapShard(q, show, rows)))
  }

  /** Groups equal up to lanes finalise and shape to results equal up to lanes. */
  lemma ShapedAlike(q: Query, a: Groups, b: Groups)
    requires WidenedGroups(a) == WidenedGroups(b)
    ensures WidenedResults(Shape(q, Finalize(Partial(q.aggregates, a))))
         == WidenedResults(Shape(q, Finalize(Partial(q.aggregates, b))))
  {
    FinalizeWidenedGroups(Partial(q.aggregates, a), Partial(q.aggregates, b));
    ShapeWidened(q, Finalize(Partial(q.aggregates, a)));
    ShapeWidened(q, Finalize(Partial(q.aggregates, b)));
  }
}
