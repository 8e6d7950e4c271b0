// Equi-joins: the hash join is the nested loop row for row, and co-partitioning both sides by any
// hash of the key gives the same rows.
module Joins {
  import opened Prelude
  import opened JsonModel
  import opened QueryModel
  import opened Partials
  import opened Results

  datatype JoinKeys = JoinKeys(left: string, right: string)

  /** `key_str`: a missing or null key joins with nothing. `show` is the JSON text of other cells. */
  function KeyStr(show: Json -> string, row: Row, column: string): Option<string> {
    if column !in row || row[column] == Null then None
    else if row[column].String? then Some(row[column].s)
    else Some(show(row[column]))
  }

  // ----- merging two rows -----

  /** Column names as one-column keys, whose order they share. */
  ghost function AsKeys(names: set<string>): set<Key> {
    set n | n in names :: [n]
  }

  lemma SortedKeysAreNames(names: set<string>)
    ensures forall i :: 0 <= i < |SortedKeys(AsKeys(names))| ==>
      |SortedKeys(AsKeys(names))[i]| == 1 && SortedKeys(AsKeys(names))[i][0] in names
  {
    SortedKeysAscend(AsKeys(names));
    var sorted := SortedKeys(AsKeys(names));
    assert forall i :: 0 <= i < |sorted| ==> sorted[i] in sorted;
  }

  /** Column names in `BTreeMap` order. */
  ghost function SortedNames(names: set<string>): (s: seq<string>)
    ensures forall n :: n in s ==> n in names
  {
    SortedKeysAreNames(names);
    var sorted := SortedKeys(AsKeys(names));
    seq(|sorted|, i requires 0 <= i < |sorted| => sorted[i][0])
  }

  const CLASH := "right."

  /** Add the right row's columns in turn; a name already present goes under the clash prefix. */
  function AddColumns(out: Row, right: Row, names: seq<string>): Row
    requires forall n :: n in names ==> n in right
    decreases |names|
  {
    if names == [] then out
    else
      var n := names[0];
      AddColumns(out[(if n in out then CLASH + n else n) := right[n]], right, names[1..])
  }

  ghost function MergeRows(left: Row, right: Row): Row {
    AddColumns(left, right, SortedNames(right.Keys))
  }

  /** `merge_rows`. */
  method MergeColumns(left: Row, right: Row) returns (out: Row)
    ensures out == MergeRows(left, right)
  {
    hide KeyLe, SortedNames;
    out := left;
    var todo := right.Keys;
    NoNames();
    while todo != {}
      invariant todo <= right.Keys
      invariant AddColumns(out, right, SortedNames(todo)) == MergeRows(left, right)
      decreases todo
    {
      LeastName(todo);
      var n :| n in todo && forall m :: m in todo ==> KeyLe([n], [m]);
      FirstName(todo, n);
      out := out[(if n in out then CLASH + n else n) := right[n]];
      todo := todo - {n};
    }
  }

  lemma NoNames()
    ensures SortedNames({}) == []
  {
    assert AsKeys({}) == {};
    NoKeys();
  }

  lemma LeastName(names: set<string>)
    requires names != {}
    ensures exists n :: n in names && forall m :: m in names ==> KeyLe([n], [m])
  {
    hide KeyLe;
    var x :| x in names;
    assert [x] in AsKeys(names);
    LeastExists(AsKeys(names));
    var k :| Least(k, AsKeys(names));
    assert k[0] in names && k == [k[0]];
    forall m | m in names ensures KeyLe([k[0]], [m]) { assert [m] in AsKeys(names); }
  }

  lemma FirstName(names: set<string>, n: string)
    requires n in names && forall m :: m in names ==> KeyLe([n], [m])
    ensures SortedNames(names) == [n] + SortedNames(names - {n})
  {
    hide KeyLe;
    assert [n] in AsKeys(names);
    assert AsKeys(names - {n}) == AsKeys(names) - {[n]};
    forall k | k in AsKeys(names) ensures KeyLe([n], k) { assert k == [k[0]]; }
    LeastFirst([n], AsKeys(names));
    var sorted, rest := SortedKeys(AsKeys(names)), SortedKeys(AsKeys(names - {n}));
    hide SortedKeys;
    assert sorted == [[n]] + rest;
  }

  /** The name is taken when the right row's column `name` comes up: the left row has it, or an
      earlier right column clashed into it. */
  predicate Clashes(left: Row, right: Row, name: string)
    decreases |name|
  {
    name in left
    || (CLASH <= name
        && var inner := name[|CLASH|..];
        inner in right && CompareString(inner, name) == Less && Clashes(left, right, inner))
  }

  /** Where the right row's column `name` goes. */
  function Place(left: Row, right: Row, name: string): string {
    if Clashes(left, right, name) then CLASH + name else name
  }

  /** The prefixed name is taken too, by a left column or an earlier right one: storing the right
      row's column `name` there overwrites that column. */
  predicate Overwrites(left: Row, right: Row, name: string) {
    && Clashes(left, right, name)
    && (CLASH + name in left || (CLASH + name in right && CompareString(CLASH + name, name) == Less))
  }

  /** `out` has the left row's columns and those of the right row outside `rest`, in their places. */
  ghost predicate Merging(left: Row, right: Row, out: Row, rest: set<string>) {
    forall c :: c in out <==>
      || c in left || (c in right && c !in rest)
      || (CLASH <= c && var m := c[|CLASH|..]; m in right && m !in rest && Clashes(left, right, m))
  }

  /** The columns outside `rest` come before those inside. */
  ghost predicate Split(right: Row, rest: set<string>) {
    && rest <= right.Keys
    && forall d, m :: d in right && d !in rest && m in rest ==> CompareString(d, m) == Less
  }

  lemma NextColumn(left: Row, right: Row, out: Row, rest: set<string>, n: string)
    requires Merging(left, right, out, rest) && Split(right, rest)
    requires n in rest && forall m :: m in rest ==> KeyLe([n], [m])
    ensures n in out <==> Clashes(left, right, n)
    ensures Place(left, right, n) in out <==> Overwrites(left, right, n)
    ensures Merging(left, right, out[Place(left, right, n) := right[n]], rest - {n})
    ensures Split(right, rest - {n})
  {
    assert CLASH <= CLASH + n && (CLASH + n)[|CLASH|..] == n;
    forall m | m in rest && m != n ensures CompareString(n, m) == Less { StrictlyBefore(n, m); }
    forall c | CLASH <= c ensures c == CLASH + c[|CLASH|..] {}
    forall d | d in right ensures d in rest <==> CompareString(d, n) != Less {
      if d in rest { CompareStringFlips(n, d); }
    }
    assert n in out <==> Clashes(left, right, n);
  }

  lemma StrictlyBefore(a: string, b: string)
    requires KeyLe([a], [b]) && a != b
    ensures CompareString(a, b) == Less
  {
    CompareStringFlips(a, b);
    assert CompareKey([a], [b]) == CompareString(a, b);
  }

  /** Adding the remaining columns keeps count of the columns overwritten on the way. */
  lemma {:induction false} AddedColumns(left: Row, right: Row, out: Row, rest: set<string>)
    requires Merging(left, right, out, rest) && Split(right, rest)
    ensures var r := AddColumns(out, right, SortedNames(rest));
      && |r| <= |out| + |rest|
      && (|r| == |out| + |rest| <==> forall n :: n in rest ==> !Overwrites(left, right, n))
      && (|r| == |out| + |rest| ==>
           && (forall c :: c in out ==> c in r && r[c] == out[c])
           && (forall n :: n in rest ==> Place(left, right, n) in r && r[Place(left, right, n)] == right[n]))
    decreases rest
  {
    hide KeyLe, SortedNames, Clashes, Overwrites, Place, Merging, Split;
    NoNames();
    if rest != {} {
      LeastName(rest);
      var n :| n in rest && forall m :: m in rest ==> KeyLe([n], [m]);
      FirstName(rest, n);
      NextColumn(left, right, out, rest, n);
      PlaceIs(left, right, n);
      InRight(right, rest);
      var next := out[Place(left, right, n) := right[n]];
      AddedColumns(left, right, next, rest - {n});
      assert |rest| == |rest - {n}| + 1;
    }
  }

  lemma PlaceIs(left: Row, right: Row, n: string)
    ensures Place(left, right, n) == if Clashes(left, right, n) then CLASH + n else n
  {}

  lemma InRight(right: Row, rest: set<string>)
    requires Split(right, rest)
    ensures rest <= right.Keys
  {}

  /** A merge keeps every column of both rows if and only if no right column overwrites another. It
      then keeps the left columns' values, and each right column's value in its place. */
  lemma MergeLossless(left: Row, right: Row)
    ensures |MergeRows(left, right)| == |left| + |right| <==> forall n :: n in right ==> !Overwrites(left, right, n)
    ensures |MergeRows(left, right)| == |left| + |right| ==>
      && (forall c :: c in left ==> c in MergeRows(left, right) && MergeRows(left, right)[c] == left[c])
      && (forall n :: n in right ==>
            && Place(left, right, n) in MergeRows(left, right)
            && MergeRows(left, right)[Place(left, right, n)] == right[n])
  {
    hide SortedNames, Clashes;
    AddedColumns(left, right, left, right.Keys);
    assert |right.Keys| == |right|;
  }

  /** Without prefixed names nothing is overwritten: a right column is under its own name or, when
      the left row has that name, under the prefixed one. */
  lemma PlainMerge(left: Row, right: Row)
    requires forall c :: c in left || c in right ==> !(CLASH <= c)
    ensures forall n :: n in right ==> !Overwrites(left, right, n)
    ensures forall n :: n in right ==> Place(left, right, n) == if n in left then CLASH + n else n
  {
    forall n | n in right ensures !Overwrites(left, right, n) { assert CLASH <= CLASH + n; }
  }

  /** A left column that already carries the prefix is lost to a clash. */
  lemma ClashLosesColumn()
    ensures var left: Row, right: Row := map["x" := Null, "right.x" := Bool(true)], map["x" := Bool(false)];
      forall c :: c in MergeRows(left, right) ==> MergeRows(left, right)[c] != Bool(true)
  {
    var left: Row, right: Row := map["x" := Null, "right.x" := Bool(true)], map["x" := Bool(false)];
    var names := {"x"};
    assert right.Keys == names;
    assert KeyLe(["x"], ["x"]) by { CompareKeyFlips(["x"], ["x"]); }
    hide KeyLe;
    FirstName(names, "x");
    assert names - {"x"} == {};
    NoNames();
    hide SortedNames;
    assert SortedNames(names) == ["x"];
    assert CLASH + "x" == "right.x";
    assert MergeRows(left, right) == left["right.x" := Bool(false)];
  }

  // ----- the joins -----

  predicate Match(show: Json -> string, keys: JoinKeys, l: Row, r: Row) {
    KeyStr(show, l, keys.left).Some? && KeyStr(show, l, keys.left) == KeyStr(show, r, keys.right)
  }

  /** The merged rows of one left row with every matching right row, in right order. */
  ghost function MatchesOf(show: Json -> string, keys: JoinKeys, l: Row, right: seq<Row>): seq<Row> {
    if right == [] then []
    else
      var r := right[|right| - 1];
      MatchesOf(show, keys, l, right[..|right| - 1]) + if Match(show, keys, l, r) then [MergeRows(l, r)] else []
  }

  /** The join by definition: every pair, left rows outermost. */
  ghost function NestedLoop(show: Json -> string, keys: JoinKeys, left: seq<Row>, right: seq<Row>): seq<Row> {
    if left == [] then []
    else NestedLoop(show, keys, left[..|left| - 1], right) + MatchesOf(show, keys, left[|left| - 1], right)
  }

  /** The positions of the right rows with key `k`, among the first `n`. */
  ghost function Positions(show: Json -> string, column: string, right: seq<Row>, k: string, n: nat): (s: seq<nat>)
    requires n <= |right|
    ensures forall j :: 0 <= j < |s| ==> s[j] < n
  {
    if n == 0 then []
    else
      Positions(show, column, right, k, n - 1) + if KeyStr(show, right[n - 1], column) == Some(k) then [n - 1] else []
  }

  ghost function MergeAt(l: Row, right: seq<Row>, at: seq<nat>): seq<Row>
    requires forall j :: 0 <= j < |at| ==> at[j] < |right|
  {
    if at == [] then []
    else
      MergeAt(l, right, at[..|at| - 1]) + [MergeRows(l, right[at[|at| - 1]])]
  }

  lemma MergePush(l: Row, right: seq<Row>, at: seq<nat>, i: nat)
    requires i < |right| && forall j :: 0 <= j < |at| ==> at[j] < |right|
    ensures MergeAt(l, right, at + [i]) == MergeAt(l, right, at) + [MergeRows(l, right[i])]
  {
    hide MergeRows;
    assert (at + [i])[..|at|] == at;
  }

  lemma MatchesPush(show: Json -> string, keys: JoinKeys, l: Row, right: seq<Row>, n: nat)
    requires n < |right|
    ensures MatchesOf(show, keys, l, right[..n + 1])
         == MatchesOf(show, keys, l, right[..n])
            + if Match(show, keys, l, right[n]) then [MergeRows(l, right[n])] else []
  {
    hide Match, MergeRows;
    assert right[..n + 1][..n] == right[..n];
  }

  lemma {:induction false} PositionsMatch(show: Json -> string, keys: JoinKeys, l: Row, right: seq<Row>, k: string,
                                          n: nat)
    requires n <= |right| && KeyStr(show, l, keys.left) == Some(k)
    ensures MergeAt(l, right, Positions(show, keys.right, right, k, n)) == MatchesOf(show, keys, l, right[..n])
  {
    hide KeyStr, MergeRows;
    if n > 0 {
      PositionsMatch(show, keys, l, right, k, n - 1);
      var at := Positions(show, keys.right, right, k, n - 1);
      MatchesPush(show, keys, l, right, n - 1);
      MergePush(l, right, at, n - 1);
      assert at + [] == at;
      hide MergeAt, MatchesOf;
    }
  }

  /** The row has a key to join by: its cell is there and not null. */
  predicate HasKey(row: Row, column: string) {
    column in row && row[column] != Null
  }

  lemma KeyIsCell(show: Json -> string, row: Row, column: string)
    ensures KeyStr(show, row, column).Some? <==> HasKey(row, column)
  {}

  /** Two rows match if and only if both have a key and the texts of their cells agree: a string's own
      content, the JSON text of anything else. */
  lemma MatchMeans(show: Json -> string, keys: JoinKeys, l: Row, r: Row)
    ensures Match(show, keys, l, r) <==>
      && HasKey(l, keys.left) && HasKey(r, keys.right)
      && var x, y := l[keys.left], r[keys.right];
        (if x.String? then x.s else show(x)) == (if y.String? then y.s else show(y))
  {}

  /** The rows of a join are exactly the merged matching pairs. */
  lemma {:induction false} NestedLoopMeans(show: Json -> string, keys: JoinKeys, left: seq<Row>, right: seq<Row>,
                                           out: Row)
    ensures out in NestedLoop(show, keys, left, right) <==>
      exists l, r :: l in left && r in right && Match(show, keys, l, r) && out == MergeRows(l, r)
  {
    hide Match, MergeRows;
    if left != [] {
      var front, last := left[..|left| - 1], left[|left| - 1];
      assert left == front + [last];
      NestedLoopMeans(show, keys, front, right, out);
      MatchesMean(show, keys, last, right, out);
    }
  }

  lemma {:induction false} MatchesMean(show: Json -> string, keys: JoinKeys, l: Row, right: seq<Row>, out: Row)
    ensures out in MatchesOf(show, keys, l, right) <==>
      exists r :: r in right && Match(show, keys, l, r) && out == MergeRows(l, r)
  {
    hide Match, MergeRows;
    if right != [] {
      var front, last := right[..|right| - 1], right[|right| - 1];
      assert right == front + [last];
      MatchesMean(show, keys, l, front, out);
    }
  }

  /** The order of a join: left rows in their order, and for each its matches in right order. */
  lemma JoinGrows(show: Json -> string, keys: JoinKeys, left: seq<Row>, l: Row, right: seq<Row>, r: Row)
    ensures NestedLoop(show, keys, [], right) == [] && MatchesOf(show, keys, l, []) == []
    ensures NestedLoop(show, keys, left + [l], right)
         == NestedLoop(show, keys, left, right) + MatchesOf(show, keys, l, right)
    ensures MatchesOf(show, keys, l, right + [r])
         == MatchesOf(show, keys, l, right) + if Match(show, keys, l, r) then [MergeRows(l, r)] else []
  {
    hide Match, MergeRows;
    assert (left + [l])[..|left|] == left && (right + [r])[..|right|] == right;
  }

  /** A left row without a key matches nothing, and right rows without one are never matched: leaving
      them out changes no join. */
  lemma NullsNeverJoin(show: Json -> string, keys: JoinKeys, l: Row, right: seq<Row>)
    ensures !HasKey(l, keys.left) ==> MatchesOf(show, keys, l, right) == []
    ensures MatchesOf(show, keys, l, Filter(right, (r: Row) => HasKey(r, keys.right)))
         == MatchesOf(show, keys, l, right)
  {
    if !HasKey(l, keys.left) { NoKeyNoMatch(show, keys, l, right); }
    NullsNeverMatched(show, keys, l, right);
  }

  lemma {:induction false} NullsNeverMatched(show: Json -> string, keys: JoinKeys, l: Row, right: seq<Row>)
    ensures MatchesOf(show, keys, l, Filter(right, (r: Row) => HasKey(r, keys.right)))
         == MatchesOf(show, keys, l, right)
  {
    hide MergeRows;
    if right != [] {
      var front, last := right[..|right| - 1], right[|right| - 1];
      NullsNeverMatched(show, keys, l, front);
      var kept := Filter(front, (r: Row) => HasKey(r, keys.right));
      assert (kept + [last])[..|kept|] == kept && kept + [] == kept;
      assert !HasKey(last, keys.right) ==> MatchesOf(show, keys, l, front) + [] == MatchesOf(show, keys, l, front);
    }
  }

  lemma {:induction false} NoKeyNoMatch(show: Json -> string, keys: JoinKeys, l: Row, right: seq<Row>)
    requires !HasKey(l, keys.left)
    ensures MatchesOf(show, keys, l, right) == []
  {
    if right != [] { NoKeyNoMatch(show, keys, l, right[..|right| - 1]); }
  }

  /** `index` lists, per key, the right rows holding it, in order. */
  ghost predicate Indexes(show: Json -> string, column: string, right: seq<Row>, n: nat, index: map<string, seq<nat>>)
    requires n <= |right|
  {
    forall k ::
      && (k in index <==> Positions(show, column, right, k, n) != [])
      && (k in index ==> index[k] == Positions(show, column, right, k, n))
  }

  method BuildIndex(show: Json -> string, column: string, right: seq<Row>) returns (index: map<string, seq<nat>>)
    ensures Indexes(show, column, right, |right|, index)
  {
    hide KeyStr;
    index := map[];
    for i := 0 to |right|
      invariant Indexes(show, column, right, i, index)
    {
      var k := KeyStr(show, right[i], column);
      if k.Some? {
        index := index[k.value := (if k.value in index then index[k.value] else []) + [i]];
      }
    }
  }

  method ProbeIndex(l: Row, right: seq<Row>, at: seq<nat>) returns (rows: seq<Row>)
    requires forall j :: 0 <= j < |at| ==> at[j] < |right|
    ensures rows == MergeAt(l, right, at)
  {
    hide MergeRows;
    rows := [];
    for j := 0 to |at|
      invariant rows == MergeAt(l, right, at[..j])
    {
      var row := MergeColumns(l, right[at[j]]);
      assert at[..j + 1][..j] == at[..j];
      rows := rows + [row];
    }
    assert at[..|at|] == at;
  }

  /** `hash_join`: index the right side by key, then probe it with each left row. The result is the
      nested loop's, as an exact sequence. */
  method HashJoin(show: Json -> string, keys: JoinKeys, left: seq<Row>, right: seq<Row>) returns (out: seq<Row>)
    ensures out == NestedLoop(show, keys, left, right)
  {
    hide KeyStr, MergeAt, MatchesOf;
    var index := BuildIndex(show, keys.right, right);
    out := [];
    for n := 0 to |left|
      invariant out == NestedLoop(show, keys, left[..n], right)
    {
      var l := left[n];
      assert left[..n + 1][..n] == left[..n];
      var k := KeyStr(show, l, keys.left);
      if k.None? {
        KeyIsCell(show, l, keys.left);
        NoKeyNoMatch(show, keys, l, right);
        continue;
      }
      PositionsMatch(show, keys, l, right, k.value, |right|);
      assert right[..|right|] == right;
      var at := if k.value in index then index[k.value] else [];
      assert at == Positions(show, keys.right, right, k.value, |right|);
      var rows := ProbeIndex(l, right, at);
      out := out + rows;
    }
    assert left[..|left|] == left;
  }

  /** The rows of bucket `b`: those whose key hashes there. */
  ghost function Bucket(show: Json -> string, hash: string -> nat, column: string, rows: seq<Row>, n: nat,
                        b: nat): seq<Row>
    requires n > 0
  {
    if rows == [] then []
    else
      var k := KeyStr(show, rows[|rows| - 1], column);
      Bucket(show, hash, column, rows[..|rows| - 1], n, b)
      + if k.Some? && hash(k.value) % n == b then [rows[|rows| - 1]] else []
  }

  /** A bucket is made of the rows with a key whose text hashes there, in their order. */
  lemma BucketMeans(show: Json -> string, hash: string -> nat, column: string, rows: seq<Row>, row: Row, n: nat, b: nat)
    requires n > 0
    ensures Bucket(show, hash, column, [], n, b) == []
    ensures Bucket(show, hash, column, rows + [row], n, b)
         == Bucket(show, hash, column, rows, n, b)
            + if HasKey(row, column) && hash(if row[column].String? then row[column].s else show(row[column])) % n == b
              then [row] else []
  {
    assert (rows + [row])[..|rows|] == rows;
  }

  /** `partition_by_key`: keyless rows are dropped, a partition count of zero means one. */
  method PartitionByKey(show: Json -> string, hash: string -> nat, column: string, rows: seq<Row>, partitions: nat)
    returns (buckets: seq<seq<Row>>)
    ensures |buckets| == MaxInt(partitions, 1)
    ensures forall b :: 0 <= b < |buckets| ==> buckets[b] == Bucket(show, hash, column, rows, |buckets|, b)
  {
    var n := MaxInt(partitions, 1);
    buckets := seq(n, _ => []);
    for i := 0 to |rows|
      invariant |buckets| == n
      invariant forall b :: 0 <= b < n ==> buckets[b] == Bucket(show, hash, column, rows[..i], n, b)
    {
      assert rows[..i + 1][..i] == rows[..i];
      var k := KeyStr(show, rows[i], column);
      if k.Some? {
        var b := hash(k.value) % n;
        buckets := buckets[b := buckets[b] + [rows[i]]];
      }
    }
    assert rows[..|rows|] == rows;
  }

  ghost function BucketJoins(show: Json -> string, hash: string -> nat, keys: JoinKeys, left: seq<Row>,
                             right: seq<Row>, n: nat)
    : seq<seq<Row>>
    requires n > 0
  {
    seq(n, b requires 0 <= b < n =>
      NestedLoop(show, keys, Bucket(show, hash, keys.left, left, n, b), Bucket(show, hash, keys.right, right, n, b)))
  }

  /** `distributed_join`: partition both sides alike, join bucket by bucket, concatenate. */
  method DistributedJoin(show: Json -> string, hash: string -> nat, keys: JoinKeys, left: seq<Row>, right: seq<Row>,
                         partitions: nat) returns (out: seq<Row>)
    ensures out == Flatten(BucketJoins(show, hash, keys, left, right, MaxInt(partitions, 1)))
  {
    hide NestedLoop, Bucket;
    var n := MaxInt(partitions, 1);
    var lb := PartitionByKey(show, hash, keys.left, left, n);
    var rb := PartitionByKey(show, hash, keys.right, right, n);
    ghost var joins := BucketJoins(show, hash, keys, left, right, n);
    out := [];
    for i := 0 to n
      invariant out == Flatten(joins[..i])
    {
      var joined := HashJoin(show, keys, lb[i], rb[i]);
      assert joins[..i + 1][..i] == joins[..i];
      out := out + joined;
    }
    assert joins[..n] == joins;
  }

  // ----- co-partitioning keeps the answer -----

  /** A left row of bucket `b` finds all its matches in right bucket `b`. */
  lemma {:induction false} MatchesInBucket(show: Json -> string, hash: string -> nat, keys: JoinKeys, l: Row,
                                           right: seq<Row>, n: nat, b: nat)
    requires n > 0 && KeyStr(show, l, keys.left).Some? && hash(KeyStr(show, l, keys.left).value) % n == b
    ensures MatchesOf(show, keys, l, Bucket(show, hash, keys.right, right, n, b)) == MatchesOf(show, keys, l, right)
  {
    hide KeyStr, MergeRows;
    if right != [] {
      var front, r := right[..|right| - 1], right[|right| - 1];
      MatchesInBucket(show, hash, keys, l, front, n, b);
      var kept := Bucket(show, hash, keys.right, front, n, b);
      assert (kept + [r])[..|kept|] == kept && kept + [] == kept;
    }
  }

  lemma {:induction false} BucketAgainstAll(show: Json -> string, hash: string -> nat, keys: JoinKeys, left: seq<Row>,
                                            right: seq<Row>, n: nat, b: nat)
    requires n > 0
    ensures NestedLoop(show, keys,
                       Bucket(show, hash, keys.left, left, n, b), Bucket(show, hash, keys.right, right, n, b))
         == NestedLoop(show, keys, Bucket(show, hash, keys.left, left, n, b), right)
  {
    hide KeyStr, MatchesOf;
    if left != [] {
      var front, l := left[..|left| - 1], left[|left| - 1];
      BucketAgainstAll(show, hash, keys, front, right, n, b);
      var kept := Bucket(show, hash, keys.left, front, n, b);
      var k := KeyStr(show, l, keys.left);
      if k.Some? && hash(k.value) % n == b {
        assert (kept + [l])[..|kept|] == kept;
        MatchesInBucket(show, hash, keys, l, right, n, b);
      } else {
        assert kept + [] == kept;
      }
    }
  }

  /** The left buckets joined against the whole right side. */
  ghost function LeftBucketJoins(show: Json -> string, hash: string -> nat, keys: JoinKeys, left: seq<Row>,
                                 right: seq<Row>, n: nat)
    : (s: seq<seq<Row>>)
    requires n > 0
    ensures |s| == n
    ensures forall b :: 0 <= b < n ==> s[b] == NestedLoop(show, keys, Bucket(show, hash, keys.left, left, n, b), right)
  {
    seq(n, b requires 0 <= b < n => NestedLoop(show, keys, Bucket(show, hash, keys.left, left, n, b), right))
  }

  lemma {:induction false} LeftBucketsCover(show: Json -> string, hash: string -> nat, keys: JoinKeys, left: seq<Row>,
                                            right: seq<Row>, n: nat)
    requires n > 0
    ensures multiset(Flatten(LeftBucketJoins(show, hash, keys, left, right, n)))
         == multiset(NestedLoop(show, keys, left, right))
  {
    hide KeyStr, MatchesOf, Flatten, LeftBucketJoins;
    var joins := LeftBucketJoins(show, hash, keys, left, right, n);
    if left == [] {
      FlattenEmpty(joins);
    } else {
      var front, l := left[..|left| - 1], left[|left| - 1];
      LeftBucketsCover(show, hash, keys, front, right, n);
      var before := LeftBucketJoins(show, hash, keys, front, right, n);
      var k, matches := KeyStr(show, l, keys.left), MatchesOf(show, keys, l, right);
      if k.None? {
        KeyIsCell(show, l, keys.left);
        NoKeyNoMatch(show, keys, l, right);
        forall c | 0 <= c < n ensures joins[c] == before[c] {
          assert Bucket(show, hash, keys.left, left, n, c) == Bucket(show, hash, keys.left, front, n, c);
        }
        assert joins == before;
        assert NestedLoop(show, keys, front, right) + [] == NestedLoop(show, keys, front, right);
      } else {
        var b := hash(k.value) % n;
        forall c | 0 <= c < n ensures joins[c] == if c == b then before[c] + matches else before[c] {
          var kept := Bucket(show, hash, keys.left, front, n, c);
          assert (kept + [l])[..|kept|] == kept && kept + [] == kept;
        }
        assert joins == before[b := before[b] + matches];
        FlattenPush(before, b, matches);
      }
    }
  }

  /** For any hash and any partition count the distributed join is the hash join as a multiset. */
  lemma DistributedIsHashJoin(show: Json -> string, hash: string -> nat, keys: JoinKeys, left: seq<Row>,
                              right: seq<Row>, n: nat)
    requires n > 0
    ensures multiset(Flatten(BucketJoins(show, hash, keys, left, right, n)))
         == multiset(NestedLoop(show, keys, left, right))
  {
    hide NestedLoop, Bucket, Flatten;
    forall b | 0 <= b < n
      ensures BucketJoins(show, hash, keys, left, right, n)[b] == LeftBucketJoins(show, hash, keys, left, right, n)[b]
    {
      BucketAgainstAll(show, hash, keys, left, right, n, b);
    }
    assert BucketJoins(show, hash, keys, left, right, n) == LeftBucketJoins(show, hash, keys, left, right, n);
    LeftBucketsCover(show, hash, keys, left, right, n);
  }

  /** Join then GROUP BY: aggregating the distributed join gives the partial of aggregating the hash
      join, for any partition count: identically where Fits holds, up to sum lanes always. */
  lemma JoinThenGroupBy(q: Query, show: Json -> string, hash: string -> nat, keys: JoinKeys, left: seq<Row>,
                        right: seq<Row>, n: nat)
    requires n > 0
    ensures var dist := Flatten(BucketJoins(show, hash, keys, left, right, n));
      var joined := NestedLoop(show, keys, left, right);
      && WidenedGroups(MapGroups(q, show, dist)) == WidenedGroups(MapGroups(q, show, joined))
      && (Fits(q, show, joined) ==> MapShard(q, show, dist) == MapShard(q, show, joined))
  {
    hide NestedLoop, BucketJoins, MapGroups, WidenedGroups, Fits, Flatten;
    DistributedIsHashJoin(show, hash, keys, left, right, n);
    AnyPlanSameAnswer(q, show, Scan(Flatten(BucketJoins(show, hash, keys, left, right, n))),
                      NestedLoop(show, keys, left, right));
  }
}
