// JSON cells as the engine sees them: coercion to numbers and the partial and total cell orders.
// Floats are exact reals; infinities and NaN do not occur as cell values.
module JsonModel {
  import opened Prelude
  import opened Numerals

  datatype Num = Int(i: int) | Float(r: real)
  {
    function Real(): real {
      match this
      case Int(i) => i as real
      case Float(r) => r
    }
  }

  datatype Json =
    | Null
    | Bool(b: bool)
    | Number(n: Num)
    | String(s: string)
    | Array(items: seq<Json>)
    | Object(fields: map<string, Json>)

  type Row = map<string, Json>

  /** `as_f64`: a number, or a string that parses as one. */
  function AsF64(v: Json): Option<Floating> {
    match v
    case Number(n) => Some(Finite(n.Real()))
    case String(s) => ParseF64(s)
    case _ => None
  }

  /** The value of a cell that reads as a finite number. */
  function AsReal(v: Json): Option<real> {
    match AsF64(v)
    case Some(Finite(r)) => Some(r)
    case _ => None
  }

  /** `as_number`: keeps integral cells exact, trimming strings first. */
  function AsNumber(v: Json): Option<Num> {
    match v
    case Number(n) => Some(n)
    case String(s) =>
      (match ParseI128(Trim(s))
       case Some(i) => Some(Int(i))
       case None =>
         match ParseF64(Trim(s))
         case Some(Finite(r)) => Some(Float(r))
         case _ => None)
    case _ => None
  }

  function CompareInt(a: int, b: int): Ordering {
    if a < b then Less else if a == b then Equal else Greater
  }

  function CompareReal(a: real, b: real): Ordering {
    if a < b then Less else if a == b then Equal else Greater
  }

  /** Lexicographic order of strings by code point. */
  function CompareString(a: string, b: string): Ordering {
    if a == "" && b == "" then Equal
    else if a == "" then Less
    else if b == "" then Greater
    else if a[0] < b[0] then Less
    else if a[0] > b[0] then Greater
    else CompareString(a[1..], b[1..])
  }

  /** `json_cmp`: an order within one scalar type, nothing across types. */
  function JsonCmp(a: Json, b: Json): Option<Ordering> {
    match (a, b)
    case (Null, Null) => Some(Equal)
    case (Bool(x), Bool(y)) => Some(CompareInt(if x then 1 else 0, if y then 1 else 0))
    case (Number(x), Number(y)) => Some(CompareReal(x.Real(), y.Real()))
    case (String(x), String(y)) => Some(CompareString(x, y))
    case _ => None
  }

  function TypeRank(v: Json): nat {
    match v
    case Null => 0
    case Bool(_) => 1
    case Number(_) => 2
    case String(_) => 3
    case Array(_) => 4
    case Object(_) => 5
  }

  /** `cell_cmp`: `json_cmp` where it is defined, type rank elsewhere. */
  function CellCmp(a: Json, b: Json): Ordering {
    match JsonCmp(a, b)
    case Some(o) => o
    case None => CompareInt(TypeRank(a), TypeRank(b))
  }

  lemma {:induction false} CompareStringFlips(a: string, b: string)
    ensures CompareString(b, a) == CompareString(a, b).Reverse()
    ensures CompareString(a, b) == Equal <==> a == b
  {
    if a != "" && b != "" {
      CompareStringFlips(a[1..], b[1..]);
      assert a == [a[0]] + a[1..] && b == [b[0]] + b[1..];
    }
  }

  lemma {:induction false} CompareStringTransitive(a: string, b: string, c: string)
    requires CompareString(a, b) != Greater && CompareString(b, c) != Greater
    ensures CompareString(a, c) != Greater
    ensures CompareString(a, c) == Equal ==> CompareString(a, b) == Equal && CompareString(b, c) == Equal
  {
    if a != "" && b != "" && c != "" && a[0] == b[0] == c[0] {
      CompareStringTransitive(a[1..], b[1..], c[1..]);
    }
  }

  /** `cell_cmp` is a total preorder over every JSON value: antisymmetric as a three-way outcome and
      transitive, with no incomparable pair. */
  lemma CellOrderIsTotal(a: Json, b: Json, c: Json)
    ensures CellCmp(b, a) == CellCmp(a, b).Reverse()
    ensures CellCmp(a, b) != Greater && CellCmp(b, c) != Greater ==> CellCmp(a, c) != Greater
  {
    if a.String? && b.String? { CompareStringFlips(a.s, b.s); }
    if a.String? && b.String? && c.String? && CellCmp(a, b) != Greater && CellCmp(b, c) != Greater {
      CompareStringTransitive(a.s, b.s, c.s);
    }
  }

  /** Strings differ first where the lesser one ends or has the lesser character. */
  lemma {:induction false} CompareStringMeans(a: string, b: string)
    ensures CompareString(a, b) == Less <==>
      exists i :: 0 <= i <= |a| && i < |b| && a[..i] == b[..i] && (i == |a| || a[i] < b[i])
  {
    if a != "" && b != "" && a[0] == b[0] {
      CompareStringMeans(a[1..], b[1..]);
      if CompareString(a, b) == Less {
        var i :| 0 <= i <= |a| - 1 && i < |b| - 1 && a[1..][..i] == b[1..][..i]
          && (i == |a| - 1 || a[1..][i] < b[1..][i]);
        assert a[..i + 1] == [a[0]] + a[1..][..i] && b[..i + 1] == [b[0]] + b[1..][..i];
      }
      if i :| 0 <= i <= |a| && i < |b| && a[..i] == b[..i] && (i == |a| || a[i] < b[i]) {
        assert i > 0;
        assert a[1..][..i - 1] == a[..i][1..] && b[1..][..i - 1] == b[..i][1..];
      }
    } else if a != "" && b != "" {
      assert a[..0] == b[..0];
      assert forall i :: 0 < i <= |a| && i <= |b| ==> a[..i][0] == a[0] && b[..i][0] == b[0];
    } else {
      assert a[..0] == b[..0];
    }
  }

  /** Cells of different types sort by type: null, booleans, numbers, strings, arrays, objects. */
  lemma TypesInOrder(b: bool, n: Num, s: string, items: seq<Json>, fields: map<string, Json>)
    ensures CellCmp(Null, Bool(b)) == CellCmp(Bool(b), Number(n)) == CellCmp(Number(n), String(s)) == Less
    ensures CellCmp(String(s), Array(items)) == CellCmp(Array(items), Object(fields)) == Less
    ensures CellCmp(Bool(false), Bool(true)) == Less
  {}

  /** Numbers sort by value, whether integers or floats. */
  lemma NumbersByValue(m: Num, n: Num)
    ensures CellCmp(Number(m), Number(n)) == Less <==> m.Real() < n.Real()
    ensures CellCmp(Number(m), Number(n)) == Equal <==> m.Real() == n.Real()
  {}

  /** What SUM adds for a cell: a number as it is, integer or not; a string, blanks around it aside, as
      the i128 integer it spells or else as the decimal it spells; anything else not at all. */
  lemma NumberMeans(v: Json)
    ensures v.Number? ==> AsNumber(v) == Some(v.n)
    ensures v.String? ==>
      match AsNumber(v)
      case Some(Int(i)) => ParseInt(Trim(v.s)) == Some(i) && I128_MIN <= i <= I128_MAX
      case Some(Float(r)) =>
        && ParseF64(Trim(v.s)) == Some(Finite(r))
        && (ParseInt(Trim(v.s)).Some? ==> !(I128_MIN <= ParseInt(Trim(v.s)).value <= I128_MAX))
      case None => ParseI128(Trim(v.s)).None? && (ParseF64(Trim(v.s)).Some? ==> !ParseF64(Trim(v.s)).value.Finite?)
    ensures !v.Number? && !v.String? ==> AsNumber(v).None? && AsF64(v).None?
    ensures v.Number? ==> AsReal(v) == Some(v.n.Real())
    ensures v.String? ==> (forall r :: AsReal(v) == Some(r) <==> ParseF64(v.s) == Some(Finite(r)))
  {
    hide ParseInt, ParseF64, Trim;
  }

  // ----- erasing the integer/float distinction -----

  /** The cell with an integral number read as the float of the same value. */
  function Widen(v: Json): Json {
    match v
    case Number(Int(i)) => Number(Float(i as real))
    case _ => v
  }

  lemma WidenKeepsOrder(a: Json, b: Json)
    ensures CellCmp(Widen(a), Widen(b)) == CellCmp(a, b)
  {}
}
