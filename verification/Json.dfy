/** JSON documents, and the equality Python applies to decoded ones. */
module Json {

  /** Integers and floats are one kind of number: Python's `1 == 1.0`. */
  datatype Json =
    | Null
    | Bool(b: bool)
    | Num(n: real)
    | Str(s: string)
    | Arr(items: seq<Json>)
    | Obj(fields: map<string, Json>)

  /** Python's `a == b` on two decoded documents. `True == 1` and `False == 0`
      hold at every depth; everything else is compared structurally. */
  predicate PyEq(a: Json, b: Json) {
    match (a, b)
    case (Arr(x), Arr(y)) => |x| == |y| && forall i | 0 <= i < |x| :: PyEq(x[i], y[i])
    case (Obj(x), Obj(y)) => x.Keys == y.Keys && forall k | k in x :: PyEq(x[k], y[k])
    case (Bool(p), Num(n)) => n == AsNumber(p)
    case (Num(n), Bool(p)) => n == AsNumber(p)
    case _ => a == b
  }

  function AsNumber(b: bool): real {
    if b then 1.0 else 0.0
  }

  /** A representative of a document's `PyEq` class: Booleans become numbers. */
  function Rep(j: Json): Json {
    match j
    case Bool(b) => Num(AsNumber(b))
    case Arr(items) => Arr(seq(|items|, i requires 0 <= i < |items| => Rep(items[i])))
    case Obj(fields) => Obj(map k | k in fields :: Rep(fields[k]))
    case _ => j
  }

  function RepFields(fields: map<string, Json>): map<string, Json> {
    map k | k in fields :: Rep(fields[k])
  }

  /** Python equality is the kernel of `Rep`, hence an equivalence. */
  lemma {:induction false} PyEqIsRepEquality(a: Json, b: Json)
    ensures PyEq(a, b) <==> Rep(a) == Rep(b)
    decreases a
  {
    match (a, b)
    case (Arr(x), Arr(y)) =>
      if |x| == |y| {
        forall i | 0 <= i < |x| ensures PyEq(x[i], y[i]) <==> Rep(a).items[i] == Rep(b).items[i] {
          PyEqIsRepEquality(x[i], y[i]);
        }
      } else {
        assert |Rep(a).items| != |Rep(b).items|;
      }
    case (Obj(x), Obj(y)) =>
      forall k | k in x && k in y ensures PyEq(x[k], y[k]) <==> RepFields(x)[k] == RepFields(y)[k] {
        PyEqIsRepEquality(x[k], y[k]);
      }
      assert RepFields(x).Keys == x.Keys && RepFields(y).Keys == y.Keys;
    case _ =>
  }

  /** The Booleans are the numbers 1 and 0; other scalars equal only themselves. */
  lemma ScalarsMean(a: Json, b: Json)
    ensures forall p, n :: PyEq(Bool(p), Num(n)) == PyEq(Num(n), Bool(p)) == (n == if p then 1.0 else 0.0)
    ensures (a.Bool? && b.Bool?) || (a.Num? && b.Num?) || a.Str? || b.Str? || a.Null? || b.Null? ==> (PyEq(a, b) <==> a == b)
  {
  }
}
