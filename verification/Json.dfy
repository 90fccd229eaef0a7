/** Decoded JSON values, as the Python tools see them, and Python's equality on them. */
module Json {

  type Positive = n: int | n > 0 witness 1

  /** A finite float is the ratio of two integers. */
  datatype Value =
    | Null
    | Bool(b: bool)
    | Int(n: int)
    | Float(numerator: int, denominator: Positive)
    | Infinity(negative: bool)
    | NaN
    | Str(s: string)
    | Arr(items: seq<Value>)
    | Obj(fields: Fields)

  type Fields = map<string, Value>

  /** `fields.get(key)`: an absent field reads as null. */
  function Get(fields: Fields, key: string): Value {
    if key in fields then fields[key] else Null
  }

  predicate Numeric(v: Value) {
    v.Bool? || v.Int? || v.Float?
  }

  function Number(v: Value): real
    requires Numeric(v)
  {
    match v
    case Bool(b) => if b then 1.0 else 0.0
    case Int(n) => n as real
    case Float(numerator, denominator) => numerator as real / denominator as real
  }

  /** The decoder of JSON text has one NaN object, and Python's containers take an element to equal itself. */
  predicate SameNaN(x: Value, y: Value) {
    x.NaN? && y.NaN?
  }

  /**
   Python's `==` on decoded values: numbers compare across their types, and a NaN outside a container equals nothing.
   */
  predicate Eq(x: Value, y: Value)
    decreases x
  {
    match x
    case NaN => false
    case Null => y.Null?
    case Infinity(_) => x == y
    case Str(_) => x == y
    case Arr(items) => y.Arr? && |items| == |y.items| &&
                       forall i | 0 <= i < |items| :: SameNaN(items[i], y.items[i]) || Eq(items[i], y.items[i])
    case Obj(fields) => y.Obj? && fields.Keys == y.fields.Keys &&
                         forall k | k in fields :: SameNaN(fields[k], y.fields[k]) || Eq(fields[k], y.fields[k])
    case _ => Numeric(y) && Number(x) == Number(y)
  }

  /** A decoded value equals itself unless it is a NaN; one inside a container does no harm. */
  lemma {:induction false} EqSelf(v: Value)
    ensures Eq(v, v) <==> !v.NaN?
  {
    match v
    case Arr(items) =>
      forall i | 0 <= i < |items| ensures SameNaN(items[i], items[i]) || Eq(items[i], items[i]) {
        EqSelf(items[i]);
      }
    case Obj(fields) =>
      forall k | k in fields ensures SameNaN(fields[k], fields[k]) || Eq(fields[k], fields[k]) {
        EqSelf(fields[k]);
      }
    case _ =>
  }

  /** A value without floats, booleans and NaN, for which Python's equality is identity. */
  predicate Plain(v: Value) {
    match v
    case Bool(_) => false
    case Float(_, _) => false
    case NaN => false
    case Arr(items) => forall i | 0 <= i < |items| :: Plain(items[i])
    case Obj(fields) => forall k | k in fields :: Plain(fields[k])
    case _ => true
  }

  /** On plain values, equality is sameness. */
  lemma {:induction false} EqIsSame(x: Value, y: Value)
    requires Plain(x) && Plain(y)
    ensures Eq(x, y) <==> x == y
    decreases x
  {
    match x
    case Arr(items) =>
      if y.Arr? && |items| == |y.items| {
        forall i | 0 <= i < |items| ensures Eq(items[i], y.items[i]) <==> items[i] == y.items[i] {
          EqIsSame(items[i], y.items[i]);
        }
        assert !SameNaN(x, y);
      }
    case Obj(fields) =>
      if y.Obj? && fields.Keys == y.fields.Keys {
        forall k | k in fields ensures Eq(fields[k], y.fields[k]) <==> fields[k] == y.fields[k] {
          EqIsSame(fields[k], y.fields[k]);
        }
      }
    case _ =>
  }

  /** Numbers of different types are equal by value: booleans are 0 and 1, and a float is a ratio. */
  lemma EqAcrossTypes(n: int, b: bool, numerator: int, denominator: Positive)
    ensures Eq(Int(n), Bool(b)) <==> n == if b then 1 else 0
    ensures Eq(Int(n), Float(numerator, denominator)) <==> n * denominator == numerator
    ensures !Eq(NaN, NaN) && Eq(Arr([NaN]), Arr([NaN]))
  {
    var ratio := numerator as real / denominator as real;
    assert ratio * denominator as real == numerator as real;
    if n as real == ratio {
      assert (n * denominator) as real == numerator as real;
    }
    if n * denominator == numerator {
      assert n as real * denominator as real == numerator as real;
      assert ratio == n as real;
    }
  }
}
