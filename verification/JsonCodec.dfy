/**
 One lossless way to write decoded JSON values as bytes. The theorems about replay assume nothing of JSON text but that
 values survive it; this codec shows that the assumption can be met.
 */
module JsonCodec {
  import opened Bytes
  import opened Json
  import opened Wrappers
  import Utf8

  function Unary(n: nat): (s: bytes)
    ensures |s| == n + 1
  {
    if n == 0 then [0] else [1] + Unary(n - 1)
  }

  function DumpInt(n: int): (s: bytes)
    ensures |s| == (if n >= 0 then n else -n) + 2
  {
    if n >= 0 then [0] + Unary(n) else [1] + Unary(-n)
  }

  function DumpString(text: string): (s: bytes)
    ensures |s| <= 5 * |text| + 1
  {
    if text == [] then [0] else [1] + (Utf8.EncodeChar(text[0]) + DumpString(text[1..]))
  }

  ghost function Dump(v: Value): (s: bytes)
    ensures s != []
    decreases v, 0
  {
    match v
    case Null => [0]
    case Bool(b) => [1, if b then 1 else 0]
    case Int(n) => [2] + DumpInt(n)
    case Float(numerator, denominator) => [3] + (DumpInt(numerator) + DumpInt(denominator))
    case Infinity(negative) => [4, if negative then 1 else 0]
    case NaN => [5]
    case Str(text) => [6] + DumpString(text)
    case Arr(items) => [7] + DumpItems(v, 0)
    case Obj(fields) => [8] + DumpFields(v, fields.Keys)
  }

  /** The items of an array from the one at index `from`. */
  ghost function DumpItems(v: Value, from: nat): bytes
    requires v.Arr? && from <= |v.items|
    decreases v, 0, |v.items| - from
  {
    if from == |v.items| then [0] else [1] + (Dump(v.items[from]) + DumpItems(v, from + 1))
  }

  /** The fields of an object with the given keys, in an order that depends on the keys alone. */
  ghost function DumpFields(v: Value, keys: set<string>): bytes
    requires v.Obj? && keys <= v.fields.Keys
    decreases v, 0, |keys|
  {
    if keys == {} then [0]
    else
      var key := AnyKey(keys);
      [1] + (DumpString(key) + (Dump(v.fields[key]) + DumpFields(v, keys - {key})))
  }

  ghost function AnyKey(keys: set<string>): (key: string)
    requires keys != {}
    ensures key in keys
  {
    var key :| key in keys; key
  }

  // ---------- No encoding is the start of another ----------

  lemma Cancel(a: byte, one: bytes, r: bytes, b: byte, two: bytes, s: bytes)
    requires [a] + one + r == [b] + two + s
    ensures a == b && one + r == two + s
  {
    var left, right := [a] + one + r, [b] + two + s;
    assert left[0] == a && right[0] == b;
    assert left[1..] == one + r && right[1..] == two + s;
  }

  lemma {:induction false} UnaryEnds(n: nat, m: nat, r: bytes, s: bytes)
    requires Unary(n) + r == Unary(m) + s
    ensures n == m && r == s
  {
    assert (Unary(n) + r)[0] == Unary(n)[0] && (Unary(m) + s)[0] == Unary(m)[0];
    if n == 0 {
      assert (Unary(n) + r)[1..] == r && (Unary(m) + s)[1..] == s;
    } else {
      Cancel(1, Unary(n - 1), r, 1, Unary(m - 1), s);
      UnaryEnds(n - 1, m - 1, r, s);
    }
  }

  lemma IntEnds(n: int, m: int, r: bytes, s: bytes)
    requires DumpInt(n) + r == DumpInt(m) + s
    ensures n == m && r == s
  {
    hide Unary;
    var one, two := if n >= 0 then n else -n, if m >= 0 then m else -m;
    Cancel(if n >= 0 then 0 else 1, Unary(one), r, if m >= 0 then 0 else 1, Unary(two), s);
    UnaryEnds(one, two, r, s);
  }

  lemma CharEnds(c: char, d: char, r: bytes, s: bytes)
    requires Utf8.EncodeChar(c) + r == Utf8.EncodeChar(d) + s
    ensures c == d && r == s
  {
    hide Utf8.EncodeChar, Utf8.DecodeHead;
    Utf8.DecodeHeadOfEncodeChar(c, r);
    Utf8.DecodeHeadOfEncodeChar(d, s);
    var n := |Utf8.EncodeChar(c)|;
    assert (Utf8.EncodeChar(c) + r)[n..] == r && (Utf8.EncodeChar(d) + s)[n..] == s;
  }

  lemma Regroup(a: byte, x: bytes, y: bytes, r: bytes)
    ensures [a] + (x + y) + r == [a] + (x + (y + r)) && x + y + r == x + (y + r)
  {
  }

  lemma {:induction false} StringEnds(one: string, two: string, r: bytes, s: bytes)
    requires DumpString(one) + r == DumpString(two) + s
    ensures one == two && r == s
  {
    hide Utf8.EncodeChar;
    assert (DumpString(one) + r)[0] == DumpString(one)[0] && (DumpString(two) + s)[0] == DumpString(two)[0];
    if one == [] {
      assert (DumpString(one) + r)[1..] == r && (DumpString(two) + s)[1..] == s;
    } else {
      var c, d, x, y := one[0], two[0], DumpString(one[1..]), DumpString(two[1..]);
      Cancel(1, Utf8.EncodeChar(c) + x, r, 1, Utf8.EncodeChar(d) + y, s);
      Regroup(1, Utf8.EncodeChar(c), x, r);
      Regroup(1, Utf8.EncodeChar(d), y, s);
      CharEnds(c, d, x + r, y + s);
      StringEnds(one[1..], two[1..], r, s);
      assert one == [c] + one[1..] && two == [d] + two[1..];
    }
  }

  /** What follows the tag of a value. */
  ghost function Payload(v: Value): bytes {
    Dump(v)[1..]
  }

  lemma Tagged(v: Value)
    ensures Dump(v) == [Dump(v)[0]] + Payload(v)
  {
  }

  lemma {:induction false} ItemsEnd(v: Value, from: nat, w: Value, r: bytes, s: bytes)
    requires v.Arr? && w.Arr? && from <= |v.items| && from <= |w.items|
    requires DumpItems(v, from) + r == DumpItems(w, from) + s
    ensures v.items[from..] == w.items[from..] && r == s
    decreases v, 0, |v.items| - from
  {
    hide Dump;
    var one, two := DumpItems(v, from), DumpItems(w, from);
    assert (one + r)[0] == one[0] && (two + s)[0] == two[0];
    if from == |v.items| {
      assert (one + r)[1..] == r && (two + s)[1..] == s;
    } else {
      var x, y := DumpItems(v, from + 1), DumpItems(w, from + 1);
      Cancel(1, Dump(v.items[from]) + x, r, 1, Dump(w.items[from]) + y, s);
      Regroup(1, Dump(v.items[from]), x, r);
      Regroup(1, Dump(w.items[from]), y, s);
      DumpEnds(v.items[from], w.items[from], x + r, y + s);
      ItemsEnd(v, from + 1, w, r, s);
      assert v.items[from..] == [v.items[from]] + v.items[from + 1..];
      assert w.items[from..] == [w.items[from]] + w.items[from + 1..];
    }
  }

  lemma {:induction false} FieldsEnd(v: Value, keys: set<string>, w: Value, others: set<string>, r: bytes, s: bytes)
    requires v.Obj? && w.Obj? && keys <= v.fields.Keys && others <= w.fields.Keys
    requires DumpFields(v, keys) + r == DumpFields(w, others) + s
    ensures keys == others && r == s
    ensures forall key :: key in keys ==> v.fields[key] == w.fields[key]
    decreases v, 0, |keys|
  {
    hide Dump, DumpString;
    var one, two := DumpFields(v, keys), DumpFields(w, others);
    assert (one + r)[0] == one[0] && (two + s)[0] == two[0];
    if keys == {} {
      assert (one + r)[1..] == r && (two + s)[1..] == s;
    } else {
      var k, l := AnyKey(keys), AnyKey(others);
      var x, y := DumpFields(v, keys - {k}), DumpFields(w, others - {l});
      var a, b := Dump(v.fields[k]) + x, Dump(w.fields[l]) + y;
      Cancel(1, DumpString(k) + a, r, 1, DumpString(l) + b, s);
      Regroup(1, DumpString(k), a, r);
      Regroup(1, DumpString(l), b, s);
      StringEnds(k, l, a + r, b + s);
      Regroup(1, Dump(v.fields[k]), x, r);
      Regroup(1, Dump(w.fields[l]), y, s);
      DumpEnds(v.fields[k], w.fields[l], x + r, y + s);
      FieldsEnd(v, keys - {k}, w, others - {l}, r, s);
      assert keys == keys - {k} + {k} && others == others - {l} + {l};
    }
  }

  /** Encodings end where they end: two that start the same bytes are of the same value. */
  lemma {:induction false} DumpEnds(v: Value, w: Value, r: bytes, s: bytes)
    requires Dump(v) + r == Dump(w) + s
    ensures v == w && r == s
    decreases v, 1
  {
    hide DumpItems, DumpFields, DumpInt, DumpString;
    Tagged(v);
    Tagged(w);
    var x, y := Payload(v), Payload(w);
    Cancel(Dump(v)[0], x, r, Dump(w)[0], y, s);
    SameTag(v, w);
    match v
    case Null => assert x + r == r && y + s == s;
    case NaN => assert x + r == r && y + s == s;
    case Bool(_) => assert (x + r)[0] == x[0] && (y + s)[0] == y[0] && (x + r)[1..] == r && (y + s)[1..] == s;
    case Infinity(_) => assert (x + r)[0] == x[0] && (y + s)[0] == y[0] && (x + r)[1..] == r && (y + s)[1..] == s;
    case Int(n) => IntEnds(n, w.n, r, s);
    case Float(numerator, denominator) =>
      Regroup(3, DumpInt(numerator), DumpInt(denominator), r);
      Regroup(3, DumpInt(w.numerator), DumpInt(w.denominator), s);
      IntEnds(numerator, w.numerator, DumpInt(denominator) + r, DumpInt(w.denominator) + s);
      IntEnds(denominator, w.denominator, r, s);
    case Str(text) => StringEnds(text, w.s, r, s);
    case Arr(items) => ItemsEnd(v, 0, w, r, s);
    case Obj(fields) =>
      FieldsEnd(v, fields.Keys, w, w.fields.Keys, r, s);
  }

  lemma SameTag(v: Value, w: Value)
    requires Dump(v)[0] == Dump(w)[0]
    ensures v.Null? == w.Null? && v.Bool? == w.Bool? && v.Int? == w.Int? && v.Float? == w.Float?
    ensures v.Infinity? == w.Infinity? && v.NaN? == w.NaN? && v.Str? == w.Str? && v.Arr? == w.Arr? && v.Obj? == w.Obj?
  {
    hide DumpItems, DumpFields, DumpInt, DumpString;
  }

  // ---------- Reading ----------

  ghost predicate IsDump(data: bytes) {
    exists v :: Dump(v) == data
  }

  ghost function Load(data: bytes): Option<Value> {
    if IsDump(data) then var v :| Dump(v) == data; Some(v) else None
  }

  /** Every value reads back from what was written, and nothing reads from no bytes. */
  lemma LoadDump(v: Value)
    ensures Load(Dump(v)) == Some(v) && Load([]) == None
  {
    hide Dump;
    assert IsDump(Dump(v));
    var read := Load(Dump(v)).value;
    assert Dump(read) == Dump(v);
    DumpEnds(read, v, [], []);
    assert !IsDump([]);
  }

  // ---------- Sizes ----------

  lemma {:induction false} ItemsSize(v: Value, from: nat, limit: nat)
    requires v.Arr? && from <= |v.items| && forall i :: 0 <= i < |v.items| ==> |Dump(v.items[i])| <= limit
    ensures |DumpItems(v, from)| <= (|v.items| - from) * (limit + 1) + 1
    decreases |v.items| - from
  {
    hide Dump;
    if from < |v.items| {
      ItemsSize(v, from + 1, limit);
      assert (|v.items| - from) * (limit + 1) == (|v.items| - from - 1) * (limit + 1) + (limit + 1);
    }
  }

  /** The size of an object with one field. */
  lemma OneFieldSize(key: string, v: Value)
    ensures |Dump(Obj(map[key := v]))| <= 5 * |key| + |Dump(v)| + 4
  {
    var whole := Obj(map[key := v]);
    assert whole.fields.Keys == {key};
    assert AnyKey({key}) == key;
    assert {key} - {key} == {};
    assert DumpFields(whole, {}) == [0];
    hide DumpString;
    assert DumpFields(whole, {key}) == [1] + (DumpString(key) + (Dump(v) + DumpFields(whole, {key} - {key})));
  }
}
