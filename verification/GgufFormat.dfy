/** The encoder of GGUF metadata, and what the two readers find in every file that it writes. */
module GgufFormat {
  import opened Bytes
  import opened Wrappers
  import opened Gguf
  import Utf8

  /** The thirteen value types. Floats are given by their bits; texts are the bytes of a string. */
  datatype Value =
    | U8(n: nat)
    | I8(i: int)
    | U16(n: nat)
    | I16(i: int)
    | U32(n: nat)
    | I32(i: int)
    | F32(bits: nat)
    | Bool(b: bool)
    | Text(body: bytes)
    | Array(element: nat, items: seq<Value>)
    | U64(n: nat)
    | I64(i: int)
    | F64(bits: nat)

  datatype Entry = Entry(key: string, value: Value)

  function Code(v: Value): nat {
    match v
    case U8(_) => 0
    case I8(_) => 1
    case U16(_) => 2
    case I16(_) => 3
    case U32(_) => 4
    case I32(_) => 5
    case F32(_) => 6
    case Bool(_) => 7
    case Text(_) => 8
    case Array(_, _) => 9
    case U64(_) => 10
    case I64(_) => 11
    case F64(_) => 12
  }

  predicate Signed(i: int, limit: int) {
    -limit <= 2 * i < limit
  }

  /** Values that the format can hold: numbers of their width, and arrays of a single element type. */
  predicate Encodable(v: Value) {
    match v
    case U8(n) => n < 0x100
    case I8(i) => Signed(i, 0x100)
    case U16(n) => n < 0x1_0000
    case I16(i) => Signed(i, 0x1_0000)
    case U32(n) => n < 0x1_0000_0000
    case I32(i) => Signed(i, 0x1_0000_0000)
    case F32(bits) => bits < 0x1_0000_0000
    case Bool(_) => true
    case Text(body) => |body| < U64_LIMIT
    case Array(element, items) =>
      && element < 0x1_0000_0000 && |items| < U64_LIMIT
      && forall i | 0 <= i < |items| :: Code(items[i]) == element && Encodable(items[i])
    case U64(n) => n < U64_LIMIT
    case I64(i) => Signed(i, U64_LIMIT)
    case F64(bits) => bits < U64_LIMIT
  }

  /** Two's complement below `limit`. */
  function Wrapped(i: int, limit: nat): nat
    requires Signed(i, limit)
  {
    if i < 0 then i + limit else i
  }

  function Encode(v: Value): bytes
    requires Encodable(v)
    decreases v, 0
  {
    match v
    case U8(n) => ToLe(n, 1)
    case I8(i) => ToLe(Wrapped(i, 0x100), 1)
    case U16(n) => ToLe(n, 2)
    case I16(i) => ToLe(Wrapped(i, 0x1_0000), 2)
    case U32(n) => ToLe(n, 4)
    case I32(i) => ToLe(Wrapped(i, 0x1_0000_0000), 4)
    case F32(bits) => ToLe(bits, 4)
    case Bool(b) => [if b then 1 else 0]
    case Text(body) => EncodeString(body)
    case Array(element, items) => ToLe(element, 4) + (ToLe(|items|, 8) + EncodeItems(v, 0))
    case U64(n) => ToLe(n, 8)
    case I64(i) => ToLe(Wrapped(i, U64_LIMIT), 8)
    case F64(bits) => ToLe(bits, 8)
  }

  /** The items of an array from the one at index `from`. */
  function EncodeItems(v: Value, from: nat): bytes
    requires Encodable(v) && v.Array? && from <= |v.items|
    decreases v, 0, |v.items| - from
  {
    if from == |v.items| then [] else
    assert v.items[from] < v;
    Encode(v.items[from]) + EncodeItems(v, from + 1)
  }

  function EncodeString(body: bytes): bytes {
    ToLe(|body|, 8) + body
  }

  /** For the history producer, every array inside, at any depth, has at most ten million items. */
  predicate Within(v: Value, rules: Rules) {
    v.Array? ==>
      (rules.History? ==> |v.items| <= 10_000_000) && forall i | 0 <= i < |v.items| :: Within(v.items[i], rules)
  }

  // ---------- A string of bytes inside a file ----------

  predicate At(d: bytes, pos: nat, s: bytes) {
    pos + |s| <= |d| && d[pos..pos + |s|] == s
  }

  lemma AtSplit(d: bytes, pos: nat, one: bytes, two: bytes)
    requires At(d, pos, one + two)
    ensures At(d, pos, one) && At(d, pos + |one|, two)
  {
    var whole := d[pos..pos + |one + two|];
    assert whole[..|one|] == one && whole[|one|..] == two;
    assert d[pos..pos + |one|] == whole[..|one|];
    assert d[pos + |one|..pos + |one| + |two|] == whole[|one|..];
  }

  lemma ReadU64At(d: bytes, pos: nat, n: nat, rest: bytes)
    requires n < U64_LIMIT && At(d, pos, ToLe(n, U64_SIZE) + rest)
    ensures ReadInt(d, pos, U64_SIZE) == Ok((n, pos + U64_SIZE))
    ensures At(d, pos + U64_SIZE, rest)
  {
    hide ToLe, FromLe;
    AtSplit(d, pos, ToLe(n, U64_SIZE), rest);
    U64RoundTrip(n);
  }

  lemma ReadU32At(d: bytes, pos: nat, n: nat, rest: bytes)
    requires n < 0x1_0000_0000 && At(d, pos, ToLe(n, U32_SIZE) + rest)
    ensures ReadInt(d, pos, U32_SIZE) == Ok((n, pos + U32_SIZE))
    ensures At(d, pos + U32_SIZE, rest)
  {
    hide ToLe, FromLe;
    AtSplit(d, pos, ToLe(n, U32_SIZE), rest);
    U32RoundTrip(n);
  }

  lemma ReadStringAt(d: bytes, pos: nat, body: bytes, limit: Option<nat>)
    requires |body| < U64_LIMIT && At(d, pos, EncodeString(body))
    ensures ReadString(d, pos, limit) ==
            if limit.Some? && |body| > limit.value then Err(TooLong)
            else Ok((body, pos + |EncodeString(body)|))
  {
    hide ToLe, FromLe, ReadInt;
    ReadU64At(d, pos, |body|, body);
  }

  // ---------- Skipping ----------

  /** Skipping a value moves the cursor by exactly its encoded length, or rejects an array beyond the count limit. */
  lemma {:induction false} SkipEncoded(d: bytes, pos: nat, v: Value, rules: Rules)
    requires Encodable(v) && At(d, pos, Encode(v))
    ensures Skip(d, pos, Code(v), rules) == if Within(v, rules) then Ok(pos + |Encode(v)|) else Err(TooMany)
    decreases v, 1, 0
  {
    hide ToLe, FromLe, ReadInt, At;
    match v
    case Text(body) =>
      ReadU64At(d, pos, |body|, body);
      assert pos + |EncodeString(body)| <= |d| by { AtFits(d, pos, EncodeString(body)); }
    case Array(element, items) =>
      var p, first := pos + U32_SIZE, pos + U32_SIZE + U64_SIZE;
      ReadU32At(d, pos, element, ToLe(|items|, U64_SIZE) + EncodeItems(v, 0));
      ReadU64At(d, p, |items|, EncodeItems(v, 0));
      SkipItems(d, first, v, 0, rules);
    case _ =>
  }

  /** Any other type code is rejected, wherever the value stands. */
  lemma UnknownCode(d: bytes, pos: nat, code: nat, rules: Rules)
    requires code > 12
    ensures Skip(d, pos, code, rules) == Err(UnknownType)
  {
  }

  lemma AtFits(d: bytes, pos: nat, s: bytes)
    requires At(d, pos, s)
    ensures pos + |s| <= |d|
  {
  }

  lemma {:induction false} SkipItems(d: bytes, pos: nat, v: Value, from: nat, rules: Rules)
    requires Encodable(v) && v.Array? && from <= |v.items| && At(d, pos, EncodeItems(v, from))
    ensures SkipMany(d, pos, v.element, |v.items| - from, rules) ==
            if forall i | from <= i < |v.items| :: Within(v.items[i], rules) then Ok(pos + |EncodeItems(v, from)|)
            else Err(TooMany)
    decreases v, 0, |v.items| - from
  {
    hide Skip, At, Within, Encode, Code;
    if from < |v.items| {
      var head, tail := Encode(v.items[from]), EncodeItems(v, from + 1);
      assert Encodable(v.items[from]) && Code(v.items[from]) == v.element;
      AtSplit(d, pos, head, tail);
      SkipEncoded(d, pos, v.items[from], rules);
      SkipItems(d, pos + |head|, v, from + 1, rules);
    }
  }

  /** Both readers leave a value at the same offset unless an array exceeds the history producer's limit. */
  lemma ReadersAgree(d: bytes, pos: nat, v: Value)
    requires Encodable(v) && At(d, pos, Encode(v))
    ensures Skip(d, pos, Code(v), Fixture) == Ok(pos + |Encode(v)|)
    ensures Skip(d, pos, Code(v), History) == Skip(d, pos, Code(v), Fixture) <==> Within(v, History)
  {
    hide Skip, Encode, At;
    WithinFixture(v);
    SkipEncoded(d, pos, v, Fixture);
    SkipEncoded(d, pos, v, History);
  }

  lemma {:induction false} WithinFixture(v: Value)
    ensures Within(v, Fixture)
  {
    if v.Array? {
      forall i | 0 <= i < |v.items| ensures Within(v.items[i], Fixture) {
        WithinFixture(v.items[i]);
      }
    }
  }

  // ---------- Whole files ----------

  function KeyBytes(e: Entry): bytes {
    Utf8.Encode(e.key)
  }

  predicate EncodableEntry(e: Entry) {
    Encodable(e.value) && Code(e.value) < 0x1_0000_0000 && |KeyBytes(e)| < U64_LIMIT
  }

  predicate EncodableAll(entries: seq<Entry>) {
    forall i :: 0 <= i < |entries| ==> EncodableEntry(entries[i])
  }

  function EncodeEntry(e: Entry): bytes
    requires EncodableEntry(e)
  {
    EncodeString(KeyBytes(e)) + (ToLe(Code(e.value), 4) + Encode(e.value))
  }

  function EncodeEntries(entries: seq<Entry>): bytes
    requires EncodableAll(entries)
  {
    if entries == [] then [] else EncodeEntry(entries[0]) + EncodeEntries(entries[1..])
  }

  /** A model file: the header, the metadata entries, and whatever follows them. */
  function EncodeFile(version: nat, tensors: nat, entries: seq<Entry>, rest: bytes): bytes
    requires EncodableAll(entries)
  {
    Utf8.Encode("GGUF") + (ToLe(version, 4) + (ToLe(tensors, 8) + (ToLe(|entries|, 8)
      + (EncodeEntries(entries) + rest))))
  }

  /** The first entry with the template's key decides. */
  function Template(entries: seq<Entry>): Result<string, Fault> {
    if entries == [] then Err(Missing)
    else if entries[0].key != "tokenizer.chat_template" then Template(entries[1..])
    else if !entries[0].value.Text? then Err(NotAString)
    else DecodeText(entries[0].value.body)
  }

  /** The first array under the tokens' key decides, if no earlier entry exceeds a limit. */
  function Vocabulary(entries: seq<Entry>): Result<nat, Fault> {
    if entries == [] then Err(Missing)
    else if |KeyBytes(entries[0])| > 1_000_000 then Err(TooLong)
    else if entries[0].key == "tokenizer.ggml.tokens" && entries[0].value.Array? then
      if 0 < |entries[0].value.items| <= 10_000_000 then Ok(|entries[0].value.items|) else Err(BadVocabulary)
    else if !Within(entries[0].value, History) then Err(TooMany)
    else Vocabulary(entries[1..])
  }

  /** Where the parts of an entry lie. */
  lemma EntryAt(d: bytes, pos: nat, e: Entry, rest: bytes)
    requires EncodableEntry(e) && At(d, pos, EncodeEntry(e) + rest)
    ensures var p := pos + |EncodeString(KeyBytes(e))|;
            var body := p + U32_SIZE;
            && At(d, pos, EncodeString(KeyBytes(e)))
            && ReadInt(d, p, U32_SIZE) == Ok((Code(e.value), body))
            && At(d, body, Encode(e.value))
            && At(d, body + |Encode(e.value)|, rest)
            && |EncodeEntry(e)| == body + |Encode(e.value)| - pos
            && DecodeText(KeyBytes(e)) == Ok(e.key)
  {
    hide At, Encode, EncodeString, ToLe, Encodable, ReadInt, Utf8.Encode, Utf8.Decode;
    AtSplit(d, pos, EncodeEntry(e), rest);
    AtSplit(d, pos, EncodeString(KeyBytes(e)), ToLe(Code(e.value), U32_SIZE) + Encode(e.value));
    ReadU32At(d, pos + |EncodeString(KeyBytes(e))|, Code(e.value), Encode(e.value));
    Utf8.DecodeEncode(e.key);
  }

  lemma {:induction false} FindsTemplate(d: bytes, pos: nat, entries: seq<Entry>, rest: bytes)
    requires EncodableAll(entries) && At(d, pos, EncodeEntries(entries) + rest)
    ensures FindTemplate(d, pos, |entries|) == Template(entries)
    decreases |entries|
  {
    hide At, Encode, EncodeEntry, ReadInt, ReadString, Skip, KeyBytes, DecodeText, EncodeString;
    if entries != [] {
      var e, tail := entries[0], EncodeEntries(entries[1..]) + rest;
      assert EncodeEntries(entries) + rest == EncodeEntry(e) + tail;
      EntryAt(d, pos, e, tail);
      ReadStringAt(d, pos, KeyBytes(e), None);
      var body := pos + |EncodeString(KeyBytes(e))| + U32_SIZE;
      if e.value.Text? {
        TextAt(d, body, e.value);
      }
      SkipEncoded(d, body, e.value, Fixture);
      WithinFixture(e.value);
      FindsTemplate(d, body + |Encode(e.value)|, entries[1..], rest);
    }
  }

  lemma TextAt(d: bytes, pos: nat, v: Value)
    requires Encodable(v) && v.Text? && At(d, pos, Encode(v))
    ensures var r := ReadString(d, pos, None); r.Ok? && r.value.0 == v.body
  {
    ReadStringAt(d, pos, v.body, None);
  }

  lemma ArrayAt(d: bytes, pos: nat, v: Value)
    requires Encodable(v) && v.Array? && At(d, pos, Encode(v))
    ensures ReadInt(d, pos, U32_SIZE) == Ok((v.element, pos + U32_SIZE))
    ensures ReadInt(d, pos + U32_SIZE, U64_SIZE) == Ok((|v.items|, pos + U32_SIZE + U64_SIZE))
  {
    hide At, ToLe, EncodeItems, ReadInt;
    ReadU32At(d, pos, v.element, ToLe(|v.items|, U64_SIZE) + EncodeItems(v, 0));
    ReadU64At(d, pos + U32_SIZE, |v.items|, EncodeItems(v, 0));
  }

  lemma {:induction false} FindsVocabulary(d: bytes, pos: nat, entries: seq<Entry>, rest: bytes)
    requires EncodableAll(entries) && At(d, pos, EncodeEntries(entries) + rest)
    ensures FindVocabulary(d, pos, |entries|) == Vocabulary(entries)
    decreases |entries|
  {
    hide At, Encode, EncodeEntry, ReadInt, ReadString, Skip, KeyBytes, DecodeText, EncodeString;
    if entries != [] {
      var e, tail := entries[0], EncodeEntries(entries[1..]) + rest;
      assert EncodeEntries(entries) + rest == EncodeEntry(e) + tail;
      EntryAt(d, pos, e, tail);
      ReadStringAt(d, pos, KeyBytes(e), Some(KEY_LIMIT));
      var body := pos + |EncodeString(KeyBytes(e))| + U32_SIZE;
      if e.value.Array? {
        ArrayAt(d, body, e.value);
      }
      SkipEncoded(d, body, e.value, History);
      FindsVocabulary(d, body + |Encode(e.value)|, entries[1..], rest);
    }
  }

  lemma HeaderAt(version: nat, tensors: nat, entries: seq<Entry>, rest: bytes)
    requires version < 0x1_0000_0000 && tensors < U64_LIMIT && |entries| < U64_LIMIT && EncodableAll(entries)
    ensures var d := EncodeFile(version, tensors, entries, rest);
            && |d| >= 4 && d[..4] == MAGIC
            && ReadInt(d, 4, U32_SIZE) == Ok((version, 8))
            && ReadInt(d, 8, U64_SIZE) == Ok((tensors, 16))
            && ReadInt(d, 16, U64_SIZE) == Ok((|entries|, 24))
            && At(d, 24, EncodeEntries(entries) + rest)
  {
    hide ToLe, EncodeEntries, ReadInt;
    var d := EncodeFile(version, tensors, entries, rest);
    var body := EncodeEntries(entries) + rest;
    assert At(d, 0, d) && d[..4] == MAGIC;
    AtSplit(d, 0, MAGIC, ToLe(version, U32_SIZE) + (ToLe(tensors, U64_SIZE) + (ToLe(|entries|, U64_SIZE) + body)));
    ReadU32At(d, 4, version, ToLe(tensors, U64_SIZE) + (ToLe(|entries|, U64_SIZE) + body));
    ReadU64At(d, 8, tensors, ToLe(|entries|, U64_SIZE) + body);
    ReadU64At(d, 16, |entries|, body);
  }

  /** In every encoded file, each reader finds what the list of entries says. */
  lemma ReadersInvertEncoder(version: nat, tensors: nat, entries: seq<Entry>, rest: bytes)
    requires version < 0x1_0000_0000 && tensors < U64_LIMIT && |entries| < U64_LIMIT && EncodableAll(entries)
    ensures TemplateOf(EncodeFile(version, tensors, entries, rest)) == Template(entries)
    ensures VocabularyOf(EncodeFile(version, tensors, entries, rest)) == Vocabulary(entries)
  {
    hide EncodeFile, FindTemplate, FindVocabulary, ReadInt, At, EncodeEntries, Template, Vocabulary;
    var d := EncodeFile(version, tensors, entries, rest);
    HeaderAt(version, tensors, entries, rest);
    FindsTemplate(d, 24, entries, rest);
    FindsVocabulary(d, 24, entries, rest);
  }
}
