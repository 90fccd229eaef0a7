/**
 The GGUF metadata readers. The fixture generator looks for the embedded chat template, and the history producer counts
 the tokenizer's tokens. Both move a cursor over nested typed values, and both are compared here with an encoder.
 */
module Gguf {
  import opened Bytes
  import opened Wrappers
  import Utf8

  datatype Fault =
    | ShortRead
    | BadMagic
    | TooLong
    | TooMany
    | UnknownType
    | NotText
    | NotAString
    | BadVocabulary
    | Missing

  const MAGIC: bytes := [71, 71, 85, 70]
  const STRING: nat := 8
  const ARRAY: nat := 9
  const KEY_LIMIT: nat := 1_000_000
  const COUNT_LIMIT: nat := 10_000_000
  const TEMPLATE_KEY := "tokenizer.chat_template"
  const TOKENS_KEY := "tokenizer.ggml.tokens"

  /** How the two readers differ on values they skip: one reads strings to their end, the other bounds array counts. */
  datatype Rules = Fixture | History

  predicate CountAllowed(count: nat, rules: Rules) {
    rules.Fixture? || count <= COUNT_LIMIT
  }

  function ScalarSize(code: nat): Option<nat> {
    if code in {0, 1, 7} then Some(1)
    else if code in {2, 3} then Some(2)
    else if code in {4, 5, 6} then Some(4)
    else if code in {10, 11, 12} then Some(8)
    else None
  }

  // ---------- Reading at a position ----------

  function ReadInt(d: bytes, pos: nat, width: nat): (r: Result<(nat, nat), Fault>)
    ensures r.Ok? ==> r.value.1 == pos + width <= |d|
  {
    if pos + width <= |d| then Ok((FromLe(d[pos..pos + width]), pos + width)) else Err(ShortRead)
  }

  function ReadString(d: bytes, pos: nat, limit: Option<nat>): (r: Result<(bytes, nat), Fault>)
    ensures r.Ok? ==> pos <= r.value.1 <= |d|
  {
    var (length, p) :- ReadInt(d, pos, U64_SIZE);
    if limit.Some? && length > limit.value then Err(TooLong)
    else if p + length > |d| then Err(ShortRead)
    else Ok((d[p..p + length], p + length))
  }

  function Rest(d: bytes, pos: nat): nat {
    if pos < |d| then |d| - pos else 0
  }

  /** The position after a value of type `code` at `pos`. */
  function Skip(d: bytes, pos: nat, code: nat, rules: Rules): (r: Result<nat, Fault>)
    ensures r.Ok? ==> r.value >= pos
    decreases Rest(d, pos), 0, 0
  {
    if code == STRING then
      var (length, p) :- ReadInt(d, pos, U64_SIZE);
      if rules.Fixture? && p + length > |d| then Err(ShortRead) else Ok(p + length)
    else if code == ARRAY then
      var (element, p) :- ReadInt(d, pos, U32_SIZE);
      var (count, first) :- ReadInt(d, p, U64_SIZE);
      if !CountAllowed(count, rules) then Err(TooMany) else SkipMany(d, first, element, count, rules)
    else
      match ScalarSize(code)
      case None => Err(UnknownType)
      case Some(size) => Ok(pos + size)
  }

  function SkipMany(d: bytes, pos: nat, code: nat, count: nat, rules: Rules): (r: Result<nat, Fault>)
    ensures r.Ok? ==> r.value >= pos
    decreases Rest(d, pos), 1, count
  {
    if count == 0 then Ok(pos) else
    var p :- Skip(d, pos, code, rules);
    SkipMany(d, p, code, count - 1, rules)
  }

  function DecodeText(s: bytes): Result<string, Fault> {
    match Utf8.Decode(s)
    case None => Err(NotText)
    case Some(text) => Ok(text)
  }

  /** The fixture generator's search through `count` entries. */
  function FindTemplate(d: bytes, pos: nat, count: nat): Result<string, Fault>
    decreases count
  {
    if count == 0 then Err(Missing) else
    var (raw, p) :- ReadString(d, pos, None);
    var key :- DecodeText(raw);
    var (code, body) :- ReadInt(d, p, U32_SIZE);
    if key == TEMPLATE_KEY then
      if code != STRING then Err(NotAString) else
      var (template, _) :- ReadString(d, body, None);
      DecodeText(template)
    else
      var next :- Skip(d, body, code, Fixture);
      FindTemplate(d, next, count - 1)
  }

  /** The history producer's search through `count` entries. */
  function FindVocabulary(d: bytes, pos: nat, count: nat): Result<nat, Fault>
    decreases count
  {
    if count == 0 then Err(Missing) else
    var (raw, p) :- ReadString(d, pos, Some(KEY_LIMIT));
    var key :- DecodeText(raw);
    var (code, body) :- ReadInt(d, p, U32_SIZE);
    if key == TOKENS_KEY && code == ARRAY then
      var (_, q) :- ReadInt(d, body, U32_SIZE);
      var (tokens, _) :- ReadInt(d, q, U64_SIZE);
      if 0 < tokens <= COUNT_LIMIT then Ok(tokens) else Err(BadVocabulary)
    else
      var next :- Skip(d, body, code, History);
      FindVocabulary(d, next, count - 1)
  }

  function TemplateOf(d: bytes): Result<string, Fault> {
    if |d| < 4 || d[..4] != MAGIC then Err(BadMagic) else
    var (count, p) :- ReadInt(d, 16, U64_SIZE);
    FindTemplate(d, p, count)
  }

  function VocabularyOf(d: bytes): Result<nat, Fault> {
    if |d| < 4 || d[..4] != MAGIC then Err(BadMagic) else
    var (_, p) :- ReadInt(d, 4, U32_SIZE);
    var (_, q) :- ReadInt(d, p, U64_SIZE);
    var (count, first) :- ReadInt(d, q, U64_SIZE);
    FindVocabulary(d, first, count)
  }

  // ---------- The cursor and the two readers ----------

  /** An open file. A read may come back short, and a seek may pass the end. */
  class Source {
    const data: bytes
    var pos: nat

    constructor (data: bytes)
      ensures this.data == data && pos == 0
    {
      this.data, pos := data, 0;
    }

    method Read(size: nat) returns (s: bytes)
      modifies this
      ensures old(pos) + size <= |data| ==> s == data[old(pos)..old(pos) + size] && pos == old(pos) + size
      ensures old(pos) + size > |data| ==> |s| < size || size == 0
      ensures |s| <= size
    {
      var from := if pos < |data| then pos else |data|;
      var to := if pos + size < |data| then pos + size else |data|;
      s := data[from..to];
      pos := pos + |s|;
    }

    method Seek(offset: nat)
      modifies this
      ensures pos == old(pos) + offset
    {
      pos := pos + offset;
    }

    method ReadUnsigned(width: nat) returns (r: Result<nat, Fault>)
      requires width > 0
      modifies this
      ensures match ReadInt(data, old(pos), width)
              case Ok((n, p)) => r == Ok(n) && pos == p
              case Err(e) => r == Err(e)
    {
      var raw := Read(width);
      r := if |raw| == width then Ok(FromLe(raw)) else Err(ShortRead);
    }

    method ReadStringValue(limit: Option<nat>) returns (r: Result<bytes, Fault>)
      modifies this
      ensures match ReadString(data, old(pos), limit)
              case Ok((s, p)) => r == Ok(s) && pos == p
              case Err(e) => r == Err(e)
    {
      var length := ReadUnsigned(U64_SIZE);
      if length.Err? {
        return Err(length.error);
      }
      if limit.Some? && length.value > limit.value {
        return Err(TooLong);
      }
      var value := Read(length.value);
      r := if |value| != length.value then Err(ShortRead) else Ok(value);
    }

    /** Moves past a value of type `code`. */
    method SkipValue(code: nat, rules: Rules) returns (fault: Option<Fault>)
      modifies this
      ensures match Skip(data, old(pos), code, rules)
              case Ok(p) => fault == None && pos == p
              case Err(e) => fault == Some(e)
      decreases Rest(data, pos)
    {
      if code == STRING {
        if rules.Fixture? {
          var s := ReadStringValue(None);
          return if s.Err? then Some(s.error) else None;
        }
        var length := ReadUnsigned(U64_SIZE);
        if length.Err? {
          return Some(length.error);
        }
        Seek(length.value);
        return None;
      }
      if code == ARRAY {
        ghost var start := pos;
        var element := ReadUnsigned(U32_SIZE);
        if element.Err? {
          return Some(element.error);
        }
        var count := ReadUnsigned(U64_SIZE);
        if count.Err? {
          return Some(count.error);
        }
        if rules.History? && count.value > COUNT_LIMIT {
          return Some(TooMany);
        }
        ghost var first := pos;
        for n := 0 to count.value
          invariant pos >= first
          invariant SkipMany(data, pos, element.value, count.value - n, rules) ==
                    SkipMany(data, first, element.value, count.value, rules)
        {
          fault := SkipValue(element.value, rules);
          if fault.Some? {
            return;
          }
        }
        return None;
      }
      var size := ScalarSize(code);
      if size.None? {
        return Some(UnknownType);
      }
      Seek(size.value);
      fault := None;
    }
  }

  /** The embedded chat template of a model file. */
  method EmbeddedTemplate(file: bytes) returns (r: Result<string, Fault>)
    ensures r == TemplateOf(file)
  {
    hide Skip, FromLe, Utf8.Decode, ReadString;
    var source := new Source(file);
    var magic := source.Read(4);
    if magic != MAGIC {
      return Err(BadMagic);
    }
    source.pos := 4 + 4 + 8;
    var count := source.ReadUnsigned(U64_SIZE);
    if count.Err? {
      return Err(count.error);
    }
    for n := 0 to count.value
      invariant fresh(source) && source.data == file
      invariant FindTemplate(file, source.pos, count.value - n) == TemplateOf(file)
    {
      var raw := source.ReadStringValue(None);
      if raw.Err? {
        return Err(raw.error);
      }
      var key := Utf8.Decode(raw.value);
      if key.None? {
        return Err(NotText);
      }
      var code := source.ReadUnsigned(U32_SIZE);
      if code.Err? {
        return Err(code.error);
      }
      if key.value == TEMPLATE_KEY {
        if code.value != STRING {
          return Err(NotAString);
        }
        var template := source.ReadStringValue(None);
        if template.Err? {
          return Err(template.error);
        }
        return DecodeText(template.value);
      }
      var fault := source.SkipValue(code.value, Fixture);
      if fault.Some? {
        return Err(fault.value);
      }
    }
    r := Err(Missing);
  }

  /** The number of tokens that the model file declares. */
  method GgufVocabulary(file: bytes) returns (r: Result<nat, Fault>)
    ensures r == VocabularyOf(file)
  {
    hide Skip, FromLe, Utf8.Decode, ReadString;
    var source := new Source(file);
    var magic := source.Read(4);
    if magic != MAGIC {
      return Err(BadMagic);
    }
    var version := source.ReadUnsigned(U32_SIZE);
    if version.Err? {
      return Err(version.error);
    }
    var tensors := source.ReadUnsigned(U64_SIZE);
    if tensors.Err? {
      return Err(tensors.error);
    }
    var count := source.ReadUnsigned(U64_SIZE);
    if count.Err? {
      return Err(count.error);
    }
    for n := 0 to count.value
      invariant fresh(source) && source.data == file
      invariant FindVocabulary(file, source.pos, count.value - n) == VocabularyOf(file)
    {
      var raw := source.ReadStringValue(Some(KEY_LIMIT));
      if raw.Err? {
        return Err(raw.error);
      }
      var key := Utf8.Decode(raw.value);
      if key.None? {
        return Err(NotText);
      }
      var code := source.ReadUnsigned(U32_SIZE);
      if code.Err? {
        return Err(code.error);
      }
      if key.value == TOKENS_KEY && code.value == ARRAY {
        var element := source.ReadUnsigned(U32_SIZE);
        if element.Err? {
          return Err(element.error);
        }
        var tokens := source.ReadUnsigned(U64_SIZE);
        if tokens.Err? {
          return Err(tokens.error);
        }
        return if tokens.value <= 0 || tokens.value > COUNT_LIMIT then Err(BadVocabulary) else Ok(tokens.value);
      }
      var fault := source.SkipValue(code.value, History);
      if fault.Some? {
        return Err(fault.value);
      }
    }
    r := Err(Missing);
  }
}
