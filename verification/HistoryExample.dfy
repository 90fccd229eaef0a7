/**
 A live run that is accepted, with every input given. Its replay reproduces the evidence when both responses report the
 base name of the model file, and rejects when the branch reports the full path.
 */
module HistoryExample {
  import opened Bytes
  import opened Wrappers
  import opened Json
  import opened JsonCodec
  import opened HistoryInputs
  import opened History
  import opened HistoryReplay
  import PosixPath
  import Reuse
  import Text

  const PATH := "/q"
  const NAME := "q"

  // ---------- The inputs ----------

  function Flags(): Value {
    Obj(map["add_special" := Bool(false), "parse_special" := Bool(true)])
  }

  function Policy(): Fields {
    map["prompt" := Flags(), "generated" := Flags()]
  }

  function Engine(): Fields {
    map["special_tokens_policy" := Obj(Policy()), "vocab_size" := Int(9)]
  }

  function Message(role: string, content: string): Value {
    Obj(map["role" := Str(role), "content" := Str(content)])
  }

  function ParentMessages(): seq<Value> {
    [Message("user", "u")]
  }

  function BranchMessages(): seq<Value> {
    [Message("user", "u"), AssistantMessage("a"), Message("user", "v")]
  }

  function ParentRequest(): Fields {
    map["messages" := Arr(ParentMessages()), "stream" := Bool(false), "verbose" := Bool(true),
        "cache_prompt" := Bool(true), "return_tokens" := Bool(true), "id_slot" := Int(0)]
  }

  function BranchRequest(): Fields {
    map["messages" := Arr(BranchMessages()), "stream" := Bool(true), "verbose" := Bool(true),
        "cache_prompt" := Bool(true), "stream_options" := Obj(map["include_usage" := Bool(true)]), "id_slot" := Int(0)]
  }

  function ParentVerbose(): Fields {
    map["prompt" := Str("P"), "tokens" := Arr([Int(2), Int(3)]), "id_slot" := Int(0),
        "generation_settings" := Obj(map["speculative.types" := Str("none")]),
        "tokens_evaluated" := Int(1), "tokens_predicted" := Int(2), "tokens_cached" := Int(2),
        "stop_type" := Str("limit"), "truncated" := Bool(false)]
  }

  function BranchVerbose(): Fields {
    map["prompt" := Str("PB"), "id_slot" := Int(0)]
  }

  function BranchUsage(): Fields {
    map["prompt_tokens" := Int(3), "prompt_tokens_details" := Obj(map["cached_tokens" := Int(2)])]
  }

  function ParentMetadata(): Fields {
    map["service_request_id" := Str("r"), "process_instance_id" := Str("i"), "workload_epoch" := Int(0)]
  }

  function BranchMetadata(): Fields {
    map["service_request_id" := Str("s"), "process_instance_id" := Str("i"), "workload_epoch" := Int(0),
        "parent_service_request_id" := Str("r")]
  }

  function ParentEvents(): Events {
    Events(Obj(ParentVerbose()), Null, Str(NAME), Null, ParentMetadata(), ["a"], [], [], [])
  }

  function BranchEvents(model: string): Events {
    Events(Obj(BranchVerbose()), Obj(BranchUsage()), Str(model), Null, BranchMetadata(), [], [], [], [Str("length")])
  }

  const PARENT_RAW: bytes := [1]
  const BRANCH_RAW: bytes := [2]

  ghost function RawInputs(): Raw {
    Raw(Dump(Obj(ParentRequest())), PARENT_RAW, Dump(Obj(BranchRequest())), BRANCH_RAW)
  }

  // ---------- The server ----------

  function Tokens(text: string): seq<int> {
    if text == "P" then [1] else if text == "PB" then [1, 2, 4] else [2, 3]
  }

  function TokenList(text: string): Value {
    Arr(if text == "P" then [Int(1)] else if text == "PB" then [Int(1), Int(2), Int(4)] else [Int(2), Int(3)])
  }

  function TokenReply(text: string): Value {
    Obj(map["tokens" := TokenList(text)])
  }

  function PromptReply(messages: seq<Value>): Value {
    Obj(map["prompt" := Str(if |messages| == 1 then "P" else "PB")])
  }

  ghost function Serve(route: Route, request: bytes): Option<bytes> {
    match Load(request)
    case Some(Obj(body)) =>
      if route == ApplyTemplate && Get(body, "messages").Arr? then Some(Dump(PromptReply(Get(body, "messages").items)))
      else if route == Tokenize && Get(body, "content").Str? then Some(Dump(TokenReply(Get(body, "content").s)))
      else None
    case _ => None
  }

  ghost function ExampleWorld(model: string): World {
    World(
      (data: bytes) => "",
      (v: Value) => Dump(v),
      (data: bytes) => Load(data),
      (v: Value) => v,
      (v: Value) => [],
      (v: Value) => if v.Str? then v.s else "",
      (raw: bytes) => if raw == PARENT_RAW then Ok(ParentEvents()) else Ok(BranchEvents(model)),
      (route: Route, request: bytes) => Serve(route, request))
  }

  lemma ExampleIsFaithful(model: string)
    ensures Faithful(ExampleWorld(model))
  {
    hide Dump, Load;
    forall v ensures Load(Dump(v)) == Some(v) && Load([]) == None {
      LoadDump(v);
    }
    LoadDump(Null);
  }

  /** What the example's world answers. */
  lemma WorldAnswers(model: string)
    ensures var w := ExampleWorld(model);
            && (forall v :: w.dumps(v) == Dump(v)) && (forall data :: w.loads(data) == Load(data))
            && (forall v :: w.reload(v) == v) && (forall v :: w.canonical(v) == [])
            && (forall data :: w.sha256(data) == "") && (forall s :: w.text(Str(s)) == s)
            && w.events(PARENT_RAW) == Ok(ParentEvents()) && w.events(BRANCH_RAW) == Ok(BranchEvents(model))
            && (forall route, data :: w.server(route, data) == Serve(route, data))
  {
    hide Dump, Load, Serve, ParentEvents, BranchEvents;
  }

  // ---------- Preparing the engine ----------

  function Ready(pins: Pins): Prepared {
    Prepared(Str("llama.cpp"), pins, Policy(), Str(""), 9, Null, Str(""), Str(PATH))
  }

  lemma PolicyFields()
    ensures Get(Policy(), "prompt") == Flags() && "prompt" in Policy()
    ensures Get(Policy(), "generated") == Flags() && "generated" in Policy()
    ensures Get(Policy(), "chat_template_kwargs").Null? && Get(Policy(), "generation_prompt_suffix").Null?
  {
    hide Flags;
  }

  lemma EngineFields()
    ensures Get(Engine(), "special_tokens_policy") == Obj(Policy()) && Get(Engine(), "vocab_size") == Int(9)
    ensures "engine" !in Engine() && "prompt_prefix" !in Engine() && Get(Engine(), "_running_identity").Null?
    ensures Get(Engine(), "special_tokens_policy_sha256").Null? && Get(Engine(), "id_slot").Null?
    ensures Get(Engine(), "served_model_alias").Null?
  {
    hide Policy;
  }

  lemma FlagsPass(name: string)
    ensures TokenFlags(Flags(), name) == Ok((false, true))
  {
  }

  lemma PolicyPasses(model: string)
    ensures PolicyDeclaration(ExampleWorld(model), Engine()) == Ok((Policy(), Str("")))
  {
    hide ExampleWorld, Engine, Policy, Flags, TokenFlags;
    WorldAnswers(model);
    EngineFields();
    PolicyFields();
    FlagsPass("prompt");
    FlagsPass("generated");
    FlagsAreNotEmpty();
  }

  lemma FlagsAreNotEmpty()
    ensures Flags().Obj? && Flags() != Obj(map[])
  {
    assert "add_special" in Flags().fields;
  }

  lemma EngineIsPrepared(model: string, pins: Pins)
    ensures PrepareEngine(ExampleWorld(model), Engine(), pins, PATH, Err("")) == Ok(Ready(pins))
  {
    hide ExampleWorld, Engine, Policy, PolicyDeclaration;
    EngineFields();
    PolicyPasses(model);
  }

  // ---------- Parsing ----------

  lemma ParentFields()
    ensures var p := ParentRequest();
            && Get(p, "messages") == Arr(ParentMessages()) && Get(p, "stream") == Bool(false)
            && Get(p, "verbose") == Bool(true) && Get(p, "cache_prompt") == Bool(true)
            && Get(p, "return_tokens") == Bool(true) && Get(p, "id_slot") == Int(0)
            && p.Keys == {"messages", "stream", "verbose", "cache_prompt", "return_tokens", "id_slot"}
  {
    hide ParentMessages;
  }

  lemma BranchFields()
    ensures var p := BranchRequest();
            && Get(p, "messages") == Arr(BranchMessages()) && Get(p, "stream") == Bool(true)
            && Get(p, "verbose") == Bool(true) && Get(p, "cache_prompt") == Bool(true)
            && Get(p, "stream_options") == Obj(map["include_usage" := Bool(true)]) && Get(p, "id_slot") == Int(0)
            && p.Keys == {"messages", "stream", "verbose", "cache_prompt", "stream_options", "id_slot"}
  {
    hide BranchMessages;
  }

  predicate Plain(v: Value) {
    IsMessage(v) && Get(v.fields, "content").Str? && !UsesTools(v)
  }

  lemma MessageIsPlain(role: string, content: string)
    requires role in {"user", "assistant"}
    ensures Plain(Message(role, content))
  {
  }

  lemma {:induction false} NoneUnsupported(request: Fields, names: seq<string>)
    requires forall k :: 0 <= k < |names| ==> names[k] !in request
    ensures FirstUnsupported(request, names) == Ok(())
  {
    if names != [] {
      NoneUnsupported(request, names[1..]);
    }
  }

  /** A request with plain messages and none of the unsupported controls is in scope. */
  lemma PlainRequestPasses(request: Fields, messages: seq<Value>)
    requires messages != [] && forall m :: m in messages ==> Plain(m)
    requires Get(request, "messages") == Arr(messages)
    requires forall k :: 0 <= k < |UNSUPPORTED| ==> UNSUPPORTED[k] !in request
    requires "tools" !in request && "tool_choice" !in request
    ensures Messages(request) == Ok(messages) && CheckRequestScope(request) == Ok(())
  {
    hide FirstUnsupported, UsesTools, IsMessage;
    NoneUnsupported(request, UNSUPPORTED);
    assert forall i :: 0 <= i < |messages| ==> messages[i] in messages;
  }

  lemma UnsupportedNames(k: nat)
    requires k < |UNSUPPORTED|
    ensures UNSUPPORTED[k] !in
              {"messages", "stream", "verbose", "cache_prompt", "return_tokens", "stream_options", "id_slot"}
  {
  }

  lemma ParentPasses()
    ensures Messages(ParentRequest()) == Ok(ParentMessages()) && CheckRequestScope(ParentRequest()) == Ok(())
  {
    hide ParentRequest, Messages, CheckRequestScope, Message, Plain;
    ParentFields();
    MessageIsPlain("user", "u");
    forall k | 0 <= k < |UNSUPPORTED| ensures UNSUPPORTED[k] !in ParentRequest() {
      UnsupportedNames(k);
    }
    PlainRequestPasses(ParentRequest(), ParentMessages());
  }

  lemma BranchPasses()
    ensures Messages(BranchRequest()) == Ok(BranchMessages()) && CheckRequestScope(BranchRequest()) == Ok(())
  {
    hide BranchRequest, Messages, CheckRequestScope, Plain;
    BranchFields();
    MessageIsPlain("user", "u");
    MessageIsPlain("assistant", "a");
    MessageIsPlain("user", "v");
    forall k | 0 <= k < |UNSUPPORTED| ensures UNSUPPORTED[k] !in BranchRequest() {
      UnsupportedNames(k);
    }
    PlainRequestPasses(BranchRequest(), BranchMessages());
  }

  lemma RequestsFit()
    ensures CheckLlamaRequests(ParentRequest(), BranchRequest(), Engine()).Ok?
  {
    hide ParentRequest, BranchRequest, Engine;
    ParentFields();
    BranchFields();
    EngineFields();
  }

  function ExampleExchange(model: string): Exchange {
    Exchange(ParentRequest(), BranchRequest(), Wire("", ParentVerbose(), None, ParentEvents()),
             Wire("", BranchVerbose(), Some(BranchUsage()), BranchEvents(model)), None)
  }

  lemma ExchangeParses(model: string)
    ensures ParseExchange(ExampleWorld(model), Engine(), RawInputs()) == Ok(ExampleExchange(model))
  {
    hide ExampleWorld, Engine, ParentRequest, BranchRequest, CheckRequestScope, CheckLlamaRequests, Messages, Dump,
      Load, ParentVerbose, BranchVerbose, BranchUsage, ParentMetadata, BranchMetadata;
    WorldAnswers(model);
    LoadDump(Obj(ParentRequest()));
    LoadDump(Obj(BranchRequest()));
    ParentPasses();
    BranchPasses();
    RequestsFit();
    ParentFields();
    BranchFields();
  }

  function ExampleParsed(model: string): Parsed {
    Parsed(ExampleExchange(model), "a", ParentMessages() + [AssistantMessage("a")], BranchMessages(), [2, 3])
  }

  lemma ParentVerboseFields()
    ensures var v := ParentVerbose();
            && Get(v, "prompt") == Str("P") && Get(v, "tokens") == Arr([Int(2), Int(3)]) && Get(v, "id_slot") == Int(0)
            && Get(v, "generation_settings") == Obj(map["speculative.types" := Str("none")])
            && Get(v, "tokens_evaluated") == Int(1) && Get(v, "tokens_predicted") == Int(2)
            && Get(v, "tokens_cached") == Int(2) && Get(v, "stop_type") == Str("limit")
            && Get(v, "truncated") == Bool(false)
  {
  }

  lemma HistoryParses(model: string)
    ensures Messages(ParentRequest()).Ok? && Messages(BranchRequest()).Ok?
    ensures ParseHistory(ExampleExchange(model), 9) == Ok(ExampleParsed(model))
  {
    hide ParentRequest, BranchRequest, Messages, Message, AssistantMessage, Eq, ParentVerbose, BranchVerbose,
      BranchUsage, ParentMessages, BranchMessages, ValidTokens, TokenIds, ParentMetadata, BranchMetadata;
    ParentPasses();
    BranchPasses();
    ParentVerboseFields();
    PrefixShared();
    GeneratedRead();
  }

  lemma PrefixShared()
    ensures var prefix := ParentMessages() + [AssistantMessage("a")];
            && |prefix| == 2 && |BranchMessages()| == 3 && BranchMessages()[..2] == prefix
            && Eq(Arr(prefix), Arr(prefix))
  {
    hide Eq, Message, AssistantMessage;
    var prefix := ParentMessages() + [AssistantMessage("a")];
    assert BranchMessages()[..2] == prefix;
    EqSelf(Arr(prefix));
  }

  lemma GeneratedRead()
    ensures var list := Arr([Int(2), Int(3)]); ValidTokens(list, 9) && TokenIds(list, 9) == [2, 3]
  {
  }

  lemma PathNames()
    ensures PosixPath.BaseName(PATH) == NAME && PosixPath.BaseName(NAME) == NAME
  {
    PosixPath.PartsPrint([NAME]);
    Text.SplitCons("", NAME, '/');
    Text.SplitOne(NAME, '/');
    assert "" + "/" + NAME == PATH;
  }

  /** Both names of the model pass a comparison with its path; only the base name passes one with the base name. */
  lemma NamesCompare(model: string, observed: string)
    requires observed in {NAME, PATH}
    ensures NamesModel(ExampleWorld(model), Str(observed), Str(PATH))
    ensures NamesModel(ExampleWorld(model), Str(observed), Str(NAME)) <==> observed == NAME
  {
    hide PosixPath.BaseName, ExampleWorld;
    WorldAnswers(model);
    PathNames();
  }

  lemma ParentMetadataFields()
    ensures var m := ParentMetadata();
            && HasIdentity(m) && m["service_request_id"] == Str("r") && m["process_instance_id"] == Str("i")
            && m["workload_epoch"] == Int(0)
  {
  }

  lemma BranchMetadataFields()
    ensures var m := BranchMetadata();
            && HasIdentity(m) && m["process_instance_id"] == Str("i") && m["workload_epoch"] == Int(0)
            && Get(m, "parent_service_request_id") == Str("r")
  {
  }

  lemma IdentityFits(model: string, pins: Pins)
    requires model in {NAME, PATH}
    ensures CheckLlamaIdentity(ExampleWorld(model), ExampleExchange(model).parentWire,
                               ExampleExchange(model).branchWire, Ready(pins)).Ok?
  {
    hide NamesModel, ExampleWorld, ParentMetadata, BranchMetadata, ParentRequest, BranchRequest, ParentVerbose,
      BranchVerbose, BranchUsage, Policy, HasIdentity;
    NamesCompare(model, NAME);
    NamesCompare(model, model);
    ParentMetadataFields();
    BranchMetadataFields();
  }

  lemma InputsParse(model: string, pins: Pins)
    requires model in {NAME, PATH}
    ensures ParseLlamaInputs(ExampleWorld(model), Engine(), Ready(pins), RawInputs())
         == Ok((Ready(pins), ExampleParsed(model)))
  {
    hide ParseExchange, CheckLlamaIdentity, ParseHistory, Messages, ExampleWorld, Engine, RawInputs, ParentRequest,
      BranchRequest, ParentEvents, BranchEvents, ParentVerbose, BranchVerbose, BranchUsage, Policy;
    ExchangeParses(model);
    IdentityFits(model, pins);
    HistoryParses(model);
  }

  // ---------- The tokenizer ----------

  lemma TokenReplySize(text: string)
    ensures |Dump(TokenReply(text))| <= MAX_RESPONSE_BYTES
  {
    hide DumpItems, DumpFields;
    var list := TokenList(text);
    ItemsSize(list, 0, 10);
    OneFieldSize("tokens", list);
  }

  lemma PromptReplySize(messages: seq<Value>)
    ensures |Dump(PromptReply(messages))| <= MAX_RESPONSE_BYTES
  {
    hide DumpFields;
    OneFieldSize("prompt", Str(if |messages| == 1 then "P" else "PB"));
  }

  function TextBody(text: string): Fields {
    map["content" := Str(text), "add_special" := Bool(false), "parse_special" := Bool(true)]
  }

  lemma TextBodyIs(text: string, kind: string)
    requires kind in {"prompt", "generated"}
    ensures TokenizeBody(Policy(), text, kind) == Ok(TextBody(text)) && Get(TextBody(text), "content") == Str(text)
  {
    hide Policy, TokenFlags;
    PolicyFields();
    FlagsPass(kind);
  }

  lemma TokensRead(text: string)
    ensures ReadTokens(TokenReply(text).fields, 9) == Ok(Tokens(text))
  {
    var list := TokenList(text);
    assert ValidTokens(list, 9);
    assert TokenIds(list, 9) == Tokens(text);
  }

  lemma ServesText(text: string)
    ensures Serve(Tokenize, Dump(Obj(TextBody(text)))) == Some(Dump(TokenReply(text)))
  {
    hide Dump, Load, TokenReply, TextBody;
    LoadDump(Obj(TextBody(text)));
    TextBodyIs(text, "prompt");
  }

  /** The server tokenizes a text. */
  lemma TextTokenizes(model: string, pins: Pins, text: string, kind: string)
    requires kind in {"prompt", "generated"}
    ensures var r := TokenizeText(ExampleWorld(model), Ready(pins), text, kind);
            r.Ok? && r.value.0 == Tokens(text)
  {
    hide Dump, Load, ExampleWorld, Serve, TextBody, TokenReply, Policy, TokenizeBody, ReadTokens, Text.Hex, Tokens;
    WorldAnswers(model);
    TextBodyIs(text, kind);
    ServesText(text);
    LoadDump(TokenReply(text));
    TokenReplySize(text);
    TokensRead(text);
    ReplyIsObject(text);
  }

  lemma ReplyIsObject(text: string)
    ensures TokenReply(text).Obj?
  {
  }

  lemma ServesPrompt(body: Fields, messages: seq<Value>)
    requires Get(body, "messages") == Arr(messages)
    ensures Serve(ApplyTemplate, Dump(Obj(body))) == Some(Dump(PromptReply(messages)))
  {
    hide Dump, Load, PromptReply;
    LoadDump(Obj(body));
  }

  lemma PromptRead(messages: seq<Value>)
    ensures PromptReply(messages).Obj?
    ensures ReadRendered(PromptReply(messages).fields) == Ok(if |messages| == 1 then "P" else "PB")
  {
  }

  /** The server renders and tokenizes a request. */
  lemma RequestTokenizes(model: string, pins: Pins, request: Fields, messages: seq<Value>)
    requires Messages(request) == Ok(messages) && Get(ApplyBody(Policy(), request), "messages") == Arr(messages)
    ensures var text := if |messages| == 1 then "P" else "PB";
            var r := ApplyAndTokenize(ExampleWorld(model), Ready(pins), request);
            r.Ok? && r.value.0 == Prompt(Tokens(text), text)
  {
    hide Dump, Load, ExampleWorld, Serve, ApplyBody, Messages, TokenizeText, PromptReply, Policy, ReadRendered,
      Text.Hex, Tokens;
    WorldAnswers(model);
    ServesPrompt(ApplyBody(Policy(), request), messages);
    LoadDump(PromptReply(messages));
    PromptReplySize(messages);
    PromptRead(messages);
    TextTokenizes(model, pins, if |messages| == 1 then "P" else "PB", "prompt");
  }

  lemma {:induction false} CopyKeeps(body: Fields, request: Fields, names: seq<string>, key: string)
    requires key !in names
    ensures Get(Copied(body, request, names), key) == Get(body, key)
    decreases |names|
  {
    if names != [] {
      CopyKeeps(if names[0] in request then body[names[0] := request[names[0]]] else body, request, names[1..], key);
    }
  }

  /** The template request carries the messages. */
  lemma BodyHasMessages(request: Fields)
    requires Messages(request).Ok?
    ensures Get(ApplyBody(Policy(), request), "messages") == Arr(Messages(request).value)
  {
    hide Messages, Policy, Copied;
    NotCopied();
    CopyKeeps(map["messages" := Arr(Messages(request).value)], request, APPLY_FIELDS, "messages");
  }

  lemma NotCopied()
    ensures "messages" !in APPLY_FIELDS
  {
  }

  lemma TokenizerRuns(model: string, pins: Pins)
    ensures Requested(ExampleParsed(model))
    ensures var r := RunTokenizer(ExampleWorld(model), Ready(pins), ExampleParsed(model));
            && r.Ok? && r.value.parent == Prompt([1], "P") && r.value.branch == Prompt([1, 2, 4], "PB")
            && r.value.generated == [2, 3]
  {
    hide ExampleWorld, Messages, ApplyAndTokenize, TokenizeText, ParentRequest, BranchRequest, ApplyBody, Ready, Policy,
      ParentEvents, BranchEvents, ParentVerbose, BranchVerbose, BranchUsage, Message;
    ParentPasses();
    BranchPasses();
    BodyHasMessages(ParentRequest());
    BodyHasMessages(BranchRequest());
    RequestTokenizes(model, pins, ParentRequest(), ParentMessages());
    RequestTokenizes(model, pins, BranchRequest(), BranchMessages());
    TextTokenizes(model, pins, "a", "generated");
  }

  // ---------- The evidence ----------

  lemma ParentFits(model: string, pins: Pins, independent: Independent)
    requires independent.parent == Prompt([1], "P")
    ensures CheckLlamaParent(Ready(pins), ExampleParsed(model), independent).Ok?
  {
    hide ParentVerbose, ParentRequest, BranchRequest, Policy, BranchVerbose, BranchUsage, ParentMetadata,
      BranchMetadata;
    assert "" <= "P";
    ParentVerboseFields();
    ParentFields();
  }

  lemma UsageFields()
    ensures Get(BranchUsage(), "prompt_tokens") == Int(3)
    ensures Get(BranchUsage(), "prompt_tokens_details") == Obj(map["cached_tokens" := Int(2)])
    ensures Get(BranchVerbose(), "prompt") == Str("PB") && Get(BranchVerbose(), "id_slot") == Int(0)
    ensures "stop_type" !in BranchVerbose() && "truncated" !in BranchVerbose()
  {
  }

  lemma BranchFits(model: string, pins: Pins, independent: Independent)
    requires independent.branch == Prompt([1, 2, 4], "PB")
    ensures CheckLlamaBranch(Ready(pins), ExampleParsed(model), independent) == Ok(2)
  {
    hide ParentVerbose, ParentRequest, BranchRequest, Policy, BranchVerbose, BranchUsage, ParentMetadata,
      BranchMetadata;
    assert "" <= "PB";
    UsageFields();
    BranchFields();
  }

  lemma ReuseFits()
    ensures Reuse.CheckedLlamaReuse(Int(2), 2, [1], [2, 3], [1, 2, 4]).Ok?
  {
    Reuse.CheckedReuseExact(2, 2, [1], [2, 3], [1, 2, 4]);
    Reuse.ChecksAgree(Int(2), 2, [1], [2, 3], [1, 2, 4]);
    assert [1] + [2, 3] == [1, 2, 3];
    assert [1, 2, 3][..2] == [1, 2] == [1, 2, 4][..2];
  }

  lemma EvidenceFits(model: string, pins: Pins)
    requires model in {NAME, PATH}
    ensures ProduceLlama(ExampleWorld(model), Engine(), Live(pins, PATH, Err("")), RawInputs()).Ok?
  {
    hide ExampleWorld, PrepareEngine, ParseLlamaInputs, RunTokenizer, CheckLlamaParent, CheckLlamaBranch, MakeOracle,
      Reuse.CheckedLlamaReuse, Messages, ParentRequest, BranchRequest, ParentVerbose, BranchVerbose, BranchUsage,
      Policy, Engine, RawInputs, ParentMetadata, BranchMetadata, HasIdentity;
    EngineIsPrepared(model, pins);
    InputsParse(model, pins);
    TokenizerRuns(model, pins);
    ParentMetadataFields();
    BranchMetadataFields();
    var independent := RunTokenizer(ExampleWorld(model), Ready(pins), ExampleParsed(model)).value;
    ParentFits(model, pins, independent);
    BranchFits(model, pins, independent);
    ParentVerboseFields();
    PolicyFields();
    ReuseFits();
  }

  /**
   The live run is accepted with either name reported in the branch. Its replay reproduces the evidence when that is the
   base name, and rejects when it is the path of the model file.
   */
  lemma ReplayDependsOnName(model: string, pins: Pins)
    requires model in {NAME, PATH}
    ensures var (w, live) := (ExampleWorld(model), Live(pins, PATH, Err("")));
            var run := ProduceLlama(w, Engine(), live, RawInputs());
            && Faithful(w) && run.Ok?
            && var replayed := RecomputeLlamaHistory(w, Engine(), run.value.oracle, RawInputs());
               if model == NAME then replayed == run else replayed.Err?
  {
    hide ProduceLlama, RecomputeLlamaHistory, Faithful, Engine, RawInputs, ExampleWorld, ParseLlamaInputs,
      PrepareEngine;
    var (w, live) := (ExampleWorld(model), Live(pins, PATH, Err("")));
    ExampleIsFaithful(model);
    EvidenceFits(model, pins);
    EngineFields();
    ReplayReproduces(w, Engine(), live, RawInputs());
    ReplayWithoutAlias(w, Engine(), live, RawInputs());
    EngineIsPrepared(model, pins);
    InputsParse(model, pins);
    WorldAnswers(model);
  }
}
