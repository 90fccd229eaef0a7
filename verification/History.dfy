/**
 Retained-history evidence for llama.cpp: a live run asks the tokenizer server and logs each exchange, and a replay
 rebuilds the evidence from the log alone.
 */
module History {
  import opened Wrappers
  import opened Json
  import opened HistoryInputs
  import Text
  import Reuse

  const MAX_RESPONSE_BYTES: nat := 1024 * 1024

  // ---------- The engine ----------

  function TokenFlags(v: Value, name: string): Result<(bool, bool), string> {
    if !v.Obj? then Err("producer_error")
    else if !Get(v.fields, "add_special").Bool? || !Get(v.fields, "parse_special").Bool? then
      Err(name + "_token_policy_incomplete")
    else Ok((Get(v.fields, "add_special").b, Get(v.fields, "parse_special").b))
  }

  function PromptFlags(policy: Fields): Value {
    GetDefault(policy, "prompt", GetDefault(policy, "tokenize", Obj(policy)))
  }

  function PolicyDeclaration(w: World, engine: Fields): (r: Result<(Fields, Value), string>)
    ensures r.Ok? ==> r.value.1 == Str(w.sha256(w.canonical(Obj(r.value.0))))
  {
    var declared := Get(engine, "special_tokens_policy");
    if !declared.Obj? || !w.reload(declared).Obj? then Err("special_tokens_policy_missing") else
    var policy := w.reload(declared).fields;
    var sha := Str(w.sha256(w.canonical(Obj(policy))));
    var pinned := Get(engine, "special_tokens_policy_sha256");
    var _ :- Need(pinned.Null? || pinned == sha, "special_tokens_policy_hash_mismatch");
    var (_, parseSpecial) :- TokenFlags(PromptFlags(policy), "prompt");
    var generated := GetDefault(policy, "generated", Obj(map[]));
    if !generated.Obj? then Err("generated_token_policy_missing") else
    var _ :- TokenFlags(if generated == Obj(map[])
                        then Obj(map["add_special" := Bool(false), "parse_special" := Bool(parseSpecial)])
                        else generated, "generated");
    Ok((policy, sha))
  }

  /** The pinned facts of a live run. The model is the path of the loaded file. */
  function PrepareEngine(w: World, engine: Fields, pins: Pins, modelPath: string, fileVocabulary: Result<nat, string>)
    : (r: Result<Prepared, string>)
    ensures r.Ok? ==>
              && r.value.policySha == Str(w.sha256(w.canonical(Obj(r.value.policy))))
              && r.value.vocabSize > 0 && r.value.pins == pins && r.value.model == Str(modelPath)
              && r.value.runningIdentity == Get(engine, "_running_identity")
              && r.value.promptPrefix == GetDefault(engine, "prompt_prefix", Str(""))
  {
    var (policy, sha) :- PolicyDeclaration(w, engine);
    var declared := Get(engine, "vocab_size");
    var fromFile :- if declared.Null? then fileVocabulary else Ok(0);
    var vocabulary := if declared.Null? then Int(fromFile) else declared;
    if !vocabulary.Int? || vocabulary.n <= 0 then Err("vocabulary_size_missing") else
    Ok(Prepared(GetDefault(engine, "engine", Str("llama.cpp")), pins, policy, sha, vocabulary.n,
                Get(engine, "_running_identity"), GetDefault(engine, "prompt_prefix", Str("")), Str(modelPath)))
  }

  // ---------- Tokenizer requests ----------

  const APPLY_FIELDS: seq<string> :=
    ["chat_template", "chat_template_kwargs", "continue_final_message", "add_generation_prompt", "enable_thinking",
     "reasoning_format", "date_string", "tools", "tool_choice"]

  function Copied(body: Fields, request: Fields, names: seq<string>): Fields
    decreases |names|
  {
    if names == [] then body
    else Copied(if names[0] in request then body[names[0] := request[names[0]]] else body, request, names[1..])
  }

  /** The body of an apply-template request: the messages, the template controls, and the policy's default kwargs. */
  function ApplyBody(policy: Fields, request: Fields): Fields
    requires Messages(request).Ok?
  {
    var body := Copied(map["messages" := Arr(Messages(request).value)], request, APPLY_FIELDS);
    var prompted := if "add_generation_prompt" in body then body else body["add_generation_prompt" := Bool(true)];
    var kwargs := Get(policy, "chat_template_kwargs");
    if "chat_template_kwargs" !in prompted && kwargs.Obj? then prompted["chat_template_kwargs" := kwargs] else prompted
  }

  /** The body of a tokenize request. The flags of the prompt are read even where generated text has its own. */
  function TokenizeBody(policy: Fields, text: string, kind: string): Result<Fields, string> {
    var shared := GetDefault(policy, kind, PromptFlags(policy));
    var flags :- if kind != "generated" then Ok(shared)
                 else if !shared.Obj? || "parse_special" !in shared.fields then Err("producer_error")
                 else Ok(GetDefault(policy, "generated",
                        Obj(map["add_special" := Bool(false), "parse_special" := shared.fields["parse_special"]])));
    var (addSpecial, parseSpecial) :- TokenFlags(flags, kind);
    Ok(map["content" := Str(text), "add_special" := Bool(addSpecial), "parse_special" := Bool(parseSpecial)])
  }

  /** One logged exchange; a field that the log lacks is null. */
  datatype Record = Record(requestSha: Value, responseSha: Value, requestHex: Value, responseHex: Value)

  datatype PromptLog = PromptLog(applyTemplate: Option<Record>, tokenize: Option<Record>)

  datatype Log = Log(parent: Option<PromptLog>, branch: Option<PromptLog>, generated: Option<PromptLog>)

  function PostJson(w: World, route: Route, body: Fields): Result<(Fields, Record), string> {
    var request := w.dumps(Obj(body));
    match w.server(route, request)
    case None => Err("tokenizer_request_failed")
    case Some(response) =>
      if |response| > MAX_RESPONSE_BYTES then Err("tokenizer_response_too_large") else
      var parsed :- LoadJson(w, response);
      if !parsed.Obj? then Err("tokenizer_response_invalid") else
      Ok((parsed.fields, Record(Str(w.sha256(request)), Str(w.sha256(response)),
                                Str(Text.Hex(request)), Str(Text.Hex(response)))))
  }

  /** The retained response, after its digests and its request have been compared. */
  function ReplayExchange(w: World, record: Option<Record>, expected: Fields): Result<Fields, string> {
    if record.None? then Err("tokenizer_exchanges_missing") else
    var r := record.value;
    var request :- HexBytes(r.requestHex);
    var response :- HexBytes(r.responseHex);
    if r.requestSha != Str(w.sha256(request)) || r.responseSha != Str(w.sha256(response)) then
      Err("tokenizer_exchange_digest_mismatch")
    else
      var sent :- LoadJson(w, request);
      if !Eq(sent, w.reload(Obj(expected))) then Err("tokenizer_exchange_request_differs") else
      var parsed :- LoadJson(w, response);
      if parsed.Obj? then Ok(parsed.fields) else Err("tokenizer_response_invalid")
  }

  // ---------- The tokenizer's answers, live and replayed ----------

  datatype Prompt = Prompt(tokens: seq<int>, rendered: string)

  datatype Independent = Independent(parent: Prompt, branch: Prompt, generated: seq<int>, log: Log)

  function ReadTokens(response: Fields, vocabSize: nat): Result<seq<int>, string> {
    var tokens := Get(response, "tokens");
    if ValidTokens(tokens, vocabSize) then Ok(TokenIds(tokens, vocabSize)) else Err("tokenize_response_invalid")
  }

  function ReadRendered(response: Fields): Result<string, string> {
    var rendered := Get(response, "prompt");
    if rendered.Str? then Ok(rendered.s) else Err("apply_template_response_invalid")
  }

  function TokenizeText(w: World, p: Prepared, text: string, kind: string): Result<(seq<int>, Record), string> {
    var body :- TokenizeBody(p.policy, text, kind);
    var (response, record) :- PostJson(w, Tokenize, body);
    var tokens :- ReadTokens(response, p.vocabSize);
    Ok((tokens, record))
  }

  function ApplyAndTokenize(w: World, p: Prepared, request: Fields): Result<(Prompt, PromptLog), string>
    requires Messages(request).Ok?
  {
    var (response, applied) :- PostJson(w, ApplyTemplate, ApplyBody(p.policy, request));
    var rendered :- ReadRendered(response);
    var (tokens, tokenized) :- TokenizeText(w, p, rendered, "prompt");
    Ok((Prompt(tokens, rendered), PromptLog(Some(applied), Some(tokenized))))
  }

  predicate Requested(parsed: Parsed) {
    Messages(parsed.exchange.parentRequest).Ok? && Messages(parsed.exchange.branchRequest).Ok?
  }

  function RunTokenizer(w: World, p: Prepared, parsed: Parsed): Result<Independent, string>
    requires Requested(parsed)
  {
    var (parent, parentLog) :- ApplyAndTokenize(w, p, parsed.exchange.parentRequest);
    var (branch, branchLog) :- ApplyAndTokenize(w, p, parsed.exchange.branchRequest);
    var (generated, record) :- TokenizeText(w, p, parsed.parentContent, "generated");
    var log := Log(Some(parentLog), Some(branchLog), Some(PromptLog(None, Some(record))));
    Ok(Independent(parent, branch, generated, log))
  }

  function ReplayText(w: World, p: Prepared, record: Option<Record>, text: string, kind: string)
    : Result<seq<int>, string>
  {
    var body :- TokenizeBody(p.policy, text, kind);
    var response :- ReplayExchange(w, record, body);
    ReadTokens(response, p.vocabSize)
  }

  function ReplayPrompt(w: World, p: Prepared, log: Option<PromptLog>, request: Fields): Result<Prompt, string>
    requires Messages(request).Ok?
  {
    if log.None? then Err("tokenizer_exchanges_missing") else
    var response :- ReplayExchange(w, log.value.applyTemplate, ApplyBody(p.policy, request));
    var rendered :- ReadRendered(response);
    var tokens :- ReplayText(w, p, log.value.tokenize, rendered, "prompt");
    Ok(Prompt(tokens, rendered))
  }

  function ReplayTokenizer(w: World, p: Prepared, parsed: Parsed, log: Option<Log>): Result<Independent, string>
    requires Requested(parsed)
  {
    if log.None? then Err("tokenizer_exchanges_missing") else
    var parent :- ReplayPrompt(w, p, log.value.parent, parsed.exchange.parentRequest);
    var branch :- ReplayPrompt(w, p, log.value.branch, parsed.exchange.branchRequest);
    var record := if log.value.generated.Some? then log.value.generated.value.tokenize else None;
    var generated :- ReplayText(w, p, record, parsed.parentContent, "generated");
    Ok(Independent(parent, branch, generated, log.value))
  }

  // ---------- Comparing the answers with the wire ----------

  function RenderedPrompt(p: Prepared, rendered: string): Result<string, string> {
    if !p.promptPrefix.Str? then Err("llama_prompt_prefix_invalid")
    else Ok(if p.promptPrefix.s <= rendered then rendered else p.promptPrefix.s + rendered)
  }

  function CheckGenerationPrompt(p: Prepared, independent: Independent): Check {
    var suffix := Get(p.policy, "generation_prompt_suffix");
    if suffix.Null? then Ok(())
    else if !suffix.Str? || suffix.s == "" then Err("generation_prompt_suffix_invalid")
    else Need(Text.EndsWith(independent.parent.rendered, suffix.s)
              && Text.EndsWith(independent.branch.rendered, suffix.s),
              "llama_generation_prompt_incompatible")
  }

  function CheckLlamaParent(p: Prepared, parsed: Parsed, independent: Independent): (r: Check)
    ensures r.Ok? ==> Eq(Get(parsed.exchange.parentWire.verbose, "tokens_cached"),
                         Int(|independent.parent.tokens| + |parsed.generatedTokens| - 1))
  {
    var verbose := parsed.exchange.parentWire.verbose;
    var settings := Get(verbose, "generation_settings");
    if !settings.Obj? then Err("llama_parent_generation_settings_missing") else
    var _ :- Need(Get(settings.fields, "speculative.types") == Str("none"), "unsupported_llama_parent_speculation");
    var prompt :- RenderedPrompt(p, independent.parent.rendered);
    var _ :- Need(Get(verbose, "prompt") == Str(prompt), "llama_parent_prompt_mismatch");
    var _ :- Need(Eq(Get(verbose, "id_slot"), Get(parsed.exchange.parentRequest, "id_slot")),
                  "llama_parent_slot_mismatch");
    var prompts, generated := |independent.parent.tokens|, |parsed.generatedTokens|;
    var _ :- Need(Eq(Get(verbose, "tokens_evaluated"), Int(prompts)), "llama_parent_prompt_count_mismatch");
    var _ :- Need(Eq(Get(verbose, "tokens_predicted"), Int(generated)), "llama_parent_generated_count_mismatch");
    var _ :- Need(Eq(Get(verbose, "tokens_cached"), Int(prompts + generated - 1)),
                  "llama_parent_cached_count_mismatch");
    Need(Get(verbose, "stop_type") == Str("limit") && Get(verbose, "truncated") == Bool(false),
         "unsupported_llama_parent_stop")
  }

  function CheckLlamaBranch(p: Prepared, parsed: Parsed, independent: Independent): (r: Result<int, string>)
    ensures r.Ok? ==> 0 <= r.value <= |independent.branch.tokens|
  {
    var wire := parsed.exchange.branchWire;
    var prompt :- RenderedPrompt(p, independent.branch.rendered);
    var _ :- Need(Get(wire.verbose, "prompt") == Str(prompt), "llama_branch_prompt_mismatch");
    var _ :- Need(Eq(Get(wire.verbose, "id_slot"), Get(parsed.exchange.branchRequest, "id_slot")),
                  "llama_branch_slot_mismatch");
    var reasons := wire.events.finishReasons;
    var _ :- Need(("stop_type" in wire.verbose ==> wire.verbose["stop_type"] == Str("limit"))
                  && ("truncated" in wire.verbose ==> wire.verbose["truncated"] == Bool(false))
                  && reasons != [] && reasons[|reasons| - 1] == Str("length"), "unsupported_llama_branch_stop");
    var count := |independent.branch.tokens|;
    if wire.usage.None? || !Eq(Get(wire.usage.value, "prompt_tokens"), Int(count)) then
      Err("llama_branch_prompt_count_mismatch")
    else
      var details := Get(wire.usage.value, "prompt_tokens_details");
      var observed := if details.Obj? then Get(details.fields, "cached_tokens") else Null;
      if !IsCount(observed) then Err("llama_branch_cached_count_missing")
      else if observed.n > count then Err("llama_branch_cached_count_invalid")
      else Ok(observed.n)
  }

  // ---------- Evidence ----------

  /** The retained record of the tokenizer; a field that a stored record lacks is null. */
  datatype Oracle = Oracle(
    engine: Value,
    pins: Pins,
    policySha: Value,
    policy: Value,
    vocabSize: Value,
    applyRequests: string,
    applyResponses: string,
    tokenizeRequests: string,
    tokenizeResponses: string,
    rawParent: string,
    rawBranch: string,
    exchanges: Option<Log>,
    slotCopy: Option<SlotCopy>,
    parentKwargs: Value,
    branchKwargs: Value)

  datatype Evidence = Evidence(
    parentServiceRequestId: Value,
    serviceRequestId: Value,
    processInstanceId: Value,
    workloadEpoch: Value,
    parentRequestSha: string,
    requestSha: string,
    canonicalPrefixSha: string,
    canonicalRequestSha: string,
    parentPromptTokens: seq<int>,
    parentGeneratedTokens: seq<int>,
    parentEvaluatedTokens: seq<int>,
    requestTokens: seq<int>,
    parentEvaluatedCount: nat,
    expectedReusedCount: int,
    observedReusedCount: int,
    oracle: Oracle)

  function Digests(records: seq<Option<Record>>, response: bool): seq<Value> {
    if records == [] then []
    else
      var rest := Digests(records[1..], response);
      if records[0].None? then rest else
      var digest := if response then records[0].value.responseSha else records[0].value.requestSha;
      if digest.Str? then [digest] + rest else rest
  }

  function RecordDigest(w: World, log: Log, tokenize: bool, response: bool): string {
    var pick := (p: Option<PromptLog>) =>
      if p.None? then None else if tokenize then p.value.tokenize else p.value.applyTemplate;
    w.sha256(w.canonical(Arr(Digests([pick(log.parent), pick(log.branch), pick(log.generated)], response))))
  }

  function MakeOracle(w: World, p: Prepared, parsed: Parsed, log: Log): Oracle
    requires Requested(parsed)
  {
    Oracle(p.engine, p.pins, p.policySha, Obj(p.policy), Int(p.vocabSize),
           RecordDigest(w, log, false, false), RecordDigest(w, log, false, true),
           RecordDigest(w, log, true, false), RecordDigest(w, log, true, true),
           parsed.exchange.parentWire.rawSha, parsed.exchange.branchWire.rawSha, Some(log), parsed.exchange.slotCopy,
           Get(ApplyBody(p.policy, parsed.exchange.parentRequest), "chat_template_kwargs"),
           Get(ApplyBody(p.policy, parsed.exchange.branchRequest), "chat_template_kwargs"))
  }

  function CheckSlotBoundary(parsed: Parsed): Check {
    if parsed.exchange.slotCopy.None? then Ok(())
    else Need(Eq(Get(parsed.exchange.parentWire.verbose, "tokens_cached"),
                 Int(parsed.exchange.slotCopy.value.savedTokens)), "llama_slot_copy_boundary_mismatch")
  }

  /** Compares the tokenizer's answers with the verbose data and builds the evidence. */
  function Prove(w: World, p: Prepared, raw: Raw, parsed: Parsed, independent: Independent): Result<Evidence, string>
    requires Requested(parsed)
    requires HasIdentity(parsed.exchange.parentWire.events.metadata)
    requires HasIdentity(parsed.exchange.branchWire.events.metadata)
  {
    var _ :- Need(independent.generated == parsed.generatedTokens, "generated_token_ids_differ_from_fresh_tokenizer");
    var _ :- CheckGenerationPrompt(p, independent);
    var _ :- CheckLlamaParent(p, parsed, independent);
    var _ :- CheckSlotBoundary(parsed);
    var observed :- CheckLlamaBranch(p, parsed, independent);
    var verbose := parsed.exchange.parentWire.verbose;
    var reuse :- Reuse.CheckedLlamaReuse(Get(verbose, "tokens_cached"), observed, independent.parent.tokens,
                                         parsed.generatedTokens, independent.branch.tokens);
    var one, two := parsed.exchange.parentWire.events.metadata, parsed.exchange.branchWire.events.metadata;
    Ok(Evidence(one["service_request_id"], two["service_request_id"], one["process_instance_id"],
                one["workload_epoch"], w.sha256(raw.parentRequest), w.sha256(raw.branchRequest),
                w.sha256(w.canonical(Arr(parsed.prefixMessages))), w.sha256(w.canonical(Arr(parsed.branchMessages))),
                independent.parent.tokens, parsed.generatedTokens, reuse.evaluated, independent.branch.tokens,
                |reuse.evaluated|, reuse.expected, reuse.observed, MakeOracle(w, p, parsed, independent.log)))
  }

  // ---------- The two producers ----------

  datatype Live = Live(pins: Pins, modelPath: string, fileVocabulary: Result<nat, string>)

  function ProduceLlama(w: World, engine: Fields, live: Live, raw: Raw): Result<Evidence, string> {
    var prepared :- PrepareEngine(w, engine, live.pins, live.modelPath, live.fileVocabulary);
    var (p, parsed) :- ParseLlamaInputs(w, engine, prepared, raw);
    var independent :- RunTokenizer(w, p, parsed);
    Prove(w, p, raw, parsed, independent)
  }

  function PreparedFromOracle(w: World, engine: Fields, oracle: Oracle): Result<Prepared, string> {
    if !oracle.policy.Obj? || oracle.policySha != Str(w.sha256(w.canonical(oracle.policy))) then
      Err("special_tokens_policy_missing")
    else if !oracle.vocabSize.Int? || oracle.vocabSize.n <= 0 then Err("vocabulary_size_missing")
    else Ok(Prepared(oracle.engine, oracle.pins, oracle.policy.fields, oracle.policySha, oracle.vocabSize.n,
                     Get(engine, "_running_identity"), GetDefault(engine, "prompt_prefix", Str("")),
                     Get(engine, "served_model_alias")))
  }

  /** Rebuilds the evidence from the retained record, without a server. */
  function RecomputeLlamaHistory(w: World, engine: Fields, oracle: Oracle, raw: Raw): Result<Evidence, string> {
    var prepared :- PreparedFromOracle(w, engine, oracle);
    var (p, parsed) :- ParseLlamaInputs(w, engine, prepared, raw);
    var independent :- ReplayTokenizer(w, p, parsed, oracle.exchanges);
    Prove(w, p, raw, parsed, independent)
  }
}
