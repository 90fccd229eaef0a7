/**
 The inputs of a retained-history record for llama.cpp: the two requests, the two wire summaries and the slot copy, with
 every check that needs no tokenizer. What lies outside (hashing, JSON text, the walk over raw events, the tokenizer
 server) is an arbitrary function of `World`.
 */
module HistoryInputs {
  import opened Bytes
  import opened Wrappers
  import opened Json
  import Text
  import PosixPath

  type Check = Result<(), string>

  /** The facts that the walk over one request's raw events finds; an absent value is null. */
  datatype Events = Events(
    verbose: Value,
    usage: Value,
    model: Value,
    slotCopy: Value,
    metadata: Fields,
    full: seq<string>,
    deltas: seq<string>,
    direct: seq<string>,
    finishReasons: seq<Value>)

  datatype Route = ApplyTemplate | Tokenize

  datatype World = World(
    sha256: bytes -> string,
    dumps: Value -> bytes,
    loads: bytes -> Option<Value>,
    reload: Value -> Value,
    canonical: Value -> bytes,
    text: Value -> string,
    events: bytes -> Result<Events, string>,
    server: (Route, bytes) -> Option<bytes>)

  /** JSON text keeps a value, no value is empty text, and the text of a string is the string. */
  ghost predicate Faithful(w: World) {
    && (forall v :: w.loads(w.dumps(v)) == Some(v))
    && (forall v :: w.reload(v) == v)
    && w.loads([]) == None
    && (forall s :: w.text(Str(s)) == s)
  }

  // ---------- Engine facts ----------

  /** Digests and names that are read from the pinned files; the model never looks inside them. */
  datatype Pins = Pins(
    sourceCommit: Value,
    executable: Value,
    library: Value,
    gguf: Value,
    tokenizerMetadata: Value,
    metadataScheme: Value,
    templateConfig: Value,
    configScheme: Value,
    templateBytes: Value)

  datatype Prepared = Prepared(
    engine: Value,
    pins: Pins,
    policy: Fields,
    policySha: Value,
    vocabSize: nat,
    runningIdentity: Value,
    promptPrefix: Value,
    model: Value)

  function GetDefault(fields: Fields, key: string, default: Value): Value {
    if key in fields then fields[key] else default
  }

  // ---------- Requests ----------

  const UNSUPPORTED: seq<string> :=
    ["stop", "stop_sequences", "draft_tokens", "adaptive_speculation", "speculation", "response_format"]

  predicate IsMessage(v: Value) {
    v.Obj? && Get(v.fields, "role").Str?
  }

  /** The messages of a request: at least one, each with a textual role and content. */
  function Messages(request: Fields): (r: Result<seq<Value>, string>)
    ensures r.Ok? ==> r.value != [] && forall m :: m in r.value ==> IsMessage(m) && Get(m.fields, "content").Str?
  {
    var v := Get(request, "messages");
    if !v.Arr? || v.items == [] then Err("messages_missing")
    else if exists i :: 0 <= i < |v.items| && !IsMessage(v.items[i]) then Err("message_shape_unsupported")
    else if exists i :: 0 <= i < |v.items| && !Get(v.items[i].fields, "content").Str? then
      Err("message_content_unsupported")
    else Ok(v.items)
  }

  function ParseRequest(w: World, raw: bytes): (r: Result<Fields, string>)
    ensures r.Ok? ==> Messages(r.value).Ok?
  {
    match w.loads(raw)
    case None => Err("invalid_json_input")
    case Some(v) =>
      if !v.Obj? then Err("request_object_required") else
      var _ :- Messages(v.fields);
      Ok(v.fields)
  }

  predicate Unused(v: Value) {
    v.Null? || Eq(v, Bool(false)) || v == Arr([]) || v == Str("")
  }

  function FirstUnsupported(request: Fields, names: seq<string>): Check {
    if names == [] then Ok(())
    else if !Unused(Get(request, names[0])) then Err("unsupported_" + names[0])
    else FirstUnsupported(request, names[1..])
  }

  predicate UsesTools(message: Value) {
    message.Obj? && (Get(message.fields, "role") == Str("tool") || "tool_calls" in message.fields)
  }

  predicate AnyUsesTools(messages: seq<Value>) {
    exists i :: 0 <= i < |messages| && UsesTools(messages[i])
  }

  function CheckRequestScope(request: Fields): Check {
    var _ :- FirstUnsupported(request, UNSUPPORTED);
    var messages :- Messages(request);
    var tools, choice := Get(request, "tools"), Get(request, "tool_choice");
    if AnyUsesTools(messages) then Err("unsupported_tools")
    else if !tools.Null? && tools != Arr([]) then Err("unsupported_tools")
    else Need(choice.Null? || choice == Str("none"), "unsupported_tools")
  }

  predicate IsCount(v: Value) {
    v.Int? && v.n >= 0
  }

  function CheckLlamaRequests(parent: Fields, branch: Fields, engine: Fields): (r: Check)
    ensures r.Ok? ==> IsCount(Get(parent, "id_slot")) && IsCount(Get(branch, "id_slot"))
  {
    var _ :- Need(Get(parent, "stream") == Bool(false) && Get(branch, "stream") == Bool(true),
                  "llama_stream_protocol_mismatch");
    var _ :- Need(forall request | request in [parent, branch] ::
                    Get(request, "verbose") == Bool(true) && Get(request, "cache_prompt") == Bool(true),
                  "llama_verbose_cache_controls_missing");
    var options := Get(branch, "stream_options");
    var _ :- Need(options.Obj? && Get(options.fields, "include_usage") == Bool(true),
                  "llama_branch_usage_controls_missing");
    var _ :- Need(Get(parent, "return_tokens") == Bool(true), "llama_parent_token_controls_missing");
    var slot, declared := Get(parent, "id_slot"), Get(engine, "id_slot");
    var _ :- Need(IsCount(slot) && IsCount(Get(branch, "id_slot")), "llama_slot_identity_missing");
    Need(declared.Null? || Eq(slot, declared), "llama_slot_declaration_mismatch")
  }

  // ---------- Wire summaries ----------

  datatype Wire = Wire(rawSha: string, verbose: Fields, usage: Option<Fields>, events: Events)

  function ParseLlamaWire(w: World, raw: bytes): Result<Wire, string> {
    var events :- w.events(raw);
    if !events.verbose.Obj? then Err("llama_verbose_missing") else
    var usage := if events.usage.Obj? then Some(events.usage.fields) else None;
    Ok(Wire(w.sha256(raw), events.verbose.fields, usage, events))
  }

  function Concat(texts: seq<string>): string {
    if texts == [] then "" else texts[0] + Concat(texts[1..])
  }

  /** The assistant text: one full message, else the joined deltas, else the joined direct texts. */
  function ResponseContent(events: Events): Result<string, string> {
    if events.full != [] then
      if exists i :: 0 <= i < |events.full| && events.full[i] != events.full[0] then Err("assistant_text_ambiguous")
      else Ok(events.full[|events.full| - 1])
    else if events.deltas != [] then Ok(Concat(events.deltas))
    else if events.direct != [] then Ok(Concat(events.direct))
    else Err("assistant_text_missing")
  }

  // ---------- Slot copy ----------

  datatype SlotExchange = SlotExchange(
    filename: string, tokens: nat, size: nat, startNs: nat, endNs: nat, requestSha: string, responseSha: string)

  datatype SlotCopy = SlotCopy(
    parentSlot: nat, branchSlot: nat, filename: string, savedTokens: nat, restoredTokens: nat, byteCount: nat,
    saveRequestSha: string, saveResponseSha: string, restoreRequestSha: string, restoreResponseSha: string,
    restoreElapsedNs: nat)

  function HexBytes(v: Value): (r: Result<bytes, string>)
    ensures r.Ok? ==> r.value != []
  {
    match if v.Str? then Text.FromHex(v.s) else None
    case Some(decoded) => if decoded == [] then Err("llama_slot_copy_bytes_missing") else Ok(decoded)
    case None => Err("llama_slot_copy_bytes_missing")
  }

  function LoadJson(w: World, raw: bytes): Result<Value, string> {
    match w.loads(raw)
    case Some(v) => Ok(v)
    case None => Err("invalid_json_input")
  }

  function SlotReply(w: World, request: bytes, response: bytes, slot: nat): Result<(string, Fields), string> {
    var body :- LoadJson(w, request);
    var reply :- LoadJson(w, response);
    var filename := if body.Obj? then Get(body.fields, "filename") else Null;
    if !reply.Obj? || !filename.Str? || filename.s == "" then Err("llama_slot_copy_response_invalid")
    else if !Eq(Get(reply.fields, "id_slot"), Int(slot)) || Get(reply.fields, "filename") != filename then
      Err("llama_slot_copy_response_mismatch")
    else Ok((filename.s, reply.fields))
  }

  function ReadSlotExchange(w: World, claim: Fields, action: string, slot: nat, tokenField: string, sizeField: string)
    : Result<SlotExchange, string>
  {
    var record := Get(claim, action);
    if !record.Obj? || Get(record.fields, "action") != Str(action) || !Eq(Get(record.fields, "slot"), Int(slot)) then
      Err("llama_slot_copy_action_mismatch")
    else if !Eq(Get(record.fields, "http_status"), Int(200)) then Err("llama_slot_copy_failed")
    else
      var request :- HexBytes(Get(record.fields, "request_hex"));
      var response :- HexBytes(Get(record.fields, "response_hex"));
      var (filename, reply) :- SlotReply(w, request, response, slot);
      var tokens, size := Get(reply, tokenField), Get(reply, sizeField);
      var start, end := Get(record.fields, "request_start_ns"), Get(record.fields, "request_end_ns");
      if !IsCount(tokens) || !IsCount(size) || !IsCount(start) || !IsCount(end) then
        Err("llama_slot_copy_response_invalid")
      else
        Ok(SlotExchange(filename, tokens.n, size.n, start.n, end.n, w.sha256(request), w.sha256(response)))
  }

  /** The copy of the parent's saved slot into the branch's slot, or None when both use one slot. */
  function SlotCopyClaim(w: World, parentSlot: nat, branchSlot: nat, claim: Value)
    : (r: Result<Option<SlotCopy>, string>)
    ensures r.Ok? ==> (r.value.None? <==> parentSlot == branchSlot)
    ensures r.Ok? && r.value.Some? ==> claim.Obj?
    ensures r.Ok? && r.value.Some? ==>
              var c, fields := r.value.value, claim.fields;
              var save := ReadSlotExchange(w, fields, "save", parentSlot, "n_saved", "n_written");
              var restore := ReadSlotExchange(w, fields, "restore", branchSlot, "n_restored", "n_read");
              var start := Get(fields, "branch_request_start_ns");
              && c.parentSlot == parentSlot && c.branchSlot == branchSlot
              && save.Ok? && restore.Ok? && save.value.filename == c.filename == restore.value.filename
              && save.value.tokens == c.savedTokens == c.restoredTokens == restore.value.tokens
              && save.value.size == c.byteCount == restore.value.size > 0
              && IsCount(start) && save.value.endNs < restore.value.startNs <= restore.value.endNs < start.n
              && c.restoreElapsedNs == restore.value.endNs - restore.value.startNs
  {
    if parentSlot == branchSlot then
      if claim.Null? then Ok(None) else Err("llama_slot_copy_unexpected")
    else if !claim.Obj? then Err("llama_slot_copy_missing")
    else
      var save :- ReadSlotExchange(w, claim.fields, "save", parentSlot, "n_saved", "n_written");
      var restore :- ReadSlotExchange(w, claim.fields, "restore", branchSlot, "n_restored", "n_read");
      var start := Get(claim.fields, "branch_request_start_ns");
      if save.filename != restore.filename then Err("llama_slot_copy_file_mismatch")
      else if save.tokens != restore.tokens || save.size != restore.size || save.size <= 0 then
        Err("llama_slot_copy_count_mismatch")
      else if !IsCount(start) || !(save.endNs < restore.startNs <= restore.endNs < start.n) then
        Err("llama_slot_copy_order_invalid")
      else
        Ok(Some(SlotCopy(parentSlot, branchSlot, save.filename, save.tokens, restore.tokens, save.size,
                         save.requestSha, save.responseSha, restore.requestSha, restore.responseSha,
                         restore.endNs - restore.startNs)))
  }

  // ---------- Identity ----------

  /** The declared process identity, as text, wherever the declaration holds it. */
  function RunningProcess(w: World, v: Value): Option<string> {
    if !v.Obj? then None else
    var start := if Get(v.fields, "start").Obj? then Get(v.fields, "start").fields else v.fields;
    var identity := Get(start, "identity");
    if !identity.Obj? then None else
    var instance, startNs := Get(identity.fields, "process_instance_id"), Get(identity.fields, "process_start_ns");
    if instance.Str? || instance.Int? then Some(w.text(instance))
    else if startNs.Str? || startNs.Int? then Some(w.text(startNs))
    else None
  }

  /** A response names the expected model in full or by its base name. */
  predicate NamesModel(w: World, observed: Value, expected: Value) {
    var name := w.text(expected);
    !observed.Null? && (w.text(observed) == name || w.text(observed) == PosixPath.BaseName(name))
  }

  function CheckModel(w: World, observed: Value, expected: Value): (r: Check)
    ensures r.Ok? <==> NamesModel(w, observed, expected)
  {
    if observed.Null? then Err("llama_response_model_missing")
    else Need(NamesModel(w, observed, expected), "llama_response_model_mismatch")
  }

  predicate HasIdentity(metadata: Fields) {
    && "service_request_id" in metadata && "process_instance_id" in metadata && "workload_epoch" in metadata
  }

  function CheckLlamaIdentity(w: World, parent: Wire, branch: Wire, prepared: Prepared): (r: Check)
    ensures r.Ok? ==> HasIdentity(parent.events.metadata) && HasIdentity(branch.events.metadata)
  {
    var one, two := parent.events.metadata, branch.events.metadata;
    if !HasIdentity(one) || !HasIdentity(two) then Err("service_identity_missing") else
    var _ :- Need(Eq(one["process_instance_id"], two["process_instance_id"]), "service_identity_changed");
    var _ :- Need(Eq(one["workload_epoch"], two["workload_epoch"]), "service_identity_changed");
    var process := RunningProcess(w, prepared.runningIdentity);
    var _ :- Need(process.None? || (w.text(one["process_instance_id"]) == process.value
                                    && w.text(two["process_instance_id"]) == process.value),
                  "service_process_identity_mismatch");
    var _ :- CheckModel(w, parent.events.model, prepared.model);
    var _ :- CheckModel(w, branch.events.model, prepared.model);
    Need(Eq(Get(two, "parent_service_request_id"), one["service_request_id"]),
         "parent_service_request_identity_missing")
  }

  // ---------- All inputs ----------

  datatype Raw = Raw(parentRequest: bytes, parentEvents: bytes, branchRequest: bytes, branchEvents: bytes)

  datatype Parsed = Parsed(
    exchange: Exchange,
    parentContent: string,
    prefixMessages: seq<Value>,
    branchMessages: seq<Value>,
    generatedTokens: seq<int>)

  predicate ValidTokens(v: Value, vocabulary: nat) {
    v.Arr? && forall i | 0 <= i < |v.items| :: v.items[i].Int? && 0 <= v.items[i].n < vocabulary
  }

  function TokenIds(v: Value, vocabulary: nat): (ids: seq<int>)
    requires ValidTokens(v, vocabulary)
    ensures |ids| == |v.items| && forall i :: 0 <= i < |ids| ==> v.items[i] == Int(ids[i]) && 0 <= ids[i] < vocabulary
  {
    seq(|v.items|, i requires 0 <= i < |v.items| => v.items[i].n)
  }

  function AssistantMessage(content: string): Value {
    Obj(map["role" := Str("assistant"), "content" := Str(content)])
  }

  /** The engine's model fixes itself from the parent's response when nothing else names it. */
  function WithModel(prepared: Prepared, parent: Wire): Prepared {
    if prepared.model.Null? then prepared.(model := parent.events.model) else prepared
  }

  datatype Exchange = Exchange(
    parentRequest: Fields, branchRequest: Fields, parentWire: Wire, branchWire: Wire, slotCopy: Option<SlotCopy>)

  /** The checks that no prepared fact enters. */
  function ParseExchange(w: World, engine: Fields, raw: Raw): (r: Result<Exchange, string>)
    ensures r.Ok? ==>
              var parentSlot := Get(r.value.parentRequest, "id_slot");
              var branchSlot := Get(r.value.branchRequest, "id_slot");
              && IsCount(parentSlot) && IsCount(branchSlot)
              && Messages(r.value.parentRequest).Ok? && Messages(r.value.branchRequest).Ok?
              && (r.value.slotCopy.Some? ==>
                   r.value.slotCopy.value.savedTokens == r.value.slotCopy.value.restoredTokens)
              && (r.value.slotCopy.None? <==> parentSlot.n == branchSlot.n)
  {
    var parent :- ParseRequest(w, raw.parentRequest);
    var branch :- ParseRequest(w, raw.branchRequest);
    var _ :- CheckRequestScope(parent);
    var _ :- CheckRequestScope(branch);
    var _ :- CheckLlamaRequests(parent, branch, engine);
    var parentWire :- ParseLlamaWire(w, raw.parentEvents);
    var branchWire :- ParseLlamaWire(w, raw.branchEvents);
    var slotCopy :- SlotCopyClaim(w, Get(parent, "id_slot").n, Get(branch, "id_slot").n, branchWire.events.slotCopy);
    Ok(Exchange(parent, branch, parentWire, branchWire, slotCopy))
  }

  /** The branch must repeat the parent's messages and answer, and go on; the answer must have valid tokens. */
  function ParseHistory(e: Exchange, vocabSize: nat): Result<Parsed, string>
    requires Messages(e.parentRequest).Ok? && Messages(e.branchRequest).Ok?
  {
    var content :- ResponseContent(e.parentWire.events);
    var branchMessages := Messages(e.branchRequest).value;
    var prefix := Messages(e.parentRequest).value + [AssistantMessage(content)];
    var shared := if |prefix| <= |branchMessages| then |prefix| else |branchMessages|;
    if !Eq(Arr(branchMessages[..shared]), Arr(prefix)) then Err("branch_history_differs_from_parent_response")
    else if |branchMessages| <= |prefix| then Err("branch_has_no_new_message")
    else
      var tokens := Get(e.parentWire.verbose, "tokens");
      if !ValidTokens(tokens, vocabSize) || tokens.items == [] then Err("llama_parent_generated_tokens_missing")
      else Ok(Parsed(e, content, prefix, branchMessages, TokenIds(tokens, vocabSize)))
  }

  /** Checks every fact that needs no tokenizer. */
  function ParseLlamaInputs(w: World, engine: Fields, prepared: Prepared, raw: Raw)
    : (r: Result<(Prepared, Parsed), string>)
    ensures r.Ok? ==> var (p, parsed) := r.value;
              && ParseExchange(w, engine, raw) == Ok(parsed.exchange)
              && p == WithModel(prepared, parsed.exchange.parentWire)
              && CheckLlamaIdentity(w, parsed.exchange.parentWire, parsed.exchange.branchWire, p).Ok?
  {
    var exchange :- ParseExchange(w, engine, raw);
    var fixed := WithModel(prepared, exchange.parentWire);
    var _ :- CheckLlamaIdentity(w, exchange.parentWire, exchange.branchWire, fixed);
    var parsed :- ParseHistory(exchange, prepared.vocabSize);
    Ok((fixed, parsed))
  }

  lemma IdentityDependsOnModel(w: World, parent: Wire, branch: Wire, one: Prepared, two: Prepared)
    requires CheckLlamaIdentity(w, parent, branch, one).Ok?
    requires two.runningIdentity == one.runningIdentity
    ensures CheckLlamaIdentity(w, parent, branch, two).Ok? <==>
            NamesModel(w, parent.events.model, two.model) && NamesModel(w, branch.events.model, two.model)
  {
    hide Eq, RunningProcess, NamesModel;
  }

  /** Of the prepared facts, parsing reads the vocabulary size and the running process, and compares the model names. */
  lemma ParseDependsOnModel(w: World, engine: Fields, one: Prepared, two: Prepared, raw: Raw)
    requires ParseLlamaInputs(w, engine, one, raw).Ok?
    requires two == one.(model := two.model)
    ensures var parsed := ParseLlamaInputs(w, engine, one, raw).value.1;
            var parentWire, branchWire := parsed.exchange.parentWire, parsed.exchange.branchWire;
            var fixed := WithModel(two, parentWire);
            var agreed := NamesModel(w, parentWire.events.model, fixed.model)
                          && NamesModel(w, branchWire.events.model, fixed.model);
            var r := ParseLlamaInputs(w, engine, two, raw);
            && (agreed ==> r == Ok((fixed, parsed)))
            && (!agreed ==> r.Err?)
  {
    hide ParseExchange, ParseHistory, CheckLlamaIdentity, NamesModel;
    var exchange := ParseExchange(w, engine, raw).value;
    IdentityDependsOnModel(w, exchange.parentWire, exchange.branchWire,
                           WithModel(one, exchange.parentWire), WithModel(two, exchange.parentWire));
  }
}
