/**
 What evidence a replay accepts: the requests, the wire reports and the log, each said in full, and what the evidence
 reports about them. A replay accepts exactly the inputs for which all of this holds.
 */
module HistoryAcceptance {
  import opened Bytes
  import opened Wrappers
  import opened Json
  import opened HistoryInputs
  import opened History
  import opened HistoryReplay
  import opened HistoryLog
  import PosixPath
  import Reuse
  import Text

  // ---------- Requests ----------

  predicate HasMessages(request: Fields) {
    var v := Get(request, "messages");
    && v.Arr? && v.items != []
    && forall m :: m in v.items ==> m.Obj? && Get(m.fields, "role").Str? && Get(m.fields, "content").Str?
  }

  lemma MessagesAreThose(request: Fields)
    ensures Messages(request).Ok? <==> HasMessages(request)
    ensures Messages(request).Ok? ==> Messages(request).value == Get(request, "messages").items
  {
    var v := Get(request, "messages");
    if v.Arr? {
      assert forall i :: 0 <= i < |v.items| ==> v.items[i] in v.items;
    }
  }

  /** Null, false, zero, or empty: the values that count as not set. */
  predicate NotSet(v: Value) {
    v.Null? || v == Bool(false) || v == Int(0) || (v.Float? && v.numerator == 0) || v == Arr([]) || v == Str("")
  }

  lemma NotSetIsUnused(v: Value)
    ensures Unused(v) <==> NotSet(v)
  {
    if v.Float? {
      RatioIsZero(v.numerator, v.denominator);
    }
  }

  lemma RatioIsZero(n: int, d: int)
    requires d > 0
    ensures n as real / d as real == 0.0 <==> n == 0
  {
    if n as real / d as real == 0.0 {
      assert n as real == (n as real / d as real) * d as real;
    }
  }

  predicate NoneSet(request: Fields) {
    forall name | name in {"stop", "stop_sequences", "draft_tokens", "adaptive_speculation", "speculation",
                           "response_format"} :: NotSet(Get(request, name))
  }

  predicate NoTools(messages: seq<Value>) {
    forall m :: m in messages && m.Obj? ==> Get(m.fields, "role") != Str("tool") && "tool_calls" !in m.fields
  }

  /** The request uses no feature that a plain history lacks. */
  predicate InScope(request: Fields)
    requires HasMessages(request)
  {
    && NoneSet(request)
    && NoTools(Get(request, "messages").items)
    && (Get(request, "tools").Null? || Get(request, "tools") == Arr([]))
    && (Get(request, "tool_choice").Null? || Get(request, "tool_choice") == Str("none"))
  }

  lemma {:induction false} FirstUnsupportedIsNone(request: Fields, names: seq<string>)
    ensures FirstUnsupported(request, names).Ok? <==> forall name :: name in names ==> NotSet(Get(request, name))
  {
    if names != [] {
      NotSetIsUnused(Get(request, names[0]));
      FirstUnsupportedIsNone(request, names[1..]);
      assert names == [names[0]] + names[1..];
    }
  }

  lemma UnsupportedAreThose(request: Fields)
    ensures FirstUnsupported(request, UNSUPPORTED).Ok? <==> NoneSet(request)
  {
    hide NotSet, FirstUnsupported;
    FirstUnsupportedIsNone(request, UNSUPPORTED);
    assert forall name :: name in UNSUPPORTED <==>
        name in {"stop", "stop_sequences", "draft_tokens", "adaptive_speculation", "speculation", "response_format"};
  }

  lemma ScopeIsThat(request: Fields)
    requires HasMessages(request)
    ensures CheckRequestScope(request).Ok? <==> InScope(request)
  {
    hide FirstUnsupported, NoneSet, NoTools, Messages, AnyUsesTools;
    MessagesAreThose(request);
    UnsupportedAreThose(request);
    ToolsAreUnused(Messages(request).value);
  }

  lemma ToolsAreUnused(messages: seq<Value>)
    ensures AnyUsesTools(messages) <==> !NoTools(messages)
  {
    assert forall i :: 0 <= i < |messages| ==> messages[i] in messages;
  }

  /** The controls that make the two requests comparable. */
  predicate Controlled(parent: Fields, branch: Fields, engine: Fields) {
    && Get(parent, "stream") == Bool(false) && Get(branch, "stream") == Bool(true)
    && Get(parent, "verbose") == Bool(true) && Get(branch, "verbose") == Bool(true)
    && Get(parent, "cache_prompt") == Bool(true) && Get(branch, "cache_prompt") == Bool(true)
    && Get(branch, "stream_options").Obj?
    && Get(Get(branch, "stream_options").fields, "include_usage") == Bool(true)
    && Get(parent, "return_tokens") == Bool(true)
    && IsCount(Get(parent, "id_slot")) && IsCount(Get(branch, "id_slot"))
    && (Get(engine, "id_slot").Null? || Equals(Get(engine, "id_slot"), Get(parent, "id_slot").n))
  }

  /** The value is numerically the integer. */
  predicate Equals(v: Value, n: int) {
    Numeric(v) && Number(v) == n as real
  }

  lemma ControlsAreThose(parent: Fields, branch: Fields, engine: Fields)
    ensures CheckLlamaRequests(parent, branch, engine).Ok? <==> Controlled(parent, branch, engine)
  {
  }

  // ---------- Wire reports ----------

  predicate Reports(w: World, raw: bytes, wire: Wire) {
    && w.events(raw) == Ok(wire.events) && wire.rawSha == w.sha256(raw)
    && wire.events.verbose == Obj(wire.verbose)
    && wire.usage == if wire.events.usage.Obj? then Some(wire.events.usage.fields) else None
  }

  lemma WireIsReport(w: World, raw: bytes, wire: Wire)
    ensures ParseLlamaWire(w, raw) == Ok(wire) <==> Reports(w, raw, wire)
  {
  }

  /** One slot exchange: an HTTP success for the slot, about one named file, with its counts and times. */
  predicate CopiesSlot(
    w: World, claim: Fields, action: string, slot: nat, tokens: string, size: string, x: SlotExchange)
  {
    && Get(claim, action).Obj? &&
    var record := Get(claim, action).fields;
    && Get(record, "action") == Str(action) && Equals(Get(record, "slot"), slot)
    && Equals(Get(record, "http_status"), 200)
    && Get(record, "request_hex").Str? && Get(record, "response_hex").Str? &&
    var request, response := Text.FromHex(Get(record, "request_hex").s), Text.FromHex(Get(record, "response_hex").s);
    && request.Some? && request.value != [] && response.Some? && response.value != []
    && x.requestSha == w.sha256(request.value) && x.responseSha == w.sha256(response.value)
    && w.loads(request.value).Some? && w.loads(request.value).value.Obj?
    && w.loads(response.value).Some? && w.loads(response.value).value.Obj? &&
    var asked, told := w.loads(request.value).value.fields, w.loads(response.value).value.fields;
    && Get(asked, "filename") == Str(x.filename) == Get(told, "filename") && x.filename != ""
    && Equals(Get(told, "id_slot"), slot)
    && Get(told, tokens) == Int(x.tokens) && Get(told, size) == Int(x.size)
    && Get(record, "request_start_ns") == Int(x.startNs) && Get(record, "request_end_ns") == Int(x.endNs)
  }

  lemma SlotExchangeIsThat(
    w: World, claim: Fields, action: string, slot: nat, tokens: string, size: string, x: SlotExchange)
    ensures ReadSlotExchange(w, claim, action, slot, tokens, size) == Ok(x)
            <==> CopiesSlot(w, claim, action, slot, tokens, size, x)
  {
    hide Text.FromHex;
  }

  /** With one slot there is no copy; with two, one file is saved from the first and then restored into the second. */
  ghost predicate SlotCopied(w: World, parentSlot: nat, branchSlot: nat, claim: Value, copy: Option<SlotCopy>) {
    if parentSlot == branchSlot then claim.Null? && copy == None else
    && claim.Obj?
    && exists save, restore, start: nat ::
      && CopiesSlot(w, claim.fields, "save", parentSlot, "n_saved", "n_written", save)
      && CopiesSlot(w, claim.fields, "restore", branchSlot, "n_restored", "n_read", restore)
      && save.filename == restore.filename && save.tokens == restore.tokens && save.size == restore.size > 0
      && Get(claim.fields, "branch_request_start_ns") == Int(start)
      && save.endNs < restore.startNs <= restore.endNs < start
      && copy == Some(SlotCopy(parentSlot, branchSlot, save.filename, save.tokens, save.tokens, save.size,
                               save.requestSha, save.responseSha, restore.requestSha, restore.responseSha,
                               restore.endNs - restore.startNs))
  }

  lemma SlotCopyIsThat(w: World, parentSlot: nat, branchSlot: nat, claim: Value, copy: Option<SlotCopy>)
    ensures SlotCopyClaim(w, parentSlot, branchSlot, claim) == Ok(copy)
            <==> SlotCopied(w, parentSlot, branchSlot, claim, copy)
  {
    hide ReadSlotExchange, CopiesSlot;
    if parentSlot != branchSlot && claim.Obj? {
      forall x {
        SlotExchangeIsThat(w, claim.fields, "save", parentSlot, "n_saved", "n_written", x);
      }
      forall x {
        SlotExchangeIsThat(w, claim.fields, "restore", branchSlot, "n_restored", "n_read", x);
      }
    }
  }

  // ---------- One service, one history ----------

  /** The name that a declared process goes by, looked up as the declaration nests it. */
  predicate DeclaresProcess(w: World, v: Value, name: string) {
    && v.Obj? &&
    var start := if Get(v.fields, "start").Obj? then Get(v.fields, "start").fields else v.fields;
    && Get(start, "identity").Obj? &&
    var identity := Get(start, "identity").fields;
    var instance, startNs := Get(identity, "process_instance_id"), Get(identity, "process_start_ns");
    if instance.Str? || instance.Int? then name == w.text(instance)
    else (startNs.Str? || startNs.Int?) && name == w.text(startNs)
  }

  lemma ProcessIsDeclared(w: World, v: Value)
    ensures forall name :: RunningProcess(w, v) == Some(name) <==> DeclaresProcess(w, v, name)
  {
  }

  /** The response names the model in full, or by the last part of its path. */
  predicate Named(w: World, observed: Value, model: Value) {
    && !observed.Null?
    && (w.text(observed) == w.text(model)
        || w.text(observed) == (var parts := PosixPath.Parts(w.text(model));
                                if parts == [] then "" else parts[|parts| - 1]))
  }

  /** Both responses come from one process and epoch, name the model, and the branch names the parent's request. */
  ghost predicate OneService(w: World, parent: Wire, branch: Wire, p: Prepared) {
    var one, two := parent.events.metadata, branch.events.metadata;
    && {"service_request_id", "process_instance_id", "workload_epoch"} <= one.Keys
    && {"service_request_id", "process_instance_id", "workload_epoch"} <= two.Keys
    && Eq(one["process_instance_id"], two["process_instance_id"])
    && Eq(one["workload_epoch"], two["workload_epoch"])
    && (forall name :: DeclaresProcess(w, p.runningIdentity, name) ==>
          w.text(one["process_instance_id"]) == name == w.text(two["process_instance_id"]))
    && Named(w, parent.events.model, p.model) && Named(w, branch.events.model, p.model)
    && Eq(Get(two, "parent_service_request_id"), one["service_request_id"])
  }

  lemma IdentityIsOneService(w: World, parent: Wire, branch: Wire, p: Prepared)
    ensures CheckLlamaIdentity(w, parent, branch, p).Ok? <==> OneService(w, parent, branch, p)
  {
    hide Eq, RunningProcess, DeclaresProcess, PosixPath.Parts;
    ProcessIsDeclared(w, p.runningIdentity);
    var process := RunningProcess(w, p.runningIdentity);
    assert process.Some? ==> DeclaresProcess(w, p.runningIdentity, process.value);
  }

  /** The assistant's text: the full messages agree on it, else the deltas spell it, else the direct texts do. */
  predicate Answers(events: Events, text: string) {
    if events.full != [] then forall full :: full in events.full ==> full == text
    else if events.deltas != [] then Concat(events.deltas) == text
    else events.direct != [] && Concat(events.direct) == text
  }

  lemma ContentIsAnswer(events: Events, text: string)
    ensures ResponseContent(events) == Ok(text) <==> Answers(events, text)
  {
    hide Concat;
    assert forall i :: 0 <= i < |events.full| ==> events.full[i] in events.full;
  }

  /** Joining texts keeps each of them, in order. */
  lemma {:induction false} ConcatAppends(one: seq<string>, two: seq<string>, text: string)
    ensures Concat(one + two) == Concat(one) + Concat(two)
    ensures Concat([text]) == text
  {
    if one == [] {
      assert one + two == two;
    } else {
      assert (one + two)[1..] == one[1..] + two;
      ConcatAppends(one[1..], two, text);
    }
  }

  /** The branch repeats the parent's messages and the assistant's answer, and adds at least one more message. */
  predicate Continues(parent: Fields, branch: Fields, answer: string, prefix: seq<Value>, messages: seq<Value>) {
    && Get(parent, "messages").Arr? && Get(branch, "messages") == Arr(messages)
    && prefix == Get(parent, "messages").items + [Obj(map["role" := Str("assistant"), "content" := Str(answer)])]
    && |prefix| < |messages|
    && forall k :: 0 <= k < |prefix| ==> Eq(messages[k], prefix[k])
  }

  lemma PrefixIsEqual(messages: seq<Value>, prefix: seq<Value>)
    requires forall m :: m in prefix ==> m.Obj?
    ensures |prefix| <= |messages| ==>
              (Eq(Arr(messages[..|prefix|]), Arr(prefix)) <==>
               forall k :: 0 <= k < |prefix| ==> Eq(messages[k], prefix[k]))
    ensures |messages| < |prefix| ==> !Eq(Arr(messages), Arr(prefix))
  {
    if |prefix| <= |messages| {
      var cut := messages[..|prefix|];
      assert forall k :: 0 <= k < |prefix| ==> cut[k] == messages[k] && prefix[k] in prefix;
    }
  }

  lemma HistoryContinues(e: Exchange, vocabSize: nat, parsed: Parsed)
    requires HasMessages(e.parentRequest) && HasMessages(e.branchRequest)
    requires Messages(e.parentRequest).Ok? && Messages(e.branchRequest).Ok?
    ensures ParseHistory(e, vocabSize) == Ok(parsed) <==>
              && parsed.exchange == e
              && Answers(e.parentWire.events, parsed.parentContent)
              && Continues(e.parentRequest, e.branchRequest, parsed.parentContent, parsed.prefixMessages,
                           parsed.branchMessages)
              && HoldsTokens(e.parentWire.verbose, parsed.generatedTokens, vocabSize) && parsed.generatedTokens != []
  {
    hide ResponseContent, Answers, Messages, Eq, ValidTokens;
    MessagesAreThose(e.parentRequest);
    MessagesAreThose(e.branchRequest);
    ContentIsAnswer(e.parentWire.events, parsed.parentContent);
    var content := ResponseContent(e.parentWire.events);
    if content.Ok? {
      ContentIsAnswer(e.parentWire.events, content.value);
      var messages := Get(e.branchRequest, "messages").items;
      var prefix := Get(e.parentRequest, "messages").items + [AssistantMessage(content.value)];
      PrefixIsEqual(messages, prefix);
      assert |messages| < |prefix| ==> messages[..|messages|] == messages;
      AnswerTokens(e.parentWire.verbose, vocabSize, parsed.generatedTokens);
    }
  }

  lemma AnswerTokens(verbose: Fields, vocabSize: nat, tokens: seq<int>)
    ensures var v := Get(verbose, "tokens");
            (ValidTokens(v, vocabSize) && v.items != [] && TokenIds(v, vocabSize) == tokens) <==>
            HoldsTokens(verbose, tokens, vocabSize) && tokens != []
  {
    TokensAreHeld(verbose, tokens, vocabSize);
  }

  // ---------- All inputs ----------

  /** What the raw inputs hold, when every check that needs no tokenizer passes. */
  ghost predicate Exchanged(w: World, engine: Fields, raw: Raw, e: Exchange) {
    && w.loads(raw.parentRequest) == Some(Obj(e.parentRequest))
    && w.loads(raw.branchRequest) == Some(Obj(e.branchRequest))
    && HasMessages(e.parentRequest) && HasMessages(e.branchRequest)
    && InScope(e.parentRequest) && InScope(e.branchRequest)
    && Controlled(e.parentRequest, e.branchRequest, engine)
    && Reports(w, raw.parentEvents, e.parentWire) && Reports(w, raw.branchEvents, e.branchWire)
    && SlotCopied(w, Get(e.parentRequest, "id_slot").n, Get(e.branchRequest, "id_slot").n, e.branchWire.events.slotCopy,
                  e.slotCopy)
  }

  ghost predicate Inputs(w: World, engine: Fields, p: Prepared, raw: Raw, parsed: Parsed) {
    var e := parsed.exchange;
    && Exchanged(w, engine, raw, e)
    && OneService(w, e.parentWire, e.branchWire, p)
    && Answers(e.parentWire.events, parsed.parentContent)
    && Continues(e.parentRequest, e.branchRequest, parsed.parentContent, parsed.prefixMessages, parsed.branchMessages)
    && HoldsTokens(e.parentWire.verbose, parsed.generatedTokens, p.vocabSize) && parsed.generatedTokens != []
  }

  lemma RequestIsThat(w: World, raw: bytes, request: Fields)
    ensures ParseRequest(w, raw) == Ok(request) <==> w.loads(raw) == Some(Obj(request)) && HasMessages(request)
  {
    hide Messages, HasMessages;
    MessagesAreThose(request);
    if w.loads(raw).Some? && w.loads(raw).value.Obj? {
      MessagesAreThose(w.loads(raw).value.fields);
    }
  }

  lemma ExchangeIsThat(w: World, engine: Fields, raw: Raw, e: Exchange)
    ensures ParseExchange(w, engine, raw) == Ok(e) <==> Exchanged(w, engine, raw, e)
  {
    hide ParseRequest, CheckRequestScope, CheckLlamaRequests, ParseLlamaWire, SlotCopyClaim, HasMessages, InScope,
         Controlled, Reports, SlotCopied, Messages;
    RequestIsThat(w, raw.parentRequest, e.parentRequest);
    RequestIsThat(w, raw.branchRequest, e.branchRequest);
    if HasMessages(e.parentRequest) && HasMessages(e.branchRequest) {
      ScopeIsThat(e.parentRequest);
      ScopeIsThat(e.branchRequest);
    }
    ControlsAreThose(e.parentRequest, e.branchRequest, engine);
    WireIsReport(w, raw.parentEvents, e.parentWire);
    WireIsReport(w, raw.branchEvents, e.branchWire);
    SlotsAreCounts(e.parentRequest, e.branchRequest, engine);
    if Controlled(e.parentRequest, e.branchRequest, engine) {
      SlotCopyIsThat(w, Get(e.parentRequest, "id_slot").n, Get(e.branchRequest, "id_slot").n,
                     e.branchWire.events.slotCopy, e.slotCopy);
    }
  }

  lemma SlotsAreCounts(parent: Fields, branch: Fields, engine: Fields)
    ensures Controlled(parent, branch, engine) ==>
              IsCount(Get(parent, "id_slot")) && IsCount(Get(branch, "id_slot"))
  {
  }

  /** The model that a preparation leaves open is the one that the parent's response names. */
  predicate FixesModel(prepared: Prepared, wire: Wire, p: Prepared) {
    p == prepared.(model := if prepared.model.Null? then wire.events.model else prepared.model)
  }

  lemma InputsAreThose(w: World, engine: Fields, prepared: Prepared, raw: Raw, p: Prepared, parsed: Parsed)
    ensures ParseLlamaInputs(w, engine, prepared, raw) == Ok((p, parsed)) <==>
            FixesModel(prepared, parsed.exchange.parentWire, p) && Inputs(w, engine, p, raw, parsed)
  {
    hide ParseExchange, Exchanged, CheckLlamaIdentity, OneService, ParseHistory, Answers, Continues, HoldsTokens;
    var e := parsed.exchange;
    ExchangeIsThat(w, engine, raw, e);
    IdentityIsOneService(w, e.parentWire, e.branchWire, p);
    assert FixesModel(prepared, e.parentWire, p) <==> p == WithModel(prepared, e.parentWire);
    if Exchanged(w, engine, raw, e) {
      MessagesOfExchange(w, engine, raw, e);
      HistoryContinues(e, prepared.vocabSize, parsed);
    }
  }

  lemma MessagesOfExchange(w: World, engine: Fields, raw: Raw, e: Exchange)
    requires Exchanged(w, engine, raw, e)
    ensures HasMessages(e.parentRequest) && HasMessages(e.branchRequest)
    ensures Messages(e.parentRequest).Ok? && Messages(e.branchRequest).Ok?
    ensures IsCount(Get(e.parentRequest, "id_slot")) && IsCount(Get(e.branchRequest, "id_slot"))
  {
    hide HasMessages, Messages, InScope, Reports, SlotCopied;
    MessagesAreThose(e.parentRequest);
    MessagesAreThose(e.branchRequest);
  }

  // ---------- What the tokenizer confirms ----------

  /** The response reports the rendered prompt, with the declared prefix in front unless it is there already. */
  predicate ReportsPrompt(p: Prepared, verbose: Fields, rendered: string) {
    && p.promptPrefix.Str?
    && Get(verbose, "prompt") == Str(if p.promptPrefix.s <= rendered then rendered else p.promptPrefix.s + rendered)
  }

  ghost predicate EndsIn(text: string, suffix: string) {
    exists head :: text == head + suffix
  }

  lemma SuffixIsEnd(text: string, suffix: string)
    ensures Text.EndsWith(text, suffix) <==> EndsIn(text, suffix)
  {
    if Text.EndsWith(text, suffix) {
      assert text == text[..|text| - |suffix|] + suffix;
    }
    if head :| text == head + suffix {
      assert text[|text| - |suffix|..] == suffix;
    }
  }

  /** Both rendered prompts end in the generation prompt that the policy declares, if it declares one. */
  ghost predicate EndsAsDeclared(p: Prepared, independent: Independent) {
    var suffix := Get(p.policy, "generation_prompt_suffix");
    || suffix.Null?
    || (suffix.Str? && suffix.s != ""
        && EndsIn(independent.parent.rendered, suffix.s) && EndsIn(independent.branch.rendered, suffix.s))
  }

  lemma GenerationPromptIsThat(p: Prepared, independent: Independent)
    ensures CheckGenerationPrompt(p, independent).Ok? <==> EndsAsDeclared(p, independent)
  {
    hide Text.EndsWith, EndsIn;
    var suffix := Get(p.policy, "generation_prompt_suffix");
    if suffix.Str? {
      SuffixIsEnd(independent.parent.rendered, suffix.s);
      SuffixIsEnd(independent.branch.rendered, suffix.s);
    }
  }

  /** The parent stopped at its limit and reports the counts of the tokenizer, and one less as cached. */
  predicate ParentReports(p: Prepared, parsed: Parsed, independent: Independent) {
    var verbose := parsed.exchange.parentWire.verbose;
    var prompts, generated := |independent.parent.tokens|, |parsed.generatedTokens|;
    && Get(verbose, "generation_settings").Obj?
    && Get(Get(verbose, "generation_settings").fields, "speculative.types") == Str("none")
    && ReportsPrompt(p, verbose, independent.parent.rendered)
    && IsCount(Get(parsed.exchange.parentRequest, "id_slot"))
    && Equals(Get(verbose, "id_slot"), Get(parsed.exchange.parentRequest, "id_slot").n)
    && Equals(Get(verbose, "tokens_evaluated"), prompts)
    && Equals(Get(verbose, "tokens_predicted"), generated)
    && Equals(Get(verbose, "tokens_cached"), prompts + generated - 1)
    && Get(verbose, "stop_type") == Str("limit") && Get(verbose, "truncated") == Bool(false)
  }

  lemma ParentIsThat(p: Prepared, parsed: Parsed, independent: Independent)
    requires IsCount(Get(parsed.exchange.parentRequest, "id_slot"))
    ensures CheckLlamaParent(p, parsed, independent).Ok? <==> ParentReports(p, parsed, independent)
  {
    EqualsIsEq(Get(parsed.exchange.parentRequest, "id_slot").n);
    EqualsIsEq(|independent.parent.tokens|);
    EqualsIsEq(|parsed.generatedTokens|);
    EqualsIsEq(|independent.parent.tokens| + |parsed.generatedTokens| - 1);
    hide Eq, Equals;
  }

  lemma EqualsIsEq(n: int)
    ensures forall v :: Eq(v, Int(n)) <==> Equals(v, n)
  {
  }

  /** The branch was cut at its length and reports the prompt's count, and `observed` of those tokens as cached. */
  predicate BranchReports(p: Prepared, parsed: Parsed, independent: Independent, observed: int) {
    var wire, count := parsed.exchange.branchWire, |independent.branch.tokens|;
    && ReportsPrompt(p, wire.verbose, independent.branch.rendered)
    && IsCount(Get(parsed.exchange.branchRequest, "id_slot"))
    && Equals(Get(wire.verbose, "id_slot"), Get(parsed.exchange.branchRequest, "id_slot").n)
    && ("stop_type" in wire.verbose ==> wire.verbose["stop_type"] == Str("limit"))
    && ("truncated" in wire.verbose ==> wire.verbose["truncated"] == Bool(false))
    && wire.events.finishReasons != []
    && wire.events.finishReasons[|wire.events.finishReasons| - 1] == Str("length")
    && wire.usage.Some? && Equals(Get(wire.usage.value, "prompt_tokens"), count)
    && Get(wire.usage.value, "prompt_tokens_details").Obj?
    && Get(Get(wire.usage.value, "prompt_tokens_details").fields, "cached_tokens") == Int(observed)
    && 0 <= observed <= count
  }

  lemma BranchIsThat(p: Prepared, parsed: Parsed, independent: Independent, observed: int)
    requires IsCount(Get(parsed.exchange.branchRequest, "id_slot"))
    ensures CheckLlamaBranch(p, parsed, independent) == Ok(observed)
            <==> BranchReports(p, parsed, independent, observed)
  {
    EqualsIsEq(Get(parsed.exchange.branchRequest, "id_slot").n);
    EqualsIsEq(|independent.branch.tokens|);
    hide Eq, Equals;
  }

  /** Everything that the tokenizer's answers confirm about the two responses. */
  ghost predicate Confirms(p: Prepared, parsed: Parsed, independent: Independent) {
    var n := |independent.parent.tokens| + |parsed.generatedTokens| - 1;
    && independent.generated == parsed.generatedTokens
    && EndsAsDeclared(p, independent)
    && ParentReports(p, parsed, independent)
    && Get(parsed.exchange.parentWire.verbose, "tokens_cached") == Int(n)
    && (parsed.exchange.slotCopy.Some? ==> parsed.exchange.slotCopy.value.savedTokens == n)
    && BranchReports(p, parsed, independent, n)
    && independent.parent.tokens != [] && |parsed.generatedTokens| >= 2
    && (independent.parent.tokens + parsed.generatedTokens)[..n] < independent.branch.tokens
  }

  lemma ProofConfirms(w: World, p: Prepared, raw: Raw, parsed: Parsed, independent: Independent)
    requires Requested(parsed)
    requires HasIdentity(parsed.exchange.parentWire.events.metadata)
    requires HasIdentity(parsed.exchange.branchWire.events.metadata)
    requires IsCount(Get(parsed.exchange.parentRequest, "id_slot"))
    requires IsCount(Get(parsed.exchange.branchRequest, "id_slot"))
    ensures Prove(w, p, raw, parsed, independent).Ok? <==> Confirms(p, parsed, independent)
  {
    hide CheckGenerationPrompt, CheckLlamaParent, CheckLlamaBranch, MakeOracle, Reuse.CheckedLlamaReuse, Messages, Eq,
         Reuse.CheckedReuse, EndsAsDeclared, ParentReports, BranchReports, Equals;
    var parent, generated, branch := independent.parent.tokens, parsed.generatedTokens, independent.branch.tokens;
    var n := |parent| + |generated| - 1;
    var cached := Get(parsed.exchange.parentWire.verbose, "tokens_cached");
    GenerationPromptIsThat(p, independent);
    ParentIsThat(p, parsed, independent);
    BranchIsThat(p, parsed, independent, n);
    if CheckLlamaBranch(p, parsed, independent).Ok? {
      var observed := CheckLlamaBranch(p, parsed, independent).value;
      BranchIsThat(p, parsed, independent, observed);
      Reuse.ChecksAgree(cached, observed, parent, generated, branch);
      if cached.Int? {
        Reuse.CheckedReuseExact(cached.n, observed, parent, generated, branch);
        SlotBoundaryIsThat(parsed);
      }
    }
  }

  lemma SlotBoundaryIsThat(parsed: Parsed)
    requires Get(parsed.exchange.parentWire.verbose, "tokens_cached").Int?
    ensures CheckSlotBoundary(parsed).Ok? <==>
              (parsed.exchange.slotCopy.Some? ==>
                parsed.exchange.slotCopy.value.savedTokens
                == Get(parsed.exchange.parentWire.verbose, "tokens_cached").n)
  {
  }

  // ---------- What the evidence reports ----------

  /** A further digest, of a template request that a log may hold for the generated text. */
  function Further(record: Option<Record>, response: bool): seq<Value> {
    if record.None? then [] else
    var sha := if response then record.value.responseSha else record.value.requestSha;
    if sha.Str? then [sha] else []
  }

  /** The four digests over a log's exchanges, in the order parent, branch, generated. */
  predicate Digested(w: World, log: Log, oracle: Oracle) {
    && log.parent.Some? && log.branch.Some? && log.generated.Some?
    && log.parent.value.applyTemplate.Some? && log.parent.value.tokenize.Some?
    && log.branch.value.applyTemplate.Some? && log.branch.value.tokenize.Some? && log.generated.value.tokenize.Some? &&
    var one, two := log.parent.value.applyTemplate.value, log.branch.value.applyTemplate.value;
    var first, second := log.parent.value.tokenize.value, log.branch.value.tokenize.value;
    var extra, third := log.generated.value.applyTemplate, log.generated.value.tokenize.value;
    && oracle.applyRequests == w.sha256(w.canonical(Arr([one.requestSha, two.requestSha] + Further(extra, false))))
    && oracle.applyResponses == w.sha256(w.canonical(Arr([one.responseSha, two.responseSha] + Further(extra, true))))
    && oracle.tokenizeRequests
       == w.sha256(w.canonical(Arr([first.requestSha, second.requestSha, third.requestSha])))
    && oracle.tokenizeResponses
       == w.sha256(w.canonical(Arr([first.responseSha, second.responseSha, third.responseSha])))
  }

  /** The template kwargs of a request: its own, else the policy's. */
  predicate UsesKwargs(policy: Fields, request: Fields, kwargs: Value) {
    if "chat_template_kwargs" in request then kwargs == request["chat_template_kwargs"]
    else kwargs == if Get(policy, "chat_template_kwargs").Obj? then Get(policy, "chat_template_kwargs") else Null
  }

  predicate Records(w: World, p: Prepared, parsed: Parsed, log: Log, oracle: Oracle) {
    && oracle.engine == p.engine && oracle.pins == p.pins
    && oracle.policy == Obj(p.policy) && oracle.policySha == p.policySha && oracle.vocabSize == Int(p.vocabSize)
    && Digested(w, log, oracle)
    && oracle.rawParent == parsed.exchange.parentWire.rawSha && oracle.rawBranch == parsed.exchange.branchWire.rawSha
    && oracle.exchanges == Some(log) && oracle.slotCopy == parsed.exchange.slotCopy
    && UsesKwargs(p.policy, parsed.exchange.parentRequest, oracle.parentKwargs)
    && UsesKwargs(p.policy, parsed.exchange.branchRequest, oracle.branchKwargs)
  }

  /** Every field of the evidence. */
  predicate Evidences(w: World, raw: Raw, p: Prepared, parsed: Parsed, independent: Independent, E: Evidence) {
    var one, two := parsed.exchange.parentWire.events.metadata, parsed.exchange.branchWire.events.metadata;
    var n := |independent.parent.tokens| + |parsed.generatedTokens| - 1;
    && HasIdentity(one) && HasIdentity(two)
    && E.parentServiceRequestId == one["service_request_id"] && E.serviceRequestId == two["service_request_id"]
    && E.processInstanceId == one["process_instance_id"] && E.workloadEpoch == one["workload_epoch"]
    && E.parentRequestSha == w.sha256(raw.parentRequest) && E.requestSha == w.sha256(raw.branchRequest)
    && E.canonicalPrefixSha == w.sha256(w.canonical(Arr(parsed.prefixMessages)))
    && E.canonicalRequestSha == w.sha256(w.canonical(Arr(parsed.branchMessages)))
    && E.parentPromptTokens == independent.parent.tokens && E.parentGeneratedTokens == parsed.generatedTokens
    && E.requestTokens == independent.branch.tokens
    && 0 <= n == |E.parentEvaluatedTokens| && E.parentEvaluatedTokens < E.requestTokens
    && E.parentEvaluatedCount == n == E.expectedReusedCount == E.observedReusedCount
    && Records(w, p, parsed, independent.log, E.oracle)
  }

  lemma OneEvidence(w: World, raw: Raw, p: Prepared, parsed: Parsed, independent: Independent, E: Evidence, F: Evidence)
    requires Evidences(w, raw, p, parsed, independent, E) && Evidences(w, raw, p, parsed, independent, F)
    ensures E == F
  {
    hide Digested;
    assert E.oracle == F.oracle by {
      OneOracle(w, p, parsed, independent.log, E.oracle, F.oracle);
    }
    assert E.parentEvaluatedTokens == E.requestTokens[..|E.parentEvaluatedTokens|];
    assert F.parentEvaluatedTokens == F.requestTokens[..|F.parentEvaluatedTokens|];
  }

  lemma OneOracle(w: World, p: Prepared, parsed: Parsed, log: Log, one: Oracle, two: Oracle)
    requires Records(w, p, parsed, log, one) && Records(w, p, parsed, log, two)
    ensures one == two
  {
  }

  lemma RetainedDigests(w: World, record: Option<Record>, body: Fields, response: Fields)
    requires Retains(w, record, body, response)
    ensures record.Some? && record.value.requestSha.Str? && record.value.responseSha.Str?
  {
    hide Eq, Text.FromHex;
  }

  predicate HasDigests(record: Option<Record>) {
    record.Some? && record.value.requestSha.Str? && record.value.responseSha.Str?
  }

  lemma TextHasDigests(
    w: World, p: Prepared, record: Option<Record>, text: string, kind: string, tokens: seq<int>)
    requires LogsText(w, p, record, text, kind, tokens)
    ensures HasDigests(record)
  {
    hide FlagsState, Retains, HoldsTokens, TokenizeRequest;
    var a, b, response :|
      && FlagsState(p.policy, kind, a, b) && Retains(w, record, TokenizeRequest(text, a, b), response)
      && HoldsTokens(response, tokens, p.vocabSize);
    RetainedDigests(w, record, TokenizeRequest(text, a, b), response);
  }

  lemma PromptHasDigests(w: World, p: Prepared, log: Option<PromptLog>, request: Fields, prompt: Prompt)
    requires LogsPrompt(w, p, log, request, prompt)
    ensures log.Some? && HasDigests(log.value.applyTemplate) && HasDigests(log.value.tokenize)
  {
    hide AppliesTemplate, Retains, LogsText;
    var body, response :|
      && AppliesTemplate(p.policy, request, body) && Retains(w, log.value.applyTemplate, body, response)
      && Get(response, "prompt") == Str(prompt.rendered);
    RetainedDigests(w, log.value.applyTemplate, body, response);
    TextHasDigests(w, p, log.value.tokenize, prompt.rendered, "prompt", prompt.tokens);
  }

  lemma DigestsCons(first: Option<Record>, rest: seq<Option<Record>>, response: bool)
    ensures Digests([first] + rest, response) == Further(first, response) + Digests(rest, response)
    ensures Digests([], response) == []
  {
    assert ([first] + rest)[1..] == rest;
  }

  lemma DigestsOf(one: Option<Record>, two: Option<Record>, three: Option<Record>, response: bool)
    ensures Digests([one, two, three], response)
         == Further(one, response) + Further(two, response) + Further(three, response)
  {
    hide Digests, Further;
    DigestsCons(one, [two, three], response);
    DigestsCons(two, [three], response);
    DigestsCons(three, [], response);
    assert [one, two, three] == [one] + [two, three] && [two, three] == [two] + [three] && [three] == [three] + [];
  }

  lemma RecordDigestOf(w: World, log: Log, tokenize: bool, response: bool)
    requires log.parent.Some? && log.branch.Some? && log.generated.Some?
    ensures var one, two, three := log.parent.value, log.branch.value, log.generated.value;
            RecordDigest(w, log, tokenize, response) == w.sha256(w.canonical(Arr(
              if tokenize then
                Further(one.tokenize, response) + Further(two.tokenize, response) + Further(three.tokenize, response)
              else Further(one.applyTemplate, response) + Further(two.applyTemplate, response)
                   + Further(three.applyTemplate, response))))
  {
    hide Digests, Further;
    var one, two, three := log.parent.value, log.branch.value, log.generated.value;
    DigestsOf(one.tokenize, two.tokenize, three.tokenize, response);
    DigestsOf(one.applyTemplate, two.applyTemplate, three.applyTemplate, response);
  }

  lemma OracleRecords(w: World, p: Prepared, parsed: Parsed, independent: Independent)
    requires Requested(parsed) && LogsRun(w, p, parsed, Some(independent.log), independent)
    ensures Records(w, p, parsed, independent.log, MakeOracle(w, p, parsed, independent.log))
  {
    hide LogsPrompt, LogsText, Messages, ApplyBody, Digests, RecordDigest, UsesKwargs, Digested;
    LogIsDigested(w, p, parsed, independent);
    KwargsOf(p.policy, parsed.exchange.parentRequest);
    KwargsOf(p.policy, parsed.exchange.branchRequest);
  }

  lemma LogIsDigested(w: World, p: Prepared, parsed: Parsed, independent: Independent)
    requires Requested(parsed) && LogsRun(w, p, parsed, Some(independent.log), independent)
    ensures Digested(w, independent.log, MakeOracle(w, p, parsed, independent.log))
  {
    hide LogsPrompt, LogsText, Messages, ApplyBody, Digests, RecordDigest;
    var log := independent.log;
    PromptHasDigests(w, p, log.parent, parsed.exchange.parentRequest, independent.parent);
    PromptHasDigests(w, p, log.branch, parsed.exchange.branchRequest, independent.branch);
    TextHasDigests(w, p, log.generated.value.tokenize, parsed.parentContent, "generated", independent.generated);
    RecordDigestOf(w, log, false, false);
    RecordDigestOf(w, log, false, true);
    RecordDigestOf(w, log, true, false);
    RecordDigestOf(w, log, true, true);
    var one, two, three := log.parent.value.tokenize, log.branch.value.tokenize, log.generated.value.tokenize;
    assert Further(one, false) + Further(two, false) + Further(three, false)
        == [one.value.requestSha, two.value.requestSha, three.value.requestSha];
    assert Further(one, true) + Further(two, true) + Further(three, true)
        == [one.value.responseSha, two.value.responseSha, three.value.responseSha];
    var first, second := log.parent.value.applyTemplate, log.branch.value.applyTemplate;
    assert Further(first, false) + Further(second, false) == [first.value.requestSha, second.value.requestSha];
    assert Further(first, true) + Further(second, true) == [first.value.responseSha, second.value.responseSha];
  }

  lemma KwargsOf(policy: Fields, request: Fields)
    requires Messages(request).Ok?
    ensures UsesKwargs(policy, request, Get(ApplyBody(policy, request), "chat_template_kwargs"))
  {
    hide Messages, ApplyBody;
    TemplateBody(policy, request);
    assert "chat_template_kwargs" in TEMPLATE_CONTROLS;
  }

  lemma ProofReports(w: World, p: Prepared, raw: Raw, parsed: Parsed, independent: Independent)
    requires Requested(parsed) && LogsRun(w, p, parsed, Some(independent.log), independent)
    requires HasIdentity(parsed.exchange.parentWire.events.metadata)
    requires HasIdentity(parsed.exchange.branchWire.events.metadata)
    requires parsed.exchange.slotCopy.Some? ==>
               parsed.exchange.slotCopy.value.savedTokens == parsed.exchange.slotCopy.value.restoredTokens
    requires Prove(w, p, raw, parsed, independent).Ok?
    ensures Evidences(w, raw, p, parsed, independent, Prove(w, p, raw, parsed, independent).value)
  {
    hide CheckGenerationPrompt, CheckLlamaParent, CheckLlamaBranch, MakeOracle, Reuse.CheckedLlamaReuse, Messages, Eq,
         Reuse.CheckedReuse, LogsRun, Records, CheckSlotBoundary;
    BoundaryConserved(w, p, raw, parsed, independent);
    OracleRecords(w, p, parsed, independent);
  }

  // ---------- The theorem ----------

  /** What a retained record and the engine declaration prepare. */
  predicate Retained(w: World, engine: Fields, oracle: Oracle, prepared: Prepared) {
    && oracle.policy == Obj(prepared.policy) && oracle.vocabSize == Int(prepared.vocabSize) && prepared.vocabSize > 0
    && oracle.policySha == prepared.policySha == Str(w.sha256(w.canonical(oracle.policy)))
    && prepared.engine == oracle.engine && prepared.pins == oracle.pins
    && prepared.runningIdentity == Get(engine, "_running_identity")
    && prepared.promptPrefix == (if "prompt_prefix" in engine then engine["prompt_prefix"] else Str(""))
    && prepared.model == Get(engine, "served_model_alias")
  }

  lemma PreparedIsRetained(w: World, engine: Fields, oracle: Oracle, prepared: Prepared)
    ensures PreparedFromOracle(w, engine, oracle) == Ok(prepared) <==> Retained(w, engine, oracle, prepared)
  {
  }

  /** Everything that stands behind one piece of accepted evidence. */
  ghost predicate Stands(
    w: World, engine: Fields, oracle: Oracle, raw: Raw, prepared: Prepared, p: Prepared, parsed: Parsed,
    independent: Independent, E: Evidence)
  {
    && Retained(w, engine, oracle, prepared)
    && FixesModel(prepared, parsed.exchange.parentWire, p)
    && Inputs(w, engine, p, raw, parsed)
    && LogsRun(w, p, parsed, oracle.exchanges, independent)
    && Confirms(p, parsed, independent)
    && Evidences(w, raw, p, parsed, independent, E)
  }

  /**
   A replay returns this evidence exactly when all of it stands: the record, the requests and the responses, the five
   exchanges of the log with the requests that they call for, and the counts that the tokenizer confirms.
   */
  lemma ReplayAccepts(w: World, engine: Fields, oracle: Oracle, raw: Raw, E: Evidence)
    ensures RecomputeLlamaHistory(w, engine, oracle, raw) == Ok(E) <==>
            exists prepared, p, parsed, independent ::
              Stands(w, engine, oracle, raw, prepared, p, parsed, independent, E)
  {
    if RecomputeLlamaHistory(w, engine, oracle, raw) == Ok(E) {
      AcceptedStands(w, engine, oracle, raw);
    }
    if prepared, p, parsed, independent :| Stands(w, engine, oracle, raw, prepared, p, parsed, independent, E) {
      StandingIsAccepted(w, engine, oracle, raw, prepared, p, parsed, independent, E);
    }
  }

  lemma AcceptedStands(w: World, engine: Fields, oracle: Oracle, raw: Raw)
    requires RecomputeLlamaHistory(w, engine, oracle, raw).Ok?
    ensures exists prepared, p, parsed, independent ::
              Stands(w, engine, oracle, raw, prepared, p, parsed, independent,
                     RecomputeLlamaHistory(w, engine, oracle, raw).value)
  {
    hide PreparedFromOracle, ParseLlamaInputs, ReplayTokenizer, Prove, Retained, FixesModel, Inputs, LogsRun, Confirms,
         Evidences, Messages, ParseExchange, CheckLlamaIdentity;
    var prepared := PreparedFromOracle(w, engine, oracle).value;
    var (p, parsed) := ParseLlamaInputs(w, engine, prepared, raw).value;
    var independent := ReplayTokenizer(w, p, parsed, oracle.exchanges).value;
    PreparedIsRetained(w, engine, oracle, prepared);
    InputsAreThose(w, engine, prepared, raw, p, parsed);
    RunIsLogged(w, p, parsed, oracle.exchanges, independent);
    LogIsWhole(w, p, parsed, oracle.exchanges, independent);
    ProofConfirms(w, p, raw, parsed, independent);
    ProofReports(w, p, raw, parsed, independent);
    assert Stands(w, engine, oracle, raw, prepared, p, parsed, independent,
                  RecomputeLlamaHistory(w, engine, oracle, raw).value);
  }

  lemma LogIsWhole(w: World, p: Prepared, parsed: Parsed, log: Option<Log>, independent: Independent)
    requires LogsRun(w, p, parsed, log, independent)
    ensures log == Some(independent.log)
  {
    hide LogsPrompt, LogsText;
  }

  lemma StandingIsAccepted(
    w: World, engine: Fields, oracle: Oracle, raw: Raw, prepared: Prepared, p: Prepared, parsed: Parsed,
    independent: Independent, E: Evidence)
    requires Stands(w, engine, oracle, raw, prepared, p, parsed, independent, E)
    ensures RecomputeLlamaHistory(w, engine, oracle, raw) == Ok(E)
  {
    hide PreparedFromOracle, ParseLlamaInputs, ReplayTokenizer, Prove, Retained, FixesModel, Inputs, LogsRun, Confirms,
         Evidences, Messages, ParseExchange, CheckLlamaIdentity;
    PreparedIsRetained(w, engine, oracle, prepared);
    InputsAreThose(w, engine, prepared, raw, p, parsed);
    RunIsLogged(w, p, parsed, oracle.exchanges, independent);
    LogIsWhole(w, p, parsed, oracle.exchanges, independent);
    ProofConfirms(w, p, raw, parsed, independent);
    ProofReports(w, p, raw, parsed, independent);
    OneEvidence(w, raw, p, parsed, independent, E, Prove(w, p, raw, parsed, independent).value);
  }

  /** A log in which one of the five exchanges is missing, altered or about something else is rejected. */
  lemma AlteredLogIsRejected(
    w: World, engine: Fields, oracle: Oracle, raw: Raw, prepared: Prepared, p: Prepared, parsed: Parsed)
    requires Retained(w, engine, oracle, prepared) && FixesModel(prepared, parsed.exchange.parentWire, p)
    requires Inputs(w, engine, p, raw, parsed)
    requires forall independent :: !LogsRun(w, p, parsed, oracle.exchanges, independent)
    ensures RecomputeLlamaHistory(w, engine, oracle, raw).Err?
  {
    hide PreparedFromOracle, ParseLlamaInputs, ReplayTokenizer, Prove, Retained, FixesModel, Inputs, LogsRun, Messages,
         ParseExchange, CheckLlamaIdentity;
    PreparedIsRetained(w, engine, oracle, prepared);
    InputsAreThose(w, engine, prepared, raw, p, parsed);
    if ReplayTokenizer(w, p, parsed, oracle.exchanges).Ok? {
      RunIsLogged(w, p, parsed, oracle.exchanges, ReplayTokenizer(w, p, parsed, oracle.exchanges).value);
    }
  }
}
