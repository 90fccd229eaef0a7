/**
 What the log of an accepted replay must be: every retained request is the one that the raw inputs and the policy call
 for, every retained response holds what the evidence reports, and any other log is rejected.
 */
module HistoryLog {
  import opened Bytes
  import opened Wrappers
  import opened Json
  import opened HistoryInputs
  import opened History
  import opened HistoryReplay
  import Text

  // ---------- One exchange ----------

  /** The bytes that a hexadecimal field spells, when they have the recorded digest. */
  function Spelled(w: World, hex: Value, sha: Value): Option<bytes> {
    if !hex.Str? || Text.FromHex(hex.s).None? then None
    else if sha == Str(w.sha256(Text.FromHex(hex.s).value)) then Text.FromHex(hex.s) else None
  }

  /**
   A record retains an exchange: its request spells bytes with the recorded digest, which load to a value equal to the
   expected body as it reads back from JSON text, and its response spells bytes with the recorded digest, which load to
   the object `response`.
   */
  predicate Retains(w: World, record: Option<Record>, body: Fields, response: Fields) {
    record.Some? &&
      var request, reply :=
        Spelled(w, record.value.requestHex, record.value.requestSha),
        Spelled(w, record.value.responseHex, record.value.responseSha);
      && request.Some? && request.value != [] && w.loads(request.value).Some?
      && Eq(w.loads(request.value).value, w.reload(Obj(body)))
      && reply.Some? && reply.value != [] && w.loads(reply.value) == Some(Obj(response))
  }

  lemma ExchangeIsRetained(w: World, record: Option<Record>, body: Fields, response: Fields)
    ensures ReplayExchange(w, record, body) == Ok(response) <==> Retains(w, record, body, response)
  {
    hide Eq, Text.FromHex;
  }

  // ---------- What the requests ask ----------

  const TEMPLATE_CONTROLS: set<string> :=
    {"chat_template", "chat_template_kwargs", "continue_final_message", "add_generation_prompt", "enable_thinking",
     "reasoning_format", "date_string", "tools", "tool_choice"}

  /** The body of an apply-template request, field by field. */
  predicate AppliesTemplate(policy: Fields, request: Fields, body: Fields) {
    var kwargs := Get(policy, "chat_template_kwargs");
    && (forall field :: field in TEMPLATE_CONTROLS && field in request ==>
          field in body && body[field] == request[field])
    && (forall field :: field in body ==>
          || field == "messages" || field == "add_generation_prompt"
          || (field in TEMPLATE_CONTROLS && field in request)
          || (field == "chat_template_kwargs" && kwargs.Obj?))
    && "messages" in body && "messages" in request && body["messages"] == request["messages"]
    && "add_generation_prompt" in body
    && ("add_generation_prompt" !in request ==> body["add_generation_prompt"] == Bool(true))
    && ("chat_template_kwargs" !in request && kwargs.Obj? ==>
          "chat_template_kwargs" in body && body["chat_template_kwargs"] == kwargs)
  }

  lemma {:induction false} CopiedFields(body: Fields, request: Fields, names: seq<string>)
    ensures var copied := Copied(body, request, names);
            forall field ::
              && (field in copied <==> field in body || (field in names && field in request))
              && (field in copied ==>
                   copied[field] == if field in names && field in request then request[field] else body[field])
    decreases |names|
  {
    if names != [] {
      CopiedFields(if names[0] in request then body[names[0] := request[names[0]]] else body, request, names[1..]);
      assert names == [names[0]] + names[1..];
    }
  }

  lemma ControlNames(field: string)
    ensures field in APPLY_FIELDS <==> field in TEMPLATE_CONTROLS
  {
  }

  lemma TemplateBody(policy: Fields, request: Fields)
    requires Messages(request).Ok?
    ensures AppliesTemplate(policy, request, ApplyBody(policy, request))
  {
    hide Copied, Messages;
    var start: Fields := map["messages" := Arr(Messages(request).value)];
    var copied := Copied(start, request, APPLY_FIELDS);
    MessagesOf(request);
    forall field
      ensures field in copied <==> field == "messages" || (field in TEMPLATE_CONTROLS && field in request)
      ensures field in copied ==>
                copied[field] == if field in TEMPLATE_CONTROLS && field in request then request[field]
                                 else start["messages"]
    {
      ControlNames(field);
      CopiedFields(start, request, APPLY_FIELDS);
    }
  }

  lemma MessagesOf(request: Fields)
    requires Messages(request).Ok?
    ensures "messages" in request && request["messages"] == Arr(Messages(request).value)
  {
  }

  /** The flags of a tokenize request, wherever the policy holds them. */
  predicate States(flags: Value, addSpecial: bool, parseSpecial: bool) {
    && flags.Obj?
    && Get(flags.fields, "add_special") == Bool(addSpecial) && Get(flags.fields, "parse_special") == Bool(parseSpecial)
  }

  /** The flags of a prompt stand under `prompt`, else under `tokenize`, else in the policy itself. */
  predicate PromptStates(policy: Fields, addSpecial: bool, parseSpecial: bool) {
    if "prompt" in policy then States(policy["prompt"], addSpecial, parseSpecial)
    else if "tokenize" in policy then States(policy["tokenize"], addSpecial, parseSpecial)
    else States(Obj(policy), addSpecial, parseSpecial)
  }

  predicate ParsesSpecial(policy: Fields, parseSpecial: bool) {
    var flags := if "prompt" in policy then policy["prompt"] else if "tokenize" in policy then policy["tokenize"]
                 else Obj(policy);
    flags.Obj? && Get(flags.fields, "parse_special") == Bool(parseSpecial)
  }

  /** The flags of generated text have a place of their own; without it no special token is added. */
  predicate GeneratedStates(policy: Fields, addSpecial: bool, parseSpecial: bool) {
    if "generated" in policy then States(policy["generated"], addSpecial, parseSpecial)
    else !addSpecial && ParsesSpecial(policy, parseSpecial)
  }

  predicate FlagsState(policy: Fields, kind: string, addSpecial: bool, parseSpecial: bool) {
    if kind == "generated" then GeneratedStates(policy, addSpecial, parseSpecial)
    else PromptStates(policy, addSpecial, parseSpecial)
  }

  function TokenizeRequest(text: string, addSpecial: bool, parseSpecial: bool): Fields {
    map["content" := Str(text), "add_special" := Bool(addSpecial), "parse_special" := Bool(parseSpecial)]
  }

  lemma TokenizeBodyAsks(policy: Fields, text: string, kind: string, addSpecial: bool, parseSpecial: bool)
    requires kind == "prompt" || kind == "generated"
    ensures TokenizeBody(policy, text, kind) == Ok(TokenizeRequest(text, addSpecial, parseSpecial))
            <==> FlagsState(policy, kind, addSpecial, parseSpecial)
  {
    var body := TokenizeRequest(text, addSpecial, parseSpecial);
    assert body["add_special"] == Bool(addSpecial) && body["parse_special"] == Bool(parseSpecial);
  }

  lemma TokenizeBodyForm(policy: Fields, text: string, kind: string)
    requires TokenizeBody(policy, text, kind).Ok?
    ensures exists addSpecial, parseSpecial ::
              TokenizeBody(policy, text, kind) == Ok(TokenizeRequest(text, addSpecial, parseSpecial))
  {
    var body := TokenizeBody(policy, text, kind).value;
    assert body == TokenizeRequest(text, body["add_special"].b, body["parse_special"].b);
  }

  // ---------- The log of a run ----------

  predicate HoldsTokens(response: Fields, tokens: seq<int>, vocabSize: nat) {
    var v := Get(response, "tokens");
    && v.Arr? && |v.items| == |tokens|
    && forall i :: 0 <= i < |tokens| ==> v.items[i] == Int(tokens[i]) && 0 <= tokens[i] < vocabSize
  }

  lemma TokensAreHeld(response: Fields, tokens: seq<int>, vocabSize: nat)
    ensures ReadTokens(response, vocabSize) == Ok(tokens) <==> HoldsTokens(response, tokens, vocabSize)
  {
    if HoldsTokens(response, tokens, vocabSize) {
      assert TokenIds(Get(response, "tokens"), vocabSize) == tokens;
    }
  }

  /** The record of one tokenize request: it asks for `text`, and its response holds `tokens`. */
  ghost predicate LogsText(
    w: World, p: Prepared, record: Option<Record>, text: string, kind: string, tokens: seq<int>)
  {
    exists addSpecial, parseSpecial, response ::
      && FlagsState(p.policy, kind, addSpecial, parseSpecial)
      && Retains(w, record, TokenizeRequest(text, addSpecial, parseSpecial), response)
      && HoldsTokens(response, tokens, p.vocabSize)
  }

  /** The records of one prompt: the rendered text of the request's messages, and its tokens. */
  ghost predicate LogsPrompt(w: World, p: Prepared, log: Option<PromptLog>, request: Fields, prompt: Prompt) {
    && log.Some?
    && (exists body, response ::
          && AppliesTemplate(p.policy, request, body)
          && Retains(w, log.value.applyTemplate, body, response)
          && Get(response, "prompt") == Str(prompt.rendered))
    && LogsText(w, p, log.value.tokenize, prompt.rendered, "prompt", prompt.tokens)
  }

  /** The five exchanges of a run. */
  ghost predicate LogsRun(w: World, p: Prepared, parsed: Parsed, log: Option<Log>, independent: Independent) {
    && log.Some? && independent.log == log.value
    && LogsPrompt(w, p, log.value.parent, parsed.exchange.parentRequest, independent.parent)
    && LogsPrompt(w, p, log.value.branch, parsed.exchange.branchRequest, independent.branch)
    && log.value.generated.Some?
    && LogsText(w, p, log.value.generated.value.tokenize, parsed.parentContent, "generated", independent.generated)
  }

  lemma TextIsLogged(w: World, p: Prepared, record: Option<Record>, text: string, kind: string, tokens: seq<int>)
    requires kind == "prompt" || kind == "generated"
    ensures ReplayText(w, p, record, text, kind) == Ok(tokens) <==> LogsText(w, p, record, text, kind, tokens)
  {
    hide TokenizeBody, ReplayExchange, Retains, FlagsState, ReadTokens, HoldsTokens, TokenizeRequest;
    if ReplayText(w, p, record, text, kind) == Ok(tokens) {
      TokenizeBodyForm(p.policy, text, kind);
      var a, b :| TokenizeBody(p.policy, text, kind) == Ok(TokenizeRequest(text, a, b));
      TokenizeBodyAsks(p.policy, text, kind, a, b);
      var response := ReplayExchange(w, record, TokenizeRequest(text, a, b)).value;
      ExchangeIsRetained(w, record, TokenizeRequest(text, a, b), response);
      TokensAreHeld(response, tokens, p.vocabSize);
    }
    if a, b, response :|
        && FlagsState(p.policy, kind, a, b)
        && Retains(w, record, TokenizeRequest(text, a, b), response)
        && HoldsTokens(response, tokens, p.vocabSize) {
      TokenizeBodyAsks(p.policy, text, kind, a, b);
      ExchangeIsRetained(w, record, TokenizeRequest(text, a, b), response);
      TokensAreHeld(response, tokens, p.vocabSize);
    }
  }

  /** The fields of the template request leave no choice. */
  lemma OneTemplateBody(policy: Fields, request: Fields, one: Fields, two: Fields)
    requires AppliesTemplate(policy, request, one) && AppliesTemplate(policy, request, two)
    ensures one == two
  {
    forall field ensures (field in one <==> field in two) && (field in one ==> one[field] == two[field]) {
    }
    assert one.Keys == two.Keys;
  }

  lemma PromptIsLogged(w: World, p: Prepared, log: Option<PromptLog>, request: Fields, prompt: Prompt)
    requires Messages(request).Ok?
    ensures ReplayPrompt(w, p, log, request) == Ok(prompt) <==> LogsPrompt(w, p, log, request, prompt)
  {
    hide ApplyBody, AppliesTemplate, ReplayExchange, Retains, ReplayText, LogsText, Messages;
    if log.Some? {
      var body := ApplyBody(p.policy, request);
      TemplateBody(p.policy, request);
      TextIsLogged(w, p, log.value.tokenize, prompt.rendered, "prompt", prompt.tokens);
      if ReplayPrompt(w, p, log, request) == Ok(prompt) {
        ExchangeIsRetained(w, log.value.applyTemplate, body,
                           ReplayExchange(w, log.value.applyTemplate, body).value);
      }
      if other, response :|
          && AppliesTemplate(p.policy, request, other)
          && Retains(w, log.value.applyTemplate, other, response)
          && Get(response, "prompt") == Str(prompt.rendered) {
        OneTemplateBody(p.policy, request, other, body);
        ExchangeIsRetained(w, log.value.applyTemplate, body, response);
      }
    }
  }

  /** A replay reads these tokens off a log exactly when the log holds the five exchanges that they call for. */
  lemma RunIsLogged(w: World, p: Prepared, parsed: Parsed, log: Option<Log>, independent: Independent)
    requires Requested(parsed)
    ensures ReplayTokenizer(w, p, parsed, log) == Ok(independent) <==> LogsRun(w, p, parsed, log, independent)
  {
    hide ReplayPrompt, ReplayText, LogsPrompt, LogsText, Messages;
    if log.Some? {
      PromptIsLogged(w, p, log.value.parent, parsed.exchange.parentRequest, independent.parent);
      PromptIsLogged(w, p, log.value.branch, parsed.exchange.branchRequest, independent.branch);
      var record := if log.value.generated.Some? then log.value.generated.value.tokenize else None;
      TextIsLogged(w, p, record, parsed.parentContent, "generated", independent.generated);
      NoRecord(w, p, parsed.parentContent, independent.generated);
    }
  }

  lemma NoRecord(w: World, p: Prepared, text: string, tokens: seq<int>)
    ensures !LogsText(w, p, None, text, "generated", tokens)
  {
    hide FlagsState, TokenizeRequest, HoldsTokens;
  }
}
