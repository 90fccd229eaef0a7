/** What a live run asks the tokenizer server, and when its evidence is accepted. */
module HistoryRun {
  import opened Bytes
  import opened Wrappers
  import opened Json
  import opened HistoryInputs
  import opened History
  import opened HistoryReplay
  import opened HistoryLog
  import opened HistoryAcceptance
  import Text

  // ---------- The engine ----------

  /** The policy is declared, has the pinned digest, and states its flags. */
  ghost predicate DeclaresPolicy(w: World, engine: Fields, policy: Fields, sha: Value) {
    && Get(engine, "special_tokens_policy").Obj? && w.reload(Get(engine, "special_tokens_policy")) == Obj(policy)
    && sha == Str(w.sha256(w.canonical(Obj(policy))))
    && (Get(engine, "special_tokens_policy_sha256").Null? || Get(engine, "special_tokens_policy_sha256") == sha)
    && (exists addSpecial, parseSpecial :: PromptStates(policy, addSpecial, parseSpecial))
    && ("generated" in policy && policy["generated"] != Obj(map[]) ==>
          exists addSpecial, parseSpecial :: States(policy["generated"], addSpecial, parseSpecial))
  }

  lemma FlagsAreStated(v: Value, name: string, addSpecial: bool, parseSpecial: bool)
    ensures TokenFlags(v, name) == Ok((addSpecial, parseSpecial)) <==> States(v, addSpecial, parseSpecial)
  {
  }

  lemma PromptFlagsAreStated(policy: Fields, name: string, addSpecial: bool, parseSpecial: bool)
    ensures TokenFlags(PromptFlags(policy), name) == Ok((addSpecial, parseSpecial))
            <==> PromptStates(policy, addSpecial, parseSpecial)
  {
    hide TokenFlags, States;
    FlagsAreStated(PromptFlags(policy), name, addSpecial, parseSpecial);
  }

  lemma FlagsAreOk(v: Value, name: string)
    ensures TokenFlags(v, name).Ok? <==> exists addSpecial, parseSpecial :: States(v, addSpecial, parseSpecial)
  {
    hide TokenFlags, States;
    if TokenFlags(v, name).Ok? {
      FlagsAreStated(v, name, TokenFlags(v, name).value.0, TokenFlags(v, name).value.1);
    }
    if a, b :| States(v, a, b) {
      FlagsAreStated(v, name, a, b);
    }
  }

  lemma PromptFlagsAreOk(policy: Fields)
    ensures TokenFlags(PromptFlags(policy), "prompt").Ok? <==>
            exists addSpecial, parseSpecial :: PromptStates(policy, addSpecial, parseSpecial)
  {
    hide TokenFlags, PromptStates;
    var flags := TokenFlags(PromptFlags(policy), "prompt");
    if flags.Ok? {
      PromptFlagsAreStated(policy, "prompt", flags.value.0, flags.value.1);
    }
    if a, b :| PromptStates(policy, a, b) {
      PromptFlagsAreStated(policy, "prompt", a, b);
    }
  }

  lemma PolicyIsDeclared(w: World, engine: Fields, policy: Fields, sha: Value)
    ensures PolicyDeclaration(w, engine) == Ok((policy, sha)) <==> DeclaresPolicy(w, engine, policy, sha)
  {
    hide TokenFlags, PromptFlags, PromptStates, States;
    PromptFlagsAreOk(policy);
    var generated := GetDefault(policy, "generated", Obj(map[]));
    FlagsAreOk(generated, "generated");
    EmptyPolicy(generated);
    forall parseSpecial: bool {
      DefaultFlags(parseSpecial);
    }
  }

  lemma EmptyPolicy(v: Value)
    ensures (exists addSpecial, parseSpecial :: States(v, addSpecial, parseSpecial)) ==> v.Obj? && v != Obj(map[])
  {
  }

  lemma DefaultFlags(parseSpecial: bool)
    ensures TokenFlags(Obj(map["add_special" := Bool(false), "parse_special" := Bool(parseSpecial)]), "generated").Ok?
  {
  }

  /** The prepared facts of a live run. */
  ghost predicate Prepares(w: World, engine: Fields, live: Live, prepared: Prepared) {
    && DeclaresPolicy(w, engine, prepared.policy, prepared.policySha)
    && prepared.vocabSize > 0
    && (if Get(engine, "vocab_size").Null? then live.fileVocabulary == Ok(prepared.vocabSize)
        else Get(engine, "vocab_size") == Int(prepared.vocabSize))
    && prepared.engine == (if "engine" in engine then engine["engine"] else Str("llama.cpp"))
    && prepared.pins == live.pins && prepared.model == Str(live.modelPath)
    && prepared.runningIdentity == Get(engine, "_running_identity")
    && prepared.promptPrefix == (if "prompt_prefix" in engine then engine["prompt_prefix"] else Str(""))
  }

  lemma EngineIsPrepared(w: World, engine: Fields, live: Live, prepared: Prepared)
    ensures PrepareEngine(w, engine, live.pins, live.modelPath, live.fileVocabulary) == Ok(prepared)
            <==> Prepares(w, engine, live, prepared)
  {
    hide PolicyDeclaration, DeclaresPolicy;
    PolicyIsDeclared(w, engine, prepared.policy, prepared.policySha);
    var declared := PolicyDeclaration(w, engine);
    if declared.Ok? {
      PolicyIsDeclared(w, engine, declared.value.0, declared.value.1);
    }
  }

  // ---------- The exchanges ----------

  /** The server answers the body within a mebibyte, and the record keeps both texts and their digests. */
  predicate Exchanges(w: World, route: Route, body: Fields, response: Fields, record: Record) {
    var request := w.dumps(Obj(body));
    && w.server(route, request).Some? &&
    var answer := w.server(route, request).value;
    && |answer| <= 1_048_576 && w.loads(answer) == Some(Obj(response))
    && record == Record(Str(w.sha256(request)), Str(w.sha256(answer)), Str(Text.Hex(request)), Str(Text.Hex(answer)))
  }

  lemma PostIsExchange(w: World, route: Route, body: Fields, response: Fields, record: Record)
    ensures PostJson(w, route, body) == Ok((response, record)) <==> Exchanges(w, route, body, response, record)
  {
    hide Text.Hex;
  }

  ghost predicate AsksText(w: World, p: Prepared, text: string, kind: string, tokens: seq<int>, record: Record) {
    exists addSpecial, parseSpecial, response ::
      && FlagsState(p.policy, kind, addSpecial, parseSpecial)
      && Exchanges(w, Tokenize, TokenizeRequest(text, addSpecial, parseSpecial), response, record)
      && HoldsTokens(response, tokens, p.vocabSize)
  }

  ghost predicate AsksPrompt(w: World, p: Prepared, request: Fields, prompt: Prompt, log: PromptLog) {
    && log.applyTemplate.Some? && log.tokenize.Some?
    && (exists body, response ::
          && AppliesTemplate(p.policy, request, body)
          && Exchanges(w, ApplyTemplate, body, response, log.applyTemplate.value)
          && Get(response, "prompt") == Str(prompt.rendered))
    && AsksText(w, p, prompt.rendered, "prompt", prompt.tokens, log.tokenize.value)
  }

  /** The five exchanges of a live run, and the log that they leave. */
  ghost predicate RunAsks(w: World, p: Prepared, parsed: Parsed, independent: Independent) {
    var log := independent.log;
    && log.parent.Some? && log.branch.Some? && log.generated.Some?
    && AsksPrompt(w, p, parsed.exchange.parentRequest, independent.parent, log.parent.value)
    && AsksPrompt(w, p, parsed.exchange.branchRequest, independent.branch, log.branch.value)
    && log.generated.value.applyTemplate == None && log.generated.value.tokenize.Some?
    && AsksText(w, p, parsed.parentContent, "generated", independent.generated, log.generated.value.tokenize.value)
  }

  lemma TextIsAsked(w: World, p: Prepared, text: string, kind: string, tokens: seq<int>, record: Record)
    requires kind == "prompt" || kind == "generated"
    ensures TokenizeText(w, p, text, kind) == Ok((tokens, record)) <==> AsksText(w, p, text, kind, tokens, record)
  {
    hide TokenizeBody, PostJson, Exchanges, FlagsState, ReadTokens, HoldsTokens, TokenizeRequest;
    if TokenizeText(w, p, text, kind) == Ok((tokens, record)) {
      TokenizeBodyForm(p.policy, text, kind);
      var a, b :| TokenizeBody(p.policy, text, kind) == Ok(TokenizeRequest(text, a, b));
      TokenizeBodyAsks(p.policy, text, kind, a, b);
      var response := PostJson(w, Tokenize, TokenizeRequest(text, a, b)).value.0;
      PostIsExchange(w, Tokenize, TokenizeRequest(text, a, b), response, record);
      TokensAreHeld(response, tokens, p.vocabSize);
    }
    if a, b, response :|
        && FlagsState(p.policy, kind, a, b)
        && Exchanges(w, Tokenize, TokenizeRequest(text, a, b), response, record)
        && HoldsTokens(response, tokens, p.vocabSize) {
      TokenizeBodyAsks(p.policy, text, kind, a, b);
      PostIsExchange(w, Tokenize, TokenizeRequest(text, a, b), response, record);
      TokensAreHeld(response, tokens, p.vocabSize);
    }
  }

  lemma PromptIsAsked(w: World, p: Prepared, request: Fields, prompt: Prompt, log: PromptLog)
    requires Messages(request).Ok?
    ensures ApplyAndTokenize(w, p, request) == Ok((prompt, log)) <==> AsksPrompt(w, p, request, prompt, log)
  {
    hide ApplyBody, AppliesTemplate, PostJson, Exchanges, TokenizeText, AsksText, Messages;
    var body := ApplyBody(p.policy, request);
    TemplateBody(p.policy, request);
    if log.tokenize.Some? {
      TextIsAsked(w, p, prompt.rendered, "prompt", prompt.tokens, log.tokenize.value);
    }
    if ApplyAndTokenize(w, p, request) == Ok((prompt, log)) {
      var posted := PostJson(w, ApplyTemplate, body).value;
      assert posted == (posted.0, log.applyTemplate.value);
      PostIsExchange(w, ApplyTemplate, body, posted.0, log.applyTemplate.value);
      assert TokenizeText(w, p, prompt.rendered, "prompt").value == (prompt.tokens, log.tokenize.value);
    }
    if AsksPrompt(w, p, request, prompt, log) {
      var other, response :|
        && AppliesTemplate(p.policy, request, other)
        && Exchanges(w, ApplyTemplate, other, response, log.applyTemplate.value)
        && Get(response, "prompt") == Str(prompt.rendered);
      OneTemplateBody(p.policy, request, other, body);
      PostIsExchange(w, ApplyTemplate, body, response, log.applyTemplate.value);
    }
  }

  /** A live run gets these answers and this log exactly when the server gives them to the five requests. */
  lemma RunIsAsked(w: World, p: Prepared, parsed: Parsed, independent: Independent)
    requires Requested(parsed)
    ensures RunTokenizer(w, p, parsed) == Ok(independent) <==> RunAsks(w, p, parsed, independent)
  {
    hide ApplyAndTokenize, TokenizeText, AsksPrompt, AsksText, Messages;
    var log := independent.log;
    if log.parent.Some? {
      PromptIsAsked(w, p, parsed.exchange.parentRequest, independent.parent, log.parent.value);
    }
    if log.branch.Some? {
      PromptIsAsked(w, p, parsed.exchange.branchRequest, independent.branch, log.branch.value);
    }
    if log.generated.Some? && log.generated.value.tokenize.Some? {
      TextIsAsked(w, p, parsed.parentContent, "generated", independent.generated, log.generated.value.tokenize.value);
    }
    if RunTokenizer(w, p, parsed) == Ok(independent) {
      assert ApplyAndTokenize(w, p, parsed.exchange.parentRequest).value == (independent.parent, log.parent.value);
      assert ApplyAndTokenize(w, p, parsed.exchange.branchRequest).value == (independent.branch, log.branch.value);
      assert TokenizeText(w, p, parsed.parentContent, "generated").value
          == (independent.generated, log.generated.value.tokenize.value);
    }
  }

  // ---------- The theorem ----------

  /** Everything that stands behind the evidence of a live run. */
  ghost predicate RunStands(
    w: World, engine: Fields, live: Live, raw: Raw, prepared: Prepared, p: Prepared, parsed: Parsed,
    independent: Independent, E: Evidence)
  {
    && Prepares(w, engine, live, prepared)
    && FixesModel(prepared, parsed.exchange.parentWire, p)
    && Inputs(w, engine, p, raw, parsed)
    && RunAsks(w, p, parsed, independent)
    && Confirms(p, parsed, independent)
    && Evidences(w, raw, p, parsed, independent, E)
  }

  /** A live run returns this evidence exactly when all of it stands. */
  lemma RunAccepts(w: World, engine: Fields, live: Live, raw: Raw, E: Evidence)
    requires Faithful(w)
    ensures ProduceLlama(w, engine, live, raw) == Ok(E) <==>
            exists prepared, p, parsed, independent ::
              RunStands(w, engine, live, raw, prepared, p, parsed, independent, E)
  {
    if ProduceLlama(w, engine, live, raw) == Ok(E) {
      ProducedStands(w, engine, live, raw);
    }
    if prepared, p, parsed, independent :| RunStands(w, engine, live, raw, prepared, p, parsed, independent, E) {
      StandingIsProduced(w, engine, live, raw, prepared, p, parsed, independent, E);
    }
  }

  lemma RunIsReplayable(w: World, p: Prepared, parsed: Parsed, independent: Independent)
    requires Faithful(w) && Requested(parsed) && RunTokenizer(w, p, parsed) == Ok(independent)
    ensures LogsRun(w, p, parsed, Some(independent.log), independent)
  {
    hide Faithful, RunTokenizer, ReplayTokenizer, LogsRun, Messages;
    ReplayOfRun(w, p, parsed);
    RunIsLogged(w, p, parsed, Some(independent.log), independent);
  }

  lemma ProducedStands(w: World, engine: Fields, live: Live, raw: Raw)
    requires Faithful(w) && ProduceLlama(w, engine, live, raw).Ok?
    ensures exists prepared, p, parsed, independent ::
              RunStands(w, engine, live, raw, prepared, p, parsed, independent,
                        ProduceLlama(w, engine, live, raw).value)
  {
    hide Faithful, PrepareEngine, ParseLlamaInputs, RunTokenizer, Prove, Prepares, FixesModel, Inputs, RunAsks,
         Confirms, Evidences, Messages, ParseExchange, CheckLlamaIdentity, LogsRun;
    var prepared := PrepareEngine(w, engine, live.pins, live.modelPath, live.fileVocabulary).value;
    var (p, parsed) := ParseLlamaInputs(w, engine, prepared, raw).value;
    var independent := RunTokenizer(w, p, parsed).value;
    EngineIsPrepared(w, engine, live, prepared);
    InputsAreThose(w, engine, prepared, raw, p, parsed);
    RunIsAsked(w, p, parsed, independent);
    RunIsReplayable(w, p, parsed, independent);
    ProofConfirms(w, p, raw, parsed, independent);
    ProofReports(w, p, raw, parsed, independent);
    assert RunStands(w, engine, live, raw, prepared, p, parsed, independent,
                     ProduceLlama(w, engine, live, raw).value);
  }

  lemma StandingIsProduced(
    w: World, engine: Fields, live: Live, raw: Raw, prepared: Prepared, p: Prepared, parsed: Parsed,
    independent: Independent, E: Evidence)
    requires Faithful(w) && RunStands(w, engine, live, raw, prepared, p, parsed, independent, E)
    ensures ProduceLlama(w, engine, live, raw) == Ok(E)
  {
    hide Faithful, PrepareEngine, ParseLlamaInputs, RunTokenizer, Prove, Prepares, FixesModel, Inputs, RunAsks,
         Confirms, Evidences, Messages, ParseExchange, CheckLlamaIdentity, LogsRun;
    EngineIsPrepared(w, engine, live, prepared);
    InputsAreThose(w, engine, prepared, raw, p, parsed);
    RunIsAsked(w, p, parsed, independent);
    RunIsReplayable(w, p, parsed, independent);
    ProofConfirms(w, p, raw, parsed, independent);
    ProofReports(w, p, raw, parsed, independent);
    OneEvidence(w, raw, p, parsed, independent, E, Prove(w, p, raw, parsed, independent).value);
  }
}
