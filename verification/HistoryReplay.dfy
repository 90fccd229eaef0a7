/** What the replay of retained history evidence reproduces, and what accepted evidence conserves. */
module HistoryReplay {
  import opened Bytes
  import opened Wrappers
  import opened Json
  import opened HistoryInputs
  import opened History
  import Text
  import PosixPath
  import Reuse

  lemma HexBytesOfHex(s: bytes)
    requires s != []
    ensures HexBytes(Str(Text.Hex(s))) == Ok(s)
  {
    Text.FromHexHex(s);
  }

  /** Replaying a logged exchange gives the live response. */
  lemma ReplayPost(w: World, route: Route, body: Fields)
    requires Faithful(w)
    requires PostJson(w, route, body).Ok?
    ensures var (response, record) := PostJson(w, route, body).value;
            ReplayExchange(w, Some(record), body) == Ok(response)
  {
    hide Text.Hex, HexBytes, Eq;
    var request := w.dumps(Obj(body));
    var response := w.server(route, request).value;
    assert w.loads(request) == Some(Obj(body));
    HexBytesOfHex(request);
    HexBytesOfHex(response);
    EqSelf(Obj(body));
  }

  lemma ReplayOfText(w: World, p: Prepared, text: string, kind: string)
    requires Faithful(w)
    requires TokenizeText(w, p, text, kind).Ok?
    ensures var (tokens, record) := TokenizeText(w, p, text, kind).value;
            ReplayText(w, p, Some(record), text, kind) == Ok(tokens)
  {
    hide TokenizeBody, PostJson, ReplayExchange, ReadTokens;
    ReplayPost(w, Tokenize, TokenizeBody(p.policy, text, kind).value);
  }

  lemma ReplayOfPrompt(w: World, p: Prepared, request: Fields)
    requires Faithful(w) && Messages(request).Ok?
    requires ApplyAndTokenize(w, p, request).Ok?
    ensures var (prompt, log) := ApplyAndTokenize(w, p, request).value;
            ReplayPrompt(w, p, Some(log), request) == Ok(prompt)
  {
    hide ApplyBody, PostJson, ReplayExchange, ReadRendered, TokenizeText, ReplayText, Messages;
    ReplayPost(w, ApplyTemplate, ApplyBody(p.policy, request));
    var (prompt, _) := ApplyAndTokenize(w, p, request).value;
    ReplayOfText(w, p, prompt.rendered, "prompt");
  }

  lemma ReplayOfRun(w: World, p: Prepared, parsed: Parsed)
    requires Faithful(w) && Requested(parsed)
    requires RunTokenizer(w, p, parsed).Ok?
    ensures var independent := RunTokenizer(w, p, parsed).value;
            ReplayTokenizer(w, p, parsed, Some(independent.log)) == Ok(independent)
  {
    hide ApplyBody, ApplyAndTokenize, ReplayPrompt, TokenizeText, ReplayText, Messages;
    ReplayOfPrompt(w, p, parsed.exchange.parentRequest);
    ReplayOfPrompt(w, p, parsed.exchange.branchRequest);
    ReplayOfText(w, p, parsed.parentContent, "generated");
  }

  /** After parsing, the model's name plays no part. */
  lemma ModelIsForgotten(w: World, p: Prepared, model: Value, raw: Raw, parsed: Parsed, log: Option<Log>)
    requires Requested(parsed)
    ensures ReplayTokenizer(w, p.(model := model), parsed, log) == ReplayTokenizer(w, p, parsed, log)
    ensures forall independent: Independent
              | HasIdentity(parsed.exchange.parentWire.events.metadata)
                && HasIdentity(parsed.exchange.branchWire.events.metadata) ::
              Prove(w, p.(model := model), raw, parsed, independent) == Prove(w, p, raw, parsed, independent)
  {
    hide ApplyBody, ReplayExchange, TokenizeBody, ReadTokens, ReadRendered, Messages;
    ReplayForgetsModel(w, p, model, parsed, log);
    forall independent: Independent
      | HasIdentity(parsed.exchange.parentWire.events.metadata)
        && HasIdentity(parsed.exchange.branchWire.events.metadata)
      ensures Prove(w, p.(model := model), raw, parsed, independent) == Prove(w, p, raw, parsed, independent)
    {
      ProveForgetsModel(w, p, model, raw, parsed, independent);
    }
  }

  lemma ReplayForgetsModel(w: World, p: Prepared, model: Value, parsed: Parsed, log: Option<Log>)
    requires Requested(parsed)
    ensures ReplayTokenizer(w, p.(model := model), parsed, log) == ReplayTokenizer(w, p, parsed, log)
  {
    hide ApplyBody, ReplayExchange, TokenizeBody, ReadTokens, ReadRendered, Messages;
  }

  lemma PromptForgetsModel(p: Prepared, model: Value, independent: Independent)
    ensures CheckGenerationPrompt(p.(model := model), independent) == CheckGenerationPrompt(p, independent)
  {
    hide Eq, Text.EndsWith;
  }

  lemma ParentForgetsModel(p: Prepared, model: Value, parsed: Parsed, independent: Independent)
    ensures CheckLlamaParent(p.(model := model), parsed, independent) == CheckLlamaParent(p, parsed, independent)
  {
    hide ApplyBody, RecordDigest, Messages, Eq, Text.EndsWith;
  }

  lemma BranchForgetsModel(p: Prepared, model: Value, parsed: Parsed, independent: Independent)
    ensures CheckLlamaBranch(p.(model := model), parsed, independent) == CheckLlamaBranch(p, parsed, independent)
  {
    hide ApplyBody, RecordDigest, Messages, Eq, Text.EndsWith;
  }

  lemma OracleForgetsModel(w: World, p: Prepared, model: Value, parsed: Parsed, log: Log)
    requires Requested(parsed)
    ensures MakeOracle(w, p.(model := model), parsed, log) == MakeOracle(w, p, parsed, log)
  {
    hide ApplyBody, RecordDigest, Messages, Eq, Text.EndsWith;
  }

  lemma ProveForgetsModel(
    w: World, p: Prepared, model: Value, raw: Raw, parsed: Parsed, independent: Independent)
    requires Requested(parsed)
    requires HasIdentity(parsed.exchange.parentWire.events.metadata)
    requires HasIdentity(parsed.exchange.branchWire.events.metadata)
    ensures Prove(w, p.(model := model), raw, parsed, independent) == Prove(w, p, raw, parsed, independent)
  {
    hide CheckGenerationPrompt, CheckLlamaParent, CheckLlamaBranch, MakeOracle, Reuse.CheckedLlamaReuse,
         CheckSlotBoundary, Messages;
    PromptForgetsModel(p, model, independent);
    ParentForgetsModel(p, model, parsed, independent);
    BranchForgetsModel(p, model, parsed, independent);
    OracleForgetsModel(w, p, model, parsed, independent.log);
  }

  /** The parsed inputs of a run that produced evidence. */
  function ParsedOf(w: World, engine: Fields, live: Live, raw: Raw): (Prepared, Parsed)
    requires ProduceLlama(w, engine, live, raw).Ok?
  {
    var prepared := PrepareEngine(w, engine, live.pins, live.modelPath, live.fileVocabulary).value;
    ParseLlamaInputs(w, engine, prepared, raw).value
  }

  /** The name that a replay expects in both responses: the declared alias, else the name that the parent reported. */
  function ReplayedModel(engine: Fields, parsed: Parsed): Value {
    var served := Get(engine, "served_model_alias");
    if served.Null? then parsed.exchange.parentWire.events.model else served
  }

  predicate ModelsAgree(w: World, engine: Fields, parsed: Parsed) {
    && NamesModel(w, parsed.exchange.parentWire.events.model, ReplayedModel(engine, parsed))
    && NamesModel(w, parsed.exchange.branchWire.events.model, ReplayedModel(engine, parsed))
  }

  lemma ProveKeepsOracle(w: World, p: Prepared, raw: Raw, parsed: Parsed, independent: Independent)
    requires Requested(parsed)
    requires HasIdentity(parsed.exchange.parentWire.events.metadata)
    requires HasIdentity(parsed.exchange.branchWire.events.metadata)
    requires Prove(w, p, raw, parsed, independent).Ok?
    ensures Prove(w, p, raw, parsed, independent).value.oracle == MakeOracle(w, p, parsed, independent.log)
  {
    hide CheckGenerationPrompt, CheckLlamaParent, CheckLlamaBranch, MakeOracle, Reuse.CheckedLlamaReuse,
         CheckSlotBoundary, Messages;
  }

  /** The evidence retains every prepared fact but the model's name. */
  lemma OracleKeepsPrepared(w: World, engine: Fields, p: Prepared, parsed: Parsed, log: Log)
    requires Requested(parsed)
    requires p.policySha == Str(w.sha256(w.canonical(Obj(p.policy)))) && p.vocabSize > 0
    requires p.runningIdentity == Get(engine, "_running_identity")
    requires p.promptPrefix == GetDefault(engine, "prompt_prefix", Str(""))
    ensures PreparedFromOracle(w, engine, MakeOracle(w, p, parsed, log)) ==
            Ok(p.(model := Get(engine, "served_model_alias")))
    ensures MakeOracle(w, p, parsed, log).exchanges == Some(log)
  {
    hide RecordDigest, ApplyBody, Messages;
  }

  lemma LiveSteps(w: World, engine: Fields, live: Live, raw: Raw)
    requires ProduceLlama(w, engine, live, raw).Ok?
    ensures var E := ProduceLlama(w, engine, live, raw).value;
            var (p, parsed) := ParsedOf(w, engine, live, raw);
            && Requested(parsed)
            && RunTokenizer(w, p, parsed).Ok?
            && HasIdentity(parsed.exchange.parentWire.events.metadata)
            && HasIdentity(parsed.exchange.branchWire.events.metadata)
            && Prove(w, p, raw, parsed, RunTokenizer(w, p, parsed).value) == Ok(E)
            && PreparedFromOracle(w, engine, E.oracle) == Ok(p.(model := Get(engine, "served_model_alias")))
            && E.oracle.exchanges == Some(RunTokenizer(w, p, parsed).value.log)
  {
    hide PrepareEngine, ParseLlamaInputs, RunTokenizer, Prove, CheckLlamaIdentity, PreparedFromOracle, MakeOracle,
         ParseExchange, Messages;
    var (p, parsed) := ParsedOf(w, engine, live, raw);
    var independent := RunTokenizer(w, p, parsed).value;
    ProveKeepsOracle(w, p, raw, parsed, independent);
    OracleKeepsPrepared(w, engine, p, parsed, independent.log);
  }

  /**
   Replaying the evidence of a live run on the same raw inputs gives exactly that evidence if and only if both responses
   name the model that the replay expects. Otherwise the replay rejects.
   */
  lemma ReplayReproduces(w: World, engine: Fields, live: Live, raw: Raw)
    requires Faithful(w)
    requires ProduceLlama(w, engine, live, raw).Ok?
    ensures var E := ProduceLlama(w, engine, live, raw).value;
            var (p, parsed) := ParsedOf(w, engine, live, raw);
            var replayed := RecomputeLlamaHistory(w, engine, E.oracle, raw);
            && Requested(parsed)
            && (replayed == Ok(E) <==> ModelsAgree(w, engine, parsed))
            && (replayed.Ok? ==> replayed == Ok(E))
  {
    hide PrepareEngine, PreparedFromOracle, ParseLlamaInputs, RunTokenizer, ReplayTokenizer, Prove, NamesModel,
         ApplyBody, Messages;
    LiveSteps(w, engine, live, raw);
    var E := ProduceLlama(w, engine, live, raw).value;
    var (p, parsed) := ParsedOf(w, engine, live, raw);
    var prepared := PrepareEngine(w, engine, live.pins, live.modelPath, live.fileVocabulary).value;
    var again := PreparedFromOracle(w, engine, E.oracle).value;
    ParseDependsOnModel(w, engine, prepared, again, raw);
    var replayModel := WithModel(again, parsed.exchange.parentWire).model;
    ModelIsForgotten(w, p, replayModel, raw, parsed, E.oracle.exchanges);
    ReplayOfRun(w, p, parsed);
  }

  /**
   Without a served alias, the names can only disagree in one way: the parent reports the base name of the model file
   and the branch reports its full path.
   */
  lemma ReplayWithoutAlias(w: World, engine: Fields, live: Live, raw: Raw)
    requires Faithful(w)
    requires ProduceLlama(w, engine, live, raw).Ok?
    requires Get(engine, "served_model_alias").Null?
    ensures var E := ProduceLlama(w, engine, live, raw).value;
            var (p, parsed) := ParsedOf(w, engine, live, raw);
            var parent, branch := w.text(parsed.exchange.parentWire.events.model),
                                  w.text(parsed.exchange.branchWire.events.model);
            && Requested(parsed)
            && (RecomputeLlamaHistory(w, engine, E.oracle, raw) == Ok(E) <==>
                !(parent != branch && branch == live.modelPath))
  {
    hide ParseLlamaInputs, Prove, RunTokenizer, RecomputeLlamaHistory, ParseExchange, ApplyBody,
         PolicyDeclaration, Messages;
    ReplayReproduces(w, engine, live, raw);
    PosixPath.BaseNameOfBaseName(live.modelPath);
    LiveNamesModel(w, engine, live, raw);
  }

  lemma LiveNamesModel(w: World, engine: Fields, live: Live, raw: Raw)
    requires Faithful(w)
    requires ProduceLlama(w, engine, live, raw).Ok?
    ensures var (_, parsed) := ParsedOf(w, engine, live, raw);
            && NamesModel(w, parsed.exchange.parentWire.events.model, Str(live.modelPath))
            && NamesModel(w, parsed.exchange.branchWire.events.model, Str(live.modelPath))
  {
    hide Prove, RunTokenizer, ParseExchange, ParseHistory, PolicyDeclaration, RunningProcess, Eq, NamesModel;
  }

  /** Replaying the outcome of a replay changes nothing: what one pass retains, the next pass accepts. */
  lemma ReplayIsStable(w: World, engine: Fields, oracle: Oracle, raw: Raw)
    requires RecomputeLlamaHistory(w, engine, oracle, raw).Ok?
    ensures var E := RecomputeLlamaHistory(w, engine, oracle, raw).value;
            && RecomputeLlamaHistory(w, engine, E.oracle, raw) == Ok(E)
            && E.oracle.exchanges == oracle.exchanges && E.oracle.policy == oracle.policy
            && E.oracle.pins == oracle.pins && E.oracle.vocabSize == oracle.vocabSize
  {
    hide ParseLlamaInputs, ReplayTokenizer, Prove, CheckLlamaIdentity, MakeOracle, ParseExchange, Messages;
    var prepared := PreparedFromOracle(w, engine, oracle).value;
    var (p, parsed) := ParseLlamaInputs(w, engine, prepared, raw).value;
    var independent := ReplayTokenizer(w, p, parsed, oracle.exchanges).value;
    ReplayKeepsLog(w, p, parsed, oracle.exchanges);
    ProveKeepsOracle(w, p, raw, parsed, independent);
    OracleKeepsPrepared(w, engine, p, parsed, independent.log);
    OracleKeepsFacts(w, p, parsed, independent.log);
  }

  lemma ReplayKeepsLog(w: World, p: Prepared, parsed: Parsed, log: Option<Log>)
    requires Requested(parsed)
    requires ReplayTokenizer(w, p, parsed, log).Ok?
    ensures log == Some(ReplayTokenizer(w, p, parsed, log).value.log)
  {
    hide ReplayPrompt, ReplayText, Messages;
  }

  lemma OracleKeepsFacts(w: World, p: Prepared, parsed: Parsed, log: Log)
    requires Requested(parsed)
    ensures var oracle := MakeOracle(w, p, parsed, log);
            && oracle.policy == Obj(p.policy) && oracle.pins == p.pins && oracle.vocabSize == Int(p.vocabSize)
  {
    hide RecordDigest, ApplyBody, Messages;
  }

  // ---------- What accepted evidence conserves ----------

  /**
   One count runs through the evidence: the evaluated, expected and observed counts and the saved and restored counts of
   a slot copy. The evaluated tokens are those first tokens, and a proper prefix of the branch prompt.
   */
  predicate Conserved(E: Evidence) {
    var n := |E.parentPromptTokens| + |E.parentGeneratedTokens| - 1;
    && n == E.parentEvaluatedCount == |E.parentEvaluatedTokens|
    && n == E.expectedReusedCount == E.observedReusedCount
    && (E.oracle.slotCopy.Some? ==>
         E.oracle.slotCopy.value.savedTokens == E.oracle.slotCopy.value.restoredTokens == n)
    && |E.parentPromptTokens| < n
    && E.parentEvaluatedTokens < E.requestTokens
    && E.parentEvaluatedTokens == (E.parentPromptTokens + E.parentGeneratedTokens)[..n]
  }

  /** Accepted proofs conserve the count, and it is the cached count that the parent reported. */
  lemma BoundaryConserved(w: World, p: Prepared, raw: Raw, parsed: Parsed, independent: Independent)
    requires Requested(parsed)
    requires HasIdentity(parsed.exchange.parentWire.events.metadata)
    requires HasIdentity(parsed.exchange.branchWire.events.metadata)
    requires parsed.exchange.slotCopy.Some? ==>
               parsed.exchange.slotCopy.value.savedTokens == parsed.exchange.slotCopy.value.restoredTokens
    requires Prove(w, p, raw, parsed, independent).Ok?
    ensures var E := Prove(w, p, raw, parsed, independent).value;
            Conserved(E) && Get(parsed.exchange.parentWire.verbose, "tokens_cached") == Int(E.expectedReusedCount)
  {
    hide CheckGenerationPrompt, CheckLlamaParent, CheckLlamaBranch, MakeOracle, Reuse.CheckedLlamaReuse,
         Reuse.CheckedReuse;
    var cached := Get(parsed.exchange.parentWire.verbose, "tokens_cached");
    var observed := CheckLlamaBranch(p, parsed, independent).value;
    var parent, generated, branch := independent.parent.tokens, parsed.generatedTokens, independent.branch.tokens;
    Reuse.ChecksAgree(cached, observed, parent, generated, branch);
    if cached.Int? {
      Reuse.CheckedReuseExact(cached.n, observed, parent, generated, branch);
    }
    assert MakeOracle(w, p, parsed, independent.log).slotCopy == parsed.exchange.slotCopy by {
      OracleKeepsSlotCopy(w, p, parsed, independent.log);
    }
  }

  lemma OracleKeepsSlotCopy(w: World, p: Prepared, parsed: Parsed, log: Log)
    requires Requested(parsed)
    ensures MakeOracle(w, p, parsed, log).slotCopy == parsed.exchange.slotCopy
  {
    hide RecordDigest, ApplyBody, Messages;
  }

  /** The same count, for the evidence of every successful live run, whatever the server answered. */
  lemma RunConserves(w: World, engine: Fields, live: Live, raw: Raw)
    requires ProduceLlama(w, engine, live, raw).Ok?
    ensures Conserved(ProduceLlama(w, engine, live, raw).value)
  {
    hide ParseExchange, ParseHistory, RunTokenizer, Prove, Messages, Eq, RunningProcess, NamesModel, Conserved;
    var prepared := PrepareEngine(w, engine, live.pins, live.modelPath, live.fileVocabulary).value;
    var (p, parsed) := ParseLlamaInputs(w, engine, prepared, raw).value;
    BoundaryConserved(w, p, raw, parsed, RunTokenizer(w, p, parsed).value);
  }

  /** The same count, for any evidence that a replay accepts from any retained record. */
  lemma ReplayConserves(w: World, engine: Fields, oracle: Oracle, raw: Raw)
    requires RecomputeLlamaHistory(w, engine, oracle, raw).Ok?
    ensures Conserved(RecomputeLlamaHistory(w, engine, oracle, raw).value)
  {
    hide ParseExchange, ParseHistory, ReplayTokenizer, Prove, Messages, Eq, RunningProcess, NamesModel, Conserved;
    var prepared := PreparedFromOracle(w, engine, oracle).value;
    var (p, parsed) := ParseLlamaInputs(w, engine, prepared, raw).value;
    var independent := ReplayTokenizer(w, p, parsed, oracle.exchanges).value;
    BoundaryConserved(w, p, raw, parsed, independent);
  }
}
