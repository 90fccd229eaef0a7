/**
 The compiler-flag normaliser of the build script, on the token vector before it is joined. It redacts the values of
 options that may hold private paths.
 */
module Flags {
  import Text

  const REDACTED := "<redacted>"

  type Token = string

  predicate TakesPrivateValue(flag: Token) {
    flag in {"-L", "--library-path", "--extern", "--out-dir", "--remap-path-prefix", "--sysroot"}
  }

  predicate PrivateFlag(flag: Token) {
    var lower := Text.Lower(flag);
    || "--remap-path-prefix" <= lower
    || "--extern" <= lower
    || "--out-dir" <= lower
    || "--sysroot" <= lower
    || "-l/" <= lower
    || "-l\\" <= lower
    || '/' in flag
    || '\\' in flag
  }

  /** The position of the first equals sign, or the length. */
  function FindEquals(flag: Token): (i: nat)
    ensures i <= |flag|
    ensures forall k :: 0 <= k < i ==> flag[k] != '='
    ensures i < |flag| ==> flag[i] == '='
  {
    if flag == [] || flag[0] == '=' then 0 else 1 + FindEquals(flag[1..])
  }

  function WithoutValue(flag: Token, otherwise: Token): Token {
    var i := FindEquals(flag);
    if i == |flag| then otherwise else flag[..i] + "=" + REDACTED
  }

  function TokenOption(flag: Token): Token {
    WithoutValue(flag, flag)
  }

  function InlineRedaction(flag: Token): Token {
    WithoutValue(flag, REDACTED)
  }

  // ---------- The normaliser as a function ----------

  /** The rewritten tokens, and for each position whether it was redacted. */
  datatype Normal = Normal(tokens: seq<Token>, redacted: seq<bool>)

  function Prepend(token: Token, redacted: bool, rest: Normal): Normal {
    Normal([token] + rest.tokens, [redacted] + rest.redacted)
  }

  function Normalize(tokens: seq<Token>): (r: Normal)
    ensures |r.tokens| == |r.redacted| == |tokens|
    decreases |tokens|
  {
    if tokens == [] then Normal([], [])
    else if TakesPrivateValue(tokens[0]) then
      if |tokens| == 1 then Normal([TokenOption(tokens[0])], [false])
      else Prepend(TokenOption(tokens[0]), false, Prepend(REDACTED, true, Normalize(tokens[2..])))
    else if PrivateFlag(tokens[0]) then Prepend(InlineRedaction(tokens[0]), true, Normalize(tokens[1..]))
    else if tokens[0] == "-C" && |tokens| > 1 && PrivateFlag(tokens[1]) then
      Prepend(tokens[0], false, Prepend(REDACTED, true, Normalize(tokens[2..])))
    else Prepend(tokens[0], false, Normalize(tokens[1..]))
  }

  function Count(flags: seq<bool>): nat {
    if flags == [] then 0 else (if flags[0] then 1 else 0) + Count(flags[1..])
  }

  /** The normaliser over a peeking iterator, `next` the position of the next token. */
  method NormalizedFlags(tokens: seq<Token>) returns (normalized: seq<Token>, redactionCount: nat)
    ensures normalized == Normalize(tokens).tokens
    ensures redactionCount == Count(Normalize(tokens).redacted)
  {
    hide TakesPrivateValue, PrivateFlag, InlineRedaction, TokenOption, Normalize, Count;
    NoTokens(tokens);
    normalized, redactionCount := [], 0;
    var next := 0;
    while next < |tokens|
      invariant next <= |tokens|
      invariant normalized + Normalize(tokens[next..]).tokens == Normalize(tokens).tokens
      invariant redactionCount + Count(Normalize(tokens[next..]).redacted) == Count(Normalize(tokens).redacted)
    {
      ghost var rest := tokens[next..];
      Unfold(rest);
      assert rest[1..] == tokens[next + 1..];
      assert |rest| > 1 ==> rest[2..] == tokens[next + 2..];
      var token := tokens[next];
      next := next + 1;
      ghost var out := normalized;
      if TakesPrivateValue(token) {
        normalized := normalized + [TokenOption(token)];
        if next < |tokens| {
          next := next + 1;
          normalized := normalized + [REDACTED];
          redactionCount := redactionCount + 1;
          AppendTwo(out, TokenOption(token), REDACTED, Normalize(tokens[next..]).tokens);
        }
        continue;
      }
      if PrivateFlag(token) {
        normalized := normalized + [InlineRedaction(token)];
        redactionCount := redactionCount + 1;
        AppendOne(out, InlineRedaction(token), Normalize(tokens[next..]).tokens);
        continue;
      }
      if token == "-C" {
        normalized := normalized + [token];
        if next < |tokens| && PrivateFlag(tokens[next]) {
          next := next + 1;
          normalized := normalized + [REDACTED];
          redactionCount := redactionCount + 1;
          AppendTwo(out, token, REDACTED, Normalize(tokens[next..]).tokens);
        } else {
          AppendOne(out, token, Normalize(tokens[next..]).tokens);
        }
        continue;
      }
      normalized := normalized + [token];
      AppendOne(out, token, Normalize(tokens[next..]).tokens);
    }
  }

  lemma AppendOne<T>(out: seq<T>, x: T, rest: seq<T>)
    ensures out + [x] + rest == out + ([x] + rest)
  {
  }

  lemma AppendTwo<T>(out: seq<T>, x: T, y: T, rest: seq<T>)
    ensures out + [x] + [y] + rest == out + ([x] + ([y] + rest))
  {
  }

  lemma NoTokens(tokens: seq<Token>)
    ensures tokens[0..] == tokens && tokens[|tokens|..] == []
    ensures Normalize([]).tokens == [] && Count(Normalize([]).redacted) == 0
  {
  }

  /** One step of the normaliser, in terms of what remains. */
  lemma Unfold(tokens: seq<Token>)
    requires tokens != []
    ensures var r, first := Normalize(tokens), tokens[0];
            if TakesPrivateValue(first) && |tokens| == 1 then
              r.tokens == [TokenOption(first)] && Count(r.redacted) == 0
            else if TakesPrivateValue(first) then
              var rest := Normalize(tokens[2..]);
              && r.tokens == [TokenOption(first)] + ([REDACTED] + rest.tokens)
              && Count(r.redacted) == 1 + Count(rest.redacted)
            else if PrivateFlag(first) then
              var rest := Normalize(tokens[1..]);
              r.tokens == [InlineRedaction(first)] + rest.tokens && Count(r.redacted) == 1 + Count(rest.redacted)
            else if first == "-C" && |tokens| > 1 && PrivateFlag(tokens[1]) then
              var rest := Normalize(tokens[2..]);
              r.tokens == [first] + ([REDACTED] + rest.tokens) && Count(r.redacted) == 1 + Count(rest.redacted)
            else
              var rest := Normalize(tokens[1..]);
              r.tokens == [first] + rest.tokens && Count(r.redacted) == Count(rest.redacted)
  {
    hide TakesPrivateValue, PrivateFlag, InlineRedaction, TokenOption;
    CountPrepend(false, Normalize(tokens[1..]).redacted);
    CountPrepend(true, Normalize(tokens[1..]).redacted);
    if |tokens| > 1 {
      CountPrepend(true, Normalize(tokens[2..]).redacted);
      CountPrepend(false, [true] + Normalize(tokens[2..]).redacted);
    }
    CountPrepend(false, []);
  }

  lemma CountPrepend(flag: bool, flags: seq<bool>)
    ensures Count([flag] + flags) == (if flag then 1 else 0) + Count(flags)
  {
    assert ([flag] + flags)[1..] == flags;
  }

  // ---------- Facts about single tokens ----------

  predicate EndsRedacted(token: Token) {
    |token| >= |REDACTED| && token[|token| - |REDACTED|..] == REDACTED
  }

  lemma RedactedEnd(token: Token)
    ensures EndsRedacted(token) ==> token[|token| - 1] == '>'
  {
    if EndsRedacted(token) {
      var end := token[|token| - |REDACTED|..];
      assert token[|token| - 1] == end[|REDACTED| - 1];
    }
  }

  lemma PlainOption(flag: Token, option: string)
    requires '=' !in option && '>' !in option
    ensures flag == option ==> TokenOption(flag) == flag && !EndsRedacted(flag)
  {
    forall k | 0 <= k < |option| ensures option[k] != '=' && option[k] != '>' {
      assert option[k] in option;
    }
    RedactedEnd(option);
  }

  lemma OptionsArePlain()
    ensures '=' !in "-L" && '>' !in "-L"
    ensures '=' !in "--library-path" && '>' !in "--library-path"
    ensures '=' !in "--extern" && '>' !in "--extern"
    ensures '=' !in "--out-dir" && '>' !in "--out-dir"
    ensures '=' !in "--remap-path-prefix" && '>' !in "--remap-path-prefix"
    ensures '=' !in "--sysroot" && '>' !in "--sysroot"
  {
  }

  /** A private-value option is printed as it is, and is not itself a redaction. */
  lemma PrivateOption(flag: Token)
    requires TakesPrivateValue(flag)
    ensures TokenOption(flag) == flag && !EndsRedacted(flag)
  {
    hide TokenOption, EndsRedacted;
    OptionsArePlain();
    PlainOption(flag, "-L");
    PlainOption(flag, "--library-path");
    PlainOption(flag, "--extern");
    PlainOption(flag, "--out-dir");
    PlainOption(flag, "--remap-path-prefix");
    PlainOption(flag, "--sysroot");
  }

  /** A redaction ends in the marker, takes no value, and stays what it is when it is redacted again. */
  lemma RedactionIsStable(flag: Token)
    ensures EndsRedacted(InlineRedaction(flag)) && EndsRedacted(REDACTED)
    ensures !TakesPrivateValue(InlineRedaction(flag)) && !TakesPrivateValue(REDACTED)
    ensures InlineRedaction(flag) != "-C" && REDACTED != "-C"
    ensures PrivateFlag(InlineRedaction(flag)) ==> InlineRedaction(InlineRedaction(flag)) == InlineRedaction(flag)
    ensures !PrivateFlag(REDACTED)
  {
    var once := InlineRedaction(flag);
    var i := FindEquals(flag);
    if i < |flag| {
      SplitAgain(flag[..i], REDACTED);
      assert once[|once| - |REDACTED|..] == REDACTED;
    }
    MarkerIsPlain();
    if TakesPrivateValue(once) {
      PrivateOption(once);
    }
    assert |once| >= |REDACTED|;
  }

  lemma SplitAgain(option: string, value: string)
    requires forall k :: 0 <= k < |option| ==> option[k] != '='
    ensures FindEquals(option + "=" + value) == |option|
    ensures (option + "=" + value)[..|option|] == option
  {
    var flag := option + "=" + value;
    var i := FindEquals(flag);
    assert forall k :: 0 <= k < |option| ==> flag[k] == option[k];
    assert flag[|option|] == '=';
  }

  lemma MarkerIsPlain()
    ensures !PrivateFlag(REDACTED) && !TakesPrivateValue(REDACTED) && EndsRedacted(REDACTED)
  {
    assert Text.Lower(REDACTED)[0] == '<';
  }

  // ---------- Theorems ----------

  /** Normalising again changes nothing. */
  lemma {:induction false} NormalizeTwice(tokens: seq<Token>)
    ensures Normalize(Normalize(tokens).tokens).tokens == Normalize(tokens).tokens
    decreases |tokens|
  {
    hide TakesPrivateValue, PrivateFlag, InlineRedaction, TokenOption;
    if tokens != [] {
      var first := tokens[0];
      MarkerIsPlain();
      if TakesPrivateValue(first) {
        PrivateOption(first);
        if |tokens| > 1 {
          NormalizeTwice(tokens[2..]);
          var rest := Normalize(tokens[2..]).tokens;
          assert ([first] + ([REDACTED] + rest))[2..] == rest;
        }
      } else if PrivateFlag(first) {
        NormalizeTwice(tokens[1..]);
        RedactionIsStable(first);
        RedactedFirst(InlineRedaction(first), Normalize(tokens[1..]).tokens);
      } else if first == "-C" && |tokens| > 1 && PrivateFlag(tokens[1]) {
        NormalizeTwice(tokens[2..]);
        RedactedFirst(REDACTED, Normalize(tokens[2..]).tokens);
        PlainC([REDACTED] + Normalize(tokens[2..]).tokens);
      } else {
        NormalizeTwice(tokens[1..]);
        KeptFirst(first, tokens[1..]);
      }
    }
  }

  /** A stable token in front of stable tokens. */
  lemma RedactedFirst(token: Token, rest: seq<Token>)
    requires Normalize(rest).tokens == rest
    requires !TakesPrivateValue(token) && token != "-C"
    requires PrivateFlag(token) ==> InlineRedaction(token) == token
    ensures Normalize([token] + rest).tokens == [token] + rest
  {
    hide TakesPrivateValue, PrivateFlag, InlineRedaction, TokenOption;
    assert ([token] + rest)[1..] == rest;
  }

  lemma PlainC(rest: seq<Token>)
    requires Normalize(rest).tokens == rest && (rest != [] ==> !PrivateFlag(rest[0]))
    ensures Normalize(["-C"] + rest).tokens == ["-C"] + rest
  {
    assert (["-C"] + rest)[1..] == rest;
    assert !TakesPrivateValue("-C");
    assert !PrivateFlag("-C") by {
      assert Text.Lower("-C") == "-c";
    }
  }

  /** A token that was kept in front of the rest is kept again. */
  lemma KeptFirst(first: Token, rest: seq<Token>)
    requires !TakesPrivateValue(first) && !PrivateFlag(first)
    requires first == "-C" && rest != [] ==> !PrivateFlag(rest[0])
    requires var again := Normalize(rest).tokens; Normalize(again).tokens == again
    ensures Normalize([first] + Normalize(rest).tokens).tokens == [first] + Normalize(rest).tokens
  {
    hide TakesPrivateValue, PrivateFlag, InlineRedaction, TokenOption;
    var again := Normalize(rest).tokens;
    assert ([first] + again)[1..] == again;
    if first == "-C" && rest != [] {
      FirstIsKept(rest);
    }
  }

  lemma FirstIsKept(tokens: seq<Token>)
    requires tokens != [] && !PrivateFlag(tokens[0])
    ensures Normalize(tokens).tokens[0] == tokens[0]
  {
    hide PrivateFlag, InlineRedaction;
    if TakesPrivateValue(tokens[0]) {
      PrivateOption(tokens[0]);
    }
  }

  /** How many tokens one step consumes. */
  function Step(tokens: seq<Token>): (n: nat)
    requires tokens != []
    ensures 1 <= n <= 2 && n <= |tokens|
  {
    if |tokens| == 1 then 1
    else if TakesPrivateValue(tokens[0]) then 2
    else if !PrivateFlag(tokens[0]) && tokens[0] == "-C" && PrivateFlag(tokens[1]) then 2
    else 1
  }

  /** The output after one step is the output of what remains. */
  lemma AfterStep(tokens: seq<Token>)
    requires tokens != []
    ensures Normalize(tokens).tokens[Step(tokens)..] == Normalize(tokens[Step(tokens)..]).tokens
  {
    hide TakesPrivateValue, PrivateFlag, InlineRedaction, TokenOption, Normalize, Count;
    Unfold(tokens);
    var n := Step(tokens);
    var out, rest := Normalize(tokens).tokens, Normalize(tokens[n..]).tokens;
    if n == 2 {
      assert out == [out[0]] + ([REDACTED] + rest);
      assert out[2..] == rest;
    } else if |tokens| > 1 {
      assert out == [out[0]] + rest;
      assert out[1..] == rest;
    } else {
      assert out[n..] == [] && rest == [];
    }
  }

  /** The output of one step: a token that takes a value is followed by the marker. */
  lemma InStep(tokens: seq<Token>)
    requires tokens != []
    ensures Step(tokens) == 2 ==> Normalize(tokens).tokens[1] == REDACTED
    ensures Step(tokens) == 1 && TakesPrivateValue(Normalize(tokens).tokens[0]) ==> |tokens| == 1
  {
    hide TakesPrivateValue, PrivateFlag, InlineRedaction, TokenOption;
    RedactionIsStable(tokens[0]);
  }

  /** After an option that takes a private value, the output shows only the marker. */
  lemma {:induction false} ValueIsRedacted(tokens: seq<Token>, k: nat)
    requires k + 1 < |tokens| && TakesPrivateValue(Normalize(tokens).tokens[k])
    ensures Normalize(tokens).tokens[k + 1] == REDACTED
    decreases |tokens|
  {
    hide TakesPrivateValue, Normalize, Step;
    var n := Step(tokens);
    InStep(tokens);
    if k >= n {
      AfterStep(tokens);
      ValueIsRedacted(tokens[n..], k - n);
    } else if k == 1 {
      RedactionIsStable("");
    }
  }

  function Differing(one: seq<Token>, two: seq<Token>): seq<bool>
    requires |one| == |two|
  {
    if one == [] then [] else [one[0] != two[0]] + Differing(one[1..], two[1..])
  }

  /** The output token of a step's first token, and whether it was redacted. */
  function Head(token: Token): Token {
    if TakesPrivateValue(token) then TokenOption(token)
    else if PrivateFlag(token) then InlineRedaction(token)
    else token
  }

  predicate HeadRedacted(token: Token) {
    !TakesPrivateValue(token) && PrivateFlag(token)
  }

  lemma HeadKeeps(token: Token)
    ensures if HeadRedacted(token) then EndsRedacted(Head(token)) else Head(token) == token
  {
    hide TakesPrivateValue, PrivateFlag, InlineRedaction, TokenOption, EndsRedacted;
    RedactionIsStable(token);
    if TakesPrivateValue(token) {
      PrivateOption(token);
    }
  }

  lemma NormalizeStep(tokens: seq<Token>)
    requires tokens != []
    ensures var first := tokens[0];
            Normalize(tokens) ==
            if Step(tokens) == 1 then Prepend(Head(first), HeadRedacted(first), Normalize(tokens[1..]))
            else Prepend(Head(first), false, Prepend(REDACTED, true, Normalize(tokens[2..])))
    ensures Step(tokens) == 2 ==> !HeadRedacted(tokens[0])
  {
    hide TakesPrivateValue, PrivateFlag, InlineRedaction, TokenOption;
    if |tokens| == 1 {
      assert tokens[1..] == [];
    }
  }

  /** A position that is not redacted is unchanged, and a redacted one ends in the marker. */
  lemma {:induction false} RedactedPositions(tokens: seq<Token>, k: nat)
    requires k < |tokens|
    ensures var r := Normalize(tokens);
            if r.redacted[k] then EndsRedacted(r.tokens[k]) else r.tokens[k] == tokens[k]
    decreases |tokens|
  {
    hide Normalize, Step, Head, HeadRedacted, EndsRedacted;
    NormalizeStep(tokens);
    var n := Step(tokens);
    if k >= n {
      RedactedPositions(tokens[n..], k - n);
    } else if k == 0 {
      HeadKeeps(tokens[0]);
    } else {
      MarkerIsPlain();
    }
  }

  // ---------- Which values are hidden ----------

  predicate StartsPrivately(text: string) {
    "--remap-path-prefix" <= text || "--extern" <= text || "--out-dir" <= text || "--sysroot" <= text
  }

  /** A token is private when it holds a path separator, or starts like one of four options in any letter case. */
  lemma PrivateMeans(flag: Token)
    ensures PrivateFlag(flag) <==> '/' in flag || '\\' in flag || StartsPrivately(Text.Lower(flag))
  {
    var lower := Text.Lower(flag);
    if "-l/" <= lower {
      assert lower[2] == '/' && flag[2] == '/';
    }
    if "-l\\" <= lower {
      assert lower[2] == '\\' && flag[2] == '\\';
    }
  }

  lemma LowerAppend(one: string, two: string)
    ensures Text.Lower(one + two) == Text.Lower(one) + Text.Lower(two)
  {
  }

  /** The value after the equals sign of such an option is hidden, whatever the option's letter case. */
  lemma InlineValueIsHidden(option: string, value: string, rest: seq<Token>)
    requires '=' !in option
    requires Text.Lower(option) in {"--remap-path-prefix", "--extern", "--out-dir", "--sysroot"}
    ensures Normalize([option + "=" + value] + rest).tokens == [option + "=" + "<redacted>"] + Normalize(rest).tokens
  {
    hide Normalize, PrivateFlag, FindEquals, Text.Lower, TakesPrivateValue;
    var flag := option + "=" + value;
    assert forall k :: 0 <= k < |option| ==> option[k] in option;
    SplitAgain(option, value);
    PrivateMeans(flag);
    LowerAppend(option, "=" + value);
    assert flag == option + ("=" + value);
    assert Text.Lower(option) <= Text.Lower(flag);
    assert !TakesPrivateValue(flag) by {
      assert flag[|option|] == '=';
      if TakesPrivateValue(flag) {
        OptionHasNoEquals(flag);
      }
    }
    assert ([flag] + rest)[1..] == rest;
    NormalizeStep([flag] + rest);
  }

  lemma OptionHasNoEquals(flag: Token)
    requires TakesPrivateValue(flag)
    ensures '=' !in flag
  {
    OptionsArePlain();
  }

  /** The token after an option that takes a private value is hidden, and so is a path after `-C`. */
  lemma NextValueIsHidden(option: Token, value: Token, rest: seq<Token>)
    requires || option in {"-L", "--library-path", "--extern", "--out-dir", "--remap-path-prefix", "--sysroot"}
             || (option == "-C" && ('/' in value || '\\' in value))
    ensures Normalize([option, value] + rest).tokens == [option, "<redacted>"] + Normalize(rest).tokens
  {
    hide Normalize, PrivateFlag, TokenOption, InlineRedaction;
    var tokens := [option, value] + rest;
    assert tokens[2..] == rest && tokens[1..] == [value] + rest;
    PrivateMeans(value);
    if option == "-C" {
      MinusCIsPlain();
    } else {
      PrivateOption(option);
    }
    NormalizeStep(tokens);
  }

  lemma MinusCIsPlain()
    ensures !PrivateFlag("-C")
  {
    assert Text.Lower("-C") == "-c";
  }

  /** Any other token is kept. */
  lemma OthersAreKept(token: Token, rest: seq<Token>)
    requires token !in {"-L", "--library-path", "--extern", "--out-dir", "--remap-path-prefix", "--sysroot", "-C"}
    requires '/' !in token && '\\' !in token && !StartsPrivately(Text.Lower(token))
    ensures Normalize([token] + rest).tokens == [token] + Normalize(rest).tokens
  {
    hide Normalize, PrivateFlag;
    PrivateMeans(token);
    assert ([token] + rest)[1..] == rest;
    NormalizeStep([token] + rest);
  }

  // ---------- Which paths survive ----------

  predicate HasSeparator(text: string) {
    '/' in text || '\\' in text
  }

  /** A token that spells a path before its first equals sign. */
  predicate PathOption(token: Token) {
    var i := FindEquals(token);
    i < |token| && HasSeparator(token[..i])
  }

  lemma SeparatorInPair(option: string)
    ensures HasSeparator(option + "=" + REDACTED) <==> HasSeparator(option)
    ensures !HasSeparator(REDACTED)
  {
  }

  lemma OptionsHaveNoPath(flag: Token)
    requires TakesPrivateValue(flag)
    ensures !HasSeparator(flag)
  {
  }

  lemma SeparatorInPrefix(token: Token, i: nat)
    requires i <= |token| && HasSeparator(token[..i])
    ensures HasSeparator(token)
  {
  }

  lemma HeadSeparator(token: Token)
    ensures HasSeparator(Head(token)) <==> PathOption(token)
    ensures HasSeparator(Head(token)) ==> Head(token) == token[..FindEquals(token)] + "=" + REDACTED
  {
    hide HasSeparator, TakesPrivateValue, FindEquals, TokenOption;
    var i := FindEquals(token);
    if i < |token| && HasSeparator(token[..i]) {
      SeparatorInPrefix(token, i);
    }
    SeparatorInPair(token[..i]);
    if TakesPrivateValue(token) {
      PrivateOption(token);
      OptionsHaveNoPath(token);
    } else if !PrivateFlag(token) {
      assert !HasSeparator(token) by {
        NoPathUnlessPrivate(token);
      }
    }
  }

  lemma NoPathUnlessPrivate(token: Token)
    requires !PrivateFlag(token)
    ensures !HasSeparator(token)
  {
  }

  /** Only what stands before the first equals sign of an input token can show a path separator in the output. */
  lemma {:induction false} OnlyPathOptionsShow(tokens: seq<Token>, k: nat)
    requires k < |tokens| && HasSeparator(Normalize(tokens).tokens[k])
    ensures PathOption(tokens[k])
    ensures Normalize(tokens).tokens[k] == tokens[k][..FindEquals(tokens[k])] + "=" + REDACTED
    decreases |tokens|
  {
    hide Normalize, Step, Head, HeadRedacted, HasSeparator, PathOption;
    NormalizeStep(tokens);
    var n := Step(tokens);
    SeparatorInPair("");
    if k >= n {
      OnlyPathOptionsShow(tokens[n..], k - n);
    } else if k == 0 {
      HeadSeparator(tokens[0]);
    }
  }

  /** Whether the normaliser meets a path option that it does not read as another option's value. */
  predicate MeetsPathOption(tokens: seq<Token>)
    decreases |tokens|
  {
    tokens != [] && (PathOption(tokens[0]) || MeetsPathOption(tokens[Step(tokens)..]))
  }

  predicate ShowsPath(tokens: seq<Token>) {
    exists k :: 0 <= k < |tokens| && HasSeparator(tokens[k])
  }

  lemma ShowsPathFirst(token: Token, rest: seq<Token>)
    ensures ShowsPath([token] + rest) <==> HasSeparator(token) || ShowsPath(rest)
  {
    hide HasSeparator;
    var tokens := [token] + rest;
    if HasSeparator(token) {
      assert HasSeparator(tokens[0]);
    }
    if ShowsPath(rest) {
      var k :| 0 <= k < |rest| && HasSeparator(rest[k]);
      assert tokens[k + 1] == rest[k];
    }
  }

  /** The output shows a path separator exactly when the normaliser meets a path option. */
  lemma {:induction false} PathsSurvive(tokens: seq<Token>)
    ensures ShowsPath(Normalize(tokens).tokens) <==> MeetsPathOption(tokens)
    decreases |tokens|
  {
    hide Normalize, Step, Head, HeadRedacted, HasSeparator, PathOption, ShowsPath;
    if tokens == [] {
      NothingShown();
    } else {
      NormalizeStep(tokens);
      HeadSeparator(tokens[0]);
      SeparatorInPair("");
      var rest := Normalize(tokens[Step(tokens)..]).tokens;
      PathsSurvive(tokens[Step(tokens)..]);
      ShowsPathFirst(REDACTED, rest);
      ShowsPathFirst(Head(tokens[0]), rest);
      ShowsPathFirst(Head(tokens[0]), [REDACTED] + rest);
    }
  }

  lemma NothingShown()
    ensures !ShowsPath(Normalize([]).tokens)
  {
  }

  /** A path that survives: the normaliser hides only what follows the equals sign. */
  lemma PathSurvives()
    ensures Normalize(["/home/me=x"]).tokens == ["/home/me=" + REDACTED]
    ensures MeetsPathOption(["/home/me=x"])
  {
    hide Normalize, PathOption, MeetsPathOption, FindEquals;
    var option := "/home/me";
    assert option[0] == '/';
    assert "/home/me=x" == option + "=" + "x" && "/home/me=" == option + "=";
    PathOptionAlone(option, "x");
  }

  lemma PathOptionAlone(option: string, value: string)
    requires '/' in option && '=' !in option
    ensures var tokens := [option + "=" + value];
            Normalize(tokens).tokens == [option + "=" + REDACTED] && MeetsPathOption(tokens)
  {
    hide Normalize, FindEquals, Head, HeadRedacted;
    var flag := option + "=" + value;
    assert forall k :: 0 <= k < |option| ==> option[k] in option;
    SplitAgain(option, value);
    HeadSeparator(flag);
    NormalizeStep([flag]);
    assert [flag][1..] == [];
    NothingCounted();
  }

  // ---------- What the count counts ----------

  /** How many redactions find their token in its redacted form already, by a scan of the input alone. */
  function Excess(tokens: seq<Token>): nat
    decreases |tokens|
  {
    if tokens == [] then 0
    else if TakesPrivateValue(tokens[0]) then
      if |tokens| == 1 then 0 else (if tokens[1] == REDACTED then 1 else 0) + Excess(tokens[2..])
    else if PrivateFlag(tokens[0]) then
      (if InlineRedaction(tokens[0]) == tokens[0] then 1 else 0) + Excess(tokens[1..])
    else if tokens[0] == "-C" && |tokens| > 1 && PrivateFlag(tokens[1]) then Excess(tokens[2..])
    else Excess(tokens[1..])
  }

  function Changes(one: seq<Token>, two: seq<Token>): nat
    requires |one| == |two|
  {
    Count(Differing(one, two))
  }

  lemma ChangesFirst(one: seq<Token>, two: seq<Token>, x: Token, rest: seq<Token>)
    requires one != [] && two == [x] + rest && |rest| == |one| - 1
    ensures Changes(one, two) == (if one[0] != x then 1 else 0) + Changes(one[1..], rest)
  {
    assert two[1..] == rest;
    CountPrepend(one[0] != x, Differing(one[1..], rest));
  }

  lemma ChangesTwo(one: seq<Token>, two: seq<Token>, x: Token, y: Token, rest: seq<Token>)
    requires |one| >= 2 && two == [x] + ([y] + rest) && |rest| == |one| - 2
    ensures Changes(one, two)
         == (if one[0] != x then 1 else 0) + (if one[1] != y then 1 else 0) + Changes(one[2..], rest)
  {
    hide Changes;
    ChangesFirst(one, two, x, [y] + rest);
    ChangesFirst(one[1..], [y] + rest, y, rest);
    assert one[1..][1..] == one[2..];
  }

  /** The redaction count is the number of changed tokens plus the excess. */
  lemma {:induction false} CountIsChangesPlusExcess(tokens: seq<Token>)
    ensures Count(Normalize(tokens).redacted) == Changes(tokens, Normalize(tokens).tokens) + Excess(tokens)
    decreases |tokens|
  {
    hide TakesPrivateValue, PrivateFlag, InlineRedaction, TokenOption, Normalize, Count, Changes;
    if tokens == [] {
      NothingCounted();
    } else {
      Unfold(tokens);
      MarkerIsPlain();
      var r, first := Normalize(tokens).tokens, tokens[0];
      if TakesPrivateValue(first) {
        PrivateOption(first);
        if |tokens| == 1 {
          NothingCounted();
          assert tokens[1..] == [] && r == [first] + [];
          ChangesFirst(tokens, r, first, []);
        } else {
          CountIsChangesPlusExcess(tokens[2..]);
          ChangesTwo(tokens, r, first, REDACTED, Normalize(tokens[2..]).tokens);
        }
      } else if PrivateFlag(first) {
        CountIsChangesPlusExcess(tokens[1..]);
        ChangesFirst(tokens, r, InlineRedaction(first), Normalize(tokens[1..]).tokens);
      } else if first == "-C" && |tokens| > 1 && PrivateFlag(tokens[1]) {
        CountIsChangesPlusExcess(tokens[2..]);
        ChangesTwo(tokens, r, first, REDACTED, Normalize(tokens[2..]).tokens);
      } else {
        CountIsChangesPlusExcess(tokens[1..]);
        ChangesFirst(tokens, r, first, Normalize(tokens[1..]).tokens);
      }
    }
  }

  lemma NothingCounted()
    ensures Count(Normalize([]).redacted) == 0 && Changes([], []) == 0 && Normalize([]).tokens == []
  {
  }

  /** An input without the marker has no excess. */
  lemma {:induction false} NoMarkerNoExcess(tokens: seq<Token>)
    requires forall k :: 0 <= k < |tokens| ==> !EndsRedacted(tokens[k])
    ensures Excess(tokens) == 0
    decreases |tokens|
  {
    hide TakesPrivateValue, PrivateFlag, InlineRedaction, EndsRedacted;
    if tokens != [] {
      MarkerIsPlain();
      RedactionIsStable(tokens[0]);
      NoMarkerNoExcess(tokens[1..]);
      if |tokens| > 1 {
        NoMarkerNoExcess(tokens[2..]);
      }
    }
  }

  /**
   The redaction count exceeds the number of changed tokens by exactly the excess of the input. So the two agree exactly
   on inputs without excess, among them all inputs in which no token ends in the marker.
   */
  lemma RedactionCount(tokens: seq<Token>)
    ensures var count, changed := Count(Normalize(tokens).redacted), Changes(tokens, Normalize(tokens).tokens);
            && count == changed + Excess(tokens)
            && (count == changed <==> Excess(tokens) == 0)
    ensures (forall k :: 0 <= k < |tokens| ==> !EndsRedacted(tokens[k])) ==> Excess(tokens) == 0
  {
    hide Excess, Changes, Normalize, Count, EndsRedacted;
    CountIsChangesPlusExcess(tokens);
    if forall k :: 0 <= k < |tokens| ==> !EndsRedacted(tokens[k]) {
      NoMarkerNoExcess(tokens);
    }
  }

  /** An input whose count is wrong as a number of changes: one redaction is counted, and no token changes. */
  lemma CountedWithoutChange()
    ensures var tokens := ["-L", REDACTED];
            && Normalize(tokens).tokens == tokens
            && Count(Normalize(tokens).redacted) == 1 && Changes(tokens, tokens) == 0 && Excess(tokens) == 1
  {
    hide PrivateFlag, TokenOption, Changes, Normalize, Count;
    var tokens := ["-L", REDACTED];
    assert tokens[2..] == [];
    PrivateOption("-L");
    Unfold(tokens);
    NothingCounted();
    CountIsChangesPlusExcess(tokens);
    assert [REDACTED] + [] == [REDACTED];
  }
}
