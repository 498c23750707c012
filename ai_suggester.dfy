/**
 * The mock inline-suggestion provider and its failure-swallowing wrapper
 * (src/editor/aiSuggester.ts). The provider looks only at the last word
 * before the caret: too short gives no suggestion, one of four known words
 * (in any letter case) gives its canned continuation, anything else gives a
 * fixed filler.
 */
module AiSuggester {
  import opened Text
  import opened Wrappers

  /** What the editor passes to the provider. */
  datatype SuggestionContext = SuggestionContext(textBeforeCursor: string, blockType: Option<string>)

  /** Minimum length of the trimmed text and of the last word. */
  const MinLength: nat := 3

  /** The canned continuations, keyed by lower-cased last word. */
  const Canned: map<string, string> :=
    map["hello" := " world", "intro" := "duction", "exam" := "ple", "write" := " more details"]

  /**
   * The generic filler, exactly as the source file spells it: the three
   * characters U+00E2 U+20AC U+00A6, which is how the UTF-8 bytes of an
   * ellipsis read when decoded as Windows-1252.
   */
  const Fallback: string := "\U{E2}\U{20AC}\U{A6}"

  /** `fetchSuggestionWithProvider`: the mock provider. */
  function FetchSuggestion(ctx: SuggestionContext): (r: string)
    ensures |Trim(ctx.textBeforeCursor)| < MinLength ==> r == ""
    ensures |LastWord(ctx.textBeforeCursor)| < MinLength ==> r == ""
  {
    var text := ctx.textBeforeCursor;
    if text == "" || |Trim(text)| < MinLength then ""
    else
      var lastWord := LastWord(text);
      if |lastWord| < MinLength then ""
      else
        var key := ToLower(lastWord);
        if key in Canned then Canned[key] else Fallback
  }

  /**
   * The provider, stated without the trimmed-length floor: it is decided by
   * the last word alone, so the floor never changes the answer.
   */
  lemma FetchByLastWord(ctx: SuggestionContext)
    ensures var w := LastWord(ctx.textBeforeCursor);
      FetchSuggestion(ctx) ==
        if |w| < MinLength then ""
        else if ToLower(w) in Canned then Canned[ToLower(w)]
        else Fallback
  {
    LastWordWithinTrim(ctx.textBeforeCursor);
  }

  /** No suggestion exactly when the last word is shorter than three characters. */
  lemma FetchEmptyIffShortWord(ctx: SuggestionContext)
    ensures FetchSuggestion(ctx) == "" <==> |LastWord(ctx.textBeforeCursor)| < MinLength
  {
    FetchByLastWord(ctx);
    var w := LastWord(ctx.textBeforeCursor);
    if |w| >= MinLength && ToLower(w) in Canned {
      CannedNonEmpty(ToLower(w));
    }
  }

  /** Every canned continuation is a non-empty string. */
  lemma CannedNonEmpty(key: string)
    requires key in Canned
    ensures Canned[key] != ""
  {
  }

  /** The table lookup ignores letter case. */
  lemma FetchIgnoresCase(a: SuggestionContext, b: SuggestionContext)
    requires ToLower(LastWord(a.textBeforeCursor)) == ToLower(LastWord(b.textBeforeCursor))
    ensures FetchSuggestion(a) == FetchSuggestion(b)
  {
    FetchByLastWord(a);
    FetchByLastWord(b);
    assert |LastWord(a.textBeforeCursor)| == |ToLower(LastWord(a.textBeforeCursor))|;
  }

  /**
   * Neither the block type nor the text before the last word matters: two
   * contexts with the same last word get the same suggestion.
   */
  lemma FetchDependsOnlyOnLastWord(a: SuggestionContext, b: SuggestionContext)
    requires LastWord(a.textBeforeCursor) == LastWord(b.textBeforeCursor)
    ensures FetchSuggestion(a) == FetchSuggestion(b)
  {
    FetchByLastWord(a);
    FetchByLastWord(b);
  }

  /** Whatever precedes a white-space character before a word is ignored. */
  lemma FetchIgnoresPrefix(p: string, c: char, t: string, kind1: Option<string>, kind2: Option<string>)
    requires IsSpace(c) && !AllSpace(t)
    ensures FetchSuggestion(SuggestionContext(p + [c] + t, kind1)) == FetchSuggestion(SuggestionContext(t, kind2))
  {
    LastWordIgnoresPrefix(p, c, t);
    FetchDependsOnlyOnLastWord(SuggestionContext(p + [c] + t, kind1), SuggestionContext(t, kind2));
  }

  /** A last word of known spelling, in any case, gets its canned continuation. */
  lemma FetchCanned(ctx: SuggestionContext)
    requires ToLower(LastWord(ctx.textBeforeCursor)) in Canned
    ensures FetchSuggestion(ctx) == Canned[ToLower(LastWord(ctx.textBeforeCursor))]
  {
    FetchByLastWord(ctx);
    var w := LastWord(ctx.textBeforeCursor);
    assert |ToLower(w)| == |w|;
  }

  /** Any other last word of three or more characters gets the filler. */
  lemma FetchFallback(ctx: SuggestionContext)
    requires |LastWord(ctx.textBeforeCursor)| >= MinLength
    requires ToLower(LastWord(ctx.textBeforeCursor)) !in Canned
    ensures FetchSuggestion(ctx) == Fallback
  {
    FetchByLastWord(ctx);
  }

  /** A known word typed in lower case, alone, gets its continuation. */
  lemma FetchKnownWord(w: string, kind: Option<string>)
    requires w in Canned
    requires forall i :: 0 <= i < |w| ==> 'a' <= w[i] <= 'z'
    ensures FetchSuggestion(SuggestionContext(w, kind)) == Canned[w]
  {
    LowerCaseWord(w);
    LastWordOfWord(w, "");
    assert w + "" == w;
    FetchCanned(SuggestionContext(w, kind));
  }

  /** The worked cases: "hello" continues with " world", "ab" gets nothing. */
  lemma FetchHello()
    ensures FetchSuggestion(SuggestionContext("hello", None)) == " world"
  {
    var w := "hello";
    assert w in Canned && Canned[w] == " world";
    FetchKnownWord(w, None);
  }

  /** A word of lower-case ASCII letters is its own lower-case form. */
  lemma LowerCaseWord(w: string)
    requires w != [] && forall i :: 0 <= i < |w| ==> 'a' <= w[i] <= 'z'
    ensures IsWord(w) && ToLower(w) == w
  {
  }

  lemma SuggestIntro()
    ensures GetSuggestion(SuggestionContext("intro", None)) == "duction"
  {
    var w := "intro";
    assert w in Canned && Canned[w] == "duction";
    FetchKnownWord(w, None);
    GetSuggestionIsMock(SuggestionContext(w, None));
  }

  lemma FetchTooShort(kind: Option<string>)
    ensures FetchSuggestion(SuggestionContext("ab", kind)) == ""
  {
  }

  /** How a provider call ended: a value, `null`/`undefined`, or a thrown error. */
  datatype ProviderOutcome = Resolved(text: string) | ResolvedNothing | Rejected

  /**
   * The `try { return (await provider(ctx)) || "" } catch { return "" }`
   * wrapper around any provider: it always yields a string.
   */
  function GetSuggestionFrom(provider: SuggestionContext -> ProviderOutcome, ctx: SuggestionContext): (r: string)
    ensures provider(ctx).Resolved? ==> r == provider(ctx).text
    ensures !provider(ctx).Resolved? ==> r == ""
  {
    match provider(ctx)
    case Resolved(text) => text
    case ResolvedNothing => ""
    case Rejected => ""
  }

  /** The mock provider as a provider: it never throws. */
  function MockProvider(ctx: SuggestionContext): (r: ProviderOutcome)
    ensures r.Resolved? && r.text == FetchSuggestion(ctx)
  {
    Resolved(FetchSuggestion(ctx))
  }

  /** `getSuggestion`: the wrapper around the mock. */
  function GetSuggestion(ctx: SuggestionContext): (r: string)
    ensures r == FetchSuggestion(ctx)
  {
    GetSuggestionFrom(MockProvider, ctx)
  }

  /** With the mock behind it, the wrapper passes the mock's answer through. */
  lemma GetSuggestionIsMock(ctx: SuggestionContext)
    ensures GetSuggestion(ctx) == FetchSuggestion(ctx)
    ensures GetSuggestion(ctx) == "" <==> |LastWord(ctx.textBeforeCursor)| < MinLength
  {
    FetchEmptyIffShortWord(ctx);
  }
}
