/** `RAGEngine`: construction from the API key, and `analyze_message`, which
    retrieves similar scam patterns, builds the prompt, calls the language
    model and turns its reply (or its failure) into a verdict. */
module RagEngine {
  import opened Wrappers
  import opened PyStr
  import opened KnowledgeBase
  import opened PromptBuilder
  import opened ResponseParser

  /** `generate_content`: it raises with an error text, or returns a response
      whose `.text` may itself raise. */
  datatype ModelReply = Raised(error: string) | Responded(text: ReplyText)

  type Model = string -> ModelReply

  /** A constructed engine: the knowledge base's query and the configured model. */
  datatype Engine = Engine(store: StoreQuery, model: Model)

  const MissingKeyError := "GEMINI_API_KEY missing"

  /** `RAGEngine()`, in the order of its statements: an absent or empty
      `GEMINI_API_KEY` raises `ValueError`; then configuring the client and
      creating the model (`configured`) may raise; then `KnowledgeBase()` opens
      the persistent collection (`persisted`), which may raise, and seeds it.
      The engine queries the seeded collection through `search`. */
  function NewEngine(apiKey: Option<string>, configured: Result<Model, string>,
                     persisted: Result<Collection, string>, add: StoreAdd,
                     search: Collection -> StoreQuery): (r: Result<Engine, string>)
    ensures apiKey.None? || apiKey.value == "" ==> r == Failure(MissingKeyError)
    ensures apiKey.Some? && apiKey.value != "" && configured.Failure? ==> r == Failure(configured.error)
    ensures apiKey.Some? && apiKey.value != "" && configured.Success? && persisted.Failure? ==>
      r == Failure(persisted.error)
    ensures r.Success? <==> apiKey.Some? && apiKey.value != "" && configured.Success? && persisted.Success?
    ensures r.Success? ==>
      r.value.model == configured.value && r.value.store == search(InitializeData(persisted.value, add))
  {
    if apiKey.None? || apiKey.value == "" then Failure(MissingKeyError)
    else
      match configured
      case Failure(e) => Failure(e)
      case Success(model) =>
        match Open(persisted, add)
        case Failure(e) => Failure(e)
        case Success(c) => Success(Engine(search(c), model))
  }

  /** The fixed verdict returned when the model call fails for quota reasons. */
  const QuotaVerdict := Verdict(
    0, "Safe", "Quota Exceeded",
    "Gemini API daily free quota reached. Please wait a few minutes or check your API key limits.",
    "N/A", "Check back later or use a different API key.")

  /** The quota verdict scores the message 0 and calls it safe: it is not cautious. */
  lemma QuotaVerdictReassures()
    ensures QuotaVerdict.riskScore == 0 && QuotaVerdict.riskLevel == "Safe"
    ensures QuotaVerdict.category == "Quota Exceeded" && QuotaVerdict.sentiment == "N/A"
    ensures !Cautious(QuotaVerdict)
  {
  }

  /** `"429" in error_str or "quota" in error_str.lower()`. The test depends
      only on the lower-cased error text, because lower-casing neither creates
      nor destroys "429". */
  predicate IsQuotaError(e: string)
    ensures IsQuotaError(e) <==> Contains(Lower(e), "429") || Contains(Lower(e), "quota")
  {
    LowerKeeps429(e);
    Contains(e, "429") || Contains(Lower(e), "quota")
  }

  /** The prompt sent for a message, given the retrieved patterns. */
  function PromptFor(sender: string, content: string, patterns: seq<Pattern>): (prompt: string)
    ensures Contains(prompt, sender) && Contains(prompt, content)
    ensures forall i :: 0 <= i < |patterns| ==> Contains(prompt, RenderPattern(patterns[i]))
  {
    var context := ContextText(patterns);
    var prompt := BuildPrompt(sender, content, context);
    forall i | 0 <= i < |patterns|
      ensures Contains(prompt, RenderPattern(patterns[i]))
    {
      ContainsTrans(prompt, context, RenderPattern(patterns[i]));
    }
    prompt
  }

  /** `analyze_message`: a `Failure` is an exception propagated to the caller.
      The knowledge base is asked for the `DefaultResults` nearest patterns
      of the content; a failing query propagates. A model call that raises is
      answered with `QuotaVerdict` when the error looks like a quota error and
      propagates otherwise. A model reply is parsed, and parsing never fails. */
  function AnalyzeMessage<V>(engine: Engine, sender: string, content: string, decode: string -> Result<V, string>): (r: Result<Answer<V>, string>)
    ensures Query(engine.store, content, DefaultResults).Failure? ==>
      r == Failure(Query(engine.store, content, DefaultResults).error)
    ensures Query(engine.store, content, DefaultResults).Success? ==>
      var prompt := PromptFor(sender, content, Query(engine.store, content, DefaultResults).value);
      match engine.model(prompt)
      case Raised(e) => r == if IsQuotaError(e) then Success(Fixed(QuotaVerdict)) else Failure(e)
      case Responded(t) => r == Success(Parse(t, decode))
  {
    match Query(engine.store, content, DefaultResults)
    case Failure(e) => Failure(e)
    case Success(patterns) =>
      match engine.model(PromptFor(sender, content, patterns))
      case Raised(e) => if IsQuotaError(e) then Success(Fixed(QuotaVerdict)) else Failure(e)
      case Responded(t) => Success(Parse(t, decode))
  }

  /** Lower-casing leaves digits alone and produces a digit only from that digit. */
  lemma LowerDigits(e: string, k: nat)
    requires k + 3 <= |e|
    ensures OccursAt(e, "429", k) <==> OccursAt(Lower(e), "429", k)
  {
    var l := Lower(e);
    if OccursAt(e, "429", k) {
      assert e[k] == '4' && e[k + 1] == '2' && e[k + 2] == '9' by {
        assert e[k..k + 3][0] == e[k] && e[k..k + 3][1] == e[k + 1] && e[k..k + 3][2] == e[k + 2];
      }
      assert l[k..k + 3] == "429";
    }
    if OccursAt(l, "429", k) {
      assert l[k] == '4' && l[k + 1] == '2' && l[k + 2] == '9' by {
        assert l[k..k + 3][0] == l[k] && l[k..k + 3][1] == l[k + 1] && l[k..k + 3][2] == l[k + 2];
      }
      assert e[k..k + 3] == "429";
    }
  }

  /** "429" occurs in a text exactly when it occurs in the lower-cased text. */
  lemma LowerKeeps429(e: string)
    ensures Contains(e, "429") <==> Contains(Lower(e), "429")
  {
    if Contains(e, "429") {
      var k := Find(e, "429").value;
      LowerDigits(e, k);
      ContainsAt(Lower(e), "429", k);
    }
    if Contains(Lower(e), "429") {
      var k := Find(Lower(e), "429").value;
      LowerDigits(e, k);
      ContainsAt(e, "429", k);
    }
  }

  /** Hence the classification is blind to letter case. */
  lemma QuotaCaseInsensitive(e1: string, e2: string)
    requires Lower(e1) == Lower(e2)
    ensures IsQuotaError(e1) <==> IsQuotaError(e2)
  {
  }

  /** An error text with no '4' and no 'q' of either case is never a quota error. */
  lemma NoQuotaMarks(e: string)
    requires '4' !in e && 'q' !in e && 'Q' !in e
    ensures !IsQuotaError(e)
  {
    forall k | 0 <= k && k + 3 <= |e|
      ensures !OccursAt(e, "429", k)
    {
      assert e[k..k + 3][0] == e[k];
    }
    forall k | 0 <= k && k + 5 <= |e|
      ensures !OccursAt(Lower(e), "quota", k)
    {
      assert Lower(e)[k..k + 5][0] == LowerChar(e[k]);
    }
  }

  /** Any text carrying "429", and any text carrying "QUOTA" in any case, is a quota error. */
  lemma QuotaMarks(pre: string, post: string)
    ensures IsQuotaError(pre + "429" + post)
    ensures IsQuotaError(pre + "QUOTA" + post) && IsQuotaError(pre + "Quota" + post)
  {
    OccursInConcat(pre, "429", post, "429", 0);
    ContainsAt(pre + "429" + post, "429", |pre|);
    UpperQuota(pre, "QUOTA", post);
    UpperQuota(pre, "Quota", post);
  }

  lemma UpperQuota(pre: string, q: string, post: string)
    requires Lower(q) == "quota"
    ensures Contains(Lower(pre + q + post), "quota")
  {
    var s := pre + q + post;
    assert Lower(s)[|pre|..|pre| + 5] == Lower(q);
    ContainsAt(Lower(s), "quota", |pre|);
  }

  /** The quota fallback is the only way `analyze_message` answers with a
      verdict that calls the message harmless: every other fixed verdict is
      cautious, and a decoded reply is not a fixed verdict. */
  lemma OnlyQuotaFallbackIsReassuring<V>(engine: Engine, sender: string, content: string, decode: string -> Result<V, string>)
    requires AnalyzeMessage(engine, sender, content, decode).Success?
    requires AnalyzeMessage(engine, sender, content, decode).value.Fixed?
    ensures !Cautious(AnalyzeMessage(engine, sender, content, decode).value.verdict) ==>
      AnalyzeMessage(engine, sender, content, decode).value.verdict == QuotaVerdict
  {
    var patterns := Query(engine.store, content, DefaultResults).value;
    match engine.model(PromptFor(sender, content, patterns))
    case Raised(e) =>
    case Responded(t) =>
  }
}
