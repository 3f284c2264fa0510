/** The prompt of `RAGEngine.analyze_message`: the retrieved patterns
    rendered as bullet lines, spliced with the sender and the message content
    into a fixed instruction template. */
module PromptBuilder {
  import opened PyStr
  import opened KnowledgeBase

  /** One retrieved pattern as a bullet line: `- {content} (Category: {category})`.
      The line carries the content and the category verbatim, and breaks no
      line unless a field does. */
  function RenderPattern(p: Pattern): (line: string)
    ensures |line| >= 2 && line[..2] == "- "
    ensures Contains(line, p.content) && Contains(line, p.metadata.category)
    ensures SingleLine(p) ==> '\n' !in line
  {
    var lead := "- " + p.content + " (Category: ";
    var line := lead + p.metadata.category + ")";
    assert OccursAt(line, p.content, 2) by {
      assert line[2..2 + |p.content|] == p.content;
    }
    assert OccursAt(line, p.metadata.category, |lead|) by {
      assert line[|lead|..|lead| + |p.metadata.category|] == p.metadata.category;
    }
    ContainsAt(line, p.content, 2);
    ContainsAt(line, p.metadata.category, |lead|);
    line
  }

  function RenderAll(ps: seq<Pattern>): (lines: seq<string>)
    ensures |lines| == |ps|
    ensures forall i :: 0 <= i < |ps| ==> lines[i] == RenderPattern(ps[i])
  {
    seq(|ps|, i requires 0 <= i < |ps| => RenderPattern(ps[i]))
  }

  /** `"\n".join(...)` of the bullet lines: empty without patterns, and
      carrying every pattern's bullet line otherwise. */
  function ContextText(ps: seq<Pattern>): (context: string)
    ensures |ps| == 0 ==> context == ""
    ensures forall i :: 0 <= i < |ps| ==> Contains(context, RenderPattern(ps[i]))
  {
    var lines := RenderAll(ps);
    JoinContainsParts(lines, "\n");
    assert forall i :: 0 <= i < |ps| ==> lines[i] == RenderPattern(ps[i]);
    Join(lines, "\n")
  }

  /** No pattern field breaks a line. */
  predicate SingleLine(p: Pattern) {
    '\n' !in p.content && '\n' !in p.metadata.category
  }

  lemma NewlineOccurrence(s: string)
    ensures Contains(s, "\n") ==> '\n' in s
  {
    if Contains(s, "\n") {
      var k := Find(s, "\n").value;
      assert s[k..k + 1][0] == s[k];
    }
  }

  /** Without retrieved patterns the context is empty; otherwise, splitting the
      context at newlines gives back exactly one bullet line per pattern, in
      retrieval order (provided no pattern field contains a newline). */
  lemma ContextLines(ps: seq<Pattern>)
    requires forall i :: 0 <= i < |ps| ==> SingleLine(ps[i])
    ensures |ps| == 0 ==> ContextText(ps) == ""
    ensures |ps| > 0 ==> Split(ContextText(ps), "\n") == RenderAll(ps)
  {
    var lines := RenderAll(ps);
    forall k | 0 <= k < |lines|
      ensures !Contains(lines[k], "\n")
    {
      NewlineOccurrence(lines[k]);
    }
    if |ps| > 0 {
      SplitJoin(lines, "\n");
    }
  }

  /** The fixed framing sentence that opens the prompt. */
  const Framing := "You are an expert cybersecurity analyst."

  /** The line break and indentation that open the f-string, before the framing. */
  const PreambleLead := "\n        "

  const Checklist :=
    "\n"
    + "        \n"
    + "        --- STEP 1: VERIFICATION (INTERNAL) ---\n"
    + "        Verify the sender domain and message content using your internal knowledge base:\n"
    + "        1. Check if the sender domain MATCHES the official company website (e.g. glassdoor.com sending for Glassdoor).\n"
    + "        2. Analyze if the message is a standard marketing/notification email (Unsubscribe link, no urgent threats).\n"
    + "        3. Recall if this specific sender/domain is a known legit source.\n"
    + "\n"
    + "        --- STEP 2: ANALYZE ---\n"
    + "        Determine the risk based on the verification above.\n"
    + "\n"
    + "        --- SENDER ---\n"
    + "        "

  const MessageHeading := "\n\n        --- MESSAGE CONTENT ---\n        "

  const ContextHeading := "\n\n        --- CONTEXT (Known Scam Patterns) ---\n        "

  const OutputRules :=
    "\n"
    + "\n"
    + "        --- OUTPUT RULES ---\n"
    + "        - FIRST LINE: Must be the Scam Type OR \"Legitimate Notification\" / \"Marketing Email\" / \"Conversational Message\".\n"
    + "            - **CRITICAL**: If Risk is LOW, the Type MUST be \"Legitimate\", \"Marketing\", \"Newsletter\", or \"Conversational Message\".\n"
    + "        - MAX LENGTH: 7 lines, 60 words.\n"
    + "        - RECOMMENDED ACTION: \n"
    + "            - If Risk is HIGH/MEDIUM: Choose \"Report\", \"Block\", \"Ignore\", or \"Do not click on link\".\n"
    + "            - If Risk is LOW: Use \"No Action Needed\".\n"
    + "        \n"

  const HighText := "%): Verified scam, impersonation, credential phishing.\n"
  const HighLead := "        - HIGH ("
  const MediumText := "%): Suspicious but unverified, emotional manipulation, unsolicited offers.\n"
  const MediumLead := "        - MEDIUM ("
  const LowText := "%): Verified Legitimate sender, Marketing emails from reputable companies, or Casual/Conversational messages (e.g., \"Hello\", \"How are you?\") with no malicious intent.\n"
  const LowLead := "        - LOW ("

  const HighBounds := "85-100"
  const MediumBounds := "25-84"
  const LowBounds := "0-24"

  const RiskTiersHeading := "        --- RISK TIERS ---\n"

  const JsonFormat :=
    "\n"
    + "        Follow this JSON format exactly:\n"
    + "        {\n"
    + "            \"risk_score\": int,\n"
    + "            \"risk_level\": \"High\" | \"Medium\" | \"Low\",\n"
    + "            \"category\": \"string\",\n"
    + "            \"explanation\": \"string\",\n"
    + "            \"sentiment\": \"string\",\n"
    + "            \"recommended_action\": \"string\"\n"
    + "        }\n"
    + "        "

  /** The template's fixed pieces in order, with the sender, the content and
      the context at indices 3, 5 and 7. */
  function Fragments(sender: string, content: string, context: string): (frags: seq<string>)
    ensures |frags| == 20
  {
    [ PreambleLead, Framing, Checklist,
      sender, MessageHeading, content, ContextHeading, context,
      OutputRules, RiskTiersHeading,
      HighLead, HighBounds, HighText,
      MediumLead, MediumBounds, MediumText,
      LowLead, LowBounds, LowText,
      JsonFormat ]
  }

  /** The f-string of `analyze_message`, with the sender, the content and the
      context spliced in. The prompt carries the analyst framing, the three
      spliced fields verbatim, and the score bounds of the three risk tiers. */
  function BuildPrompt(sender: string, content: string, context: string): (prompt: string)
    ensures Contains(prompt, Framing)
    ensures Contains(prompt, sender) && Contains(prompt, content) && Contains(prompt, context)
    ensures Contains(prompt, HighBounds) && Contains(prompt, MediumBounds) && Contains(prompt, LowBounds)
  {
    var frags := Fragments(sender, content, context);
    var prompt := Concat(frags);
    FragmentIn(frags, 1);
    FragmentIn(frags, 3);
    FragmentIn(frags, 5);
    FragmentIn(frags, 7);
    FragmentIn(frags, 11);
    FragmentIn(frags, 14);
    FragmentIn(frags, 17);
    prompt
  }

  /** The concatenation of `frags`, in order. */
  function Concat(frags: seq<string>): string {
    if |frags| == 0 then "" else frags[0] + Concat(frags[1..])
  }

  /** Where fragment `k` begins in `Concat(frags)`. */
  function Offset(frags: seq<string>, k: nat): nat
    requires k <= |frags|
  {
    if k == 0 then 0 else |frags[0]| + Offset(frags[1..], k - 1)
  }

  /** Every fragment occurs in the concatenation at its offset. */
  lemma {:induction false} FragmentAt(frags: seq<string>, k: nat)
    requires k < |frags|
    ensures OccursAt(Concat(frags), frags[k], Offset(frags, k))
    decreases k
  {
    var rest := Concat(frags[1..]);
    if k == 0 {
      assert (frags[0] + rest)[..|frags[0]|] == frags[0];
    } else {
      FragmentAt(frags[1..], k - 1);
      OccursInConcat(frags[0], rest, [], frags[k], Offset(frags[1..], k - 1));
      assert frags[0] + rest + [] == frags[0] + rest;
    }
  }

  lemma FragmentIn(frags: seq<string>, k: nat)
    requires k < |frags|
    ensures Contains(Concat(frags), frags[k])
  {
    FragmentAt(frags, k);
    ContainsAt(Concat(frags), frags[k], Offset(frags, k));
  }
}
