/** The reply handling of `RAGEngine.analyze_message`: the JSON payload is cut
    out of Markdown code fences with Python `str.split` semantics and handed
    to `json.loads`; any failure there becomes a fixed cautious verdict. */
module ResponseParser {
  import opened Wrappers
  import opened PyStr

  /** The six-field verdict dictionary. */
  datatype Verdict = Verdict(
    riskScore: int,
    riskLevel: string,
    category: string,
    explanation: string,
    sentiment: string,
    recommendedAction: string)

  /** What a successful model call yields: the decoded JSON value exactly as
      `json.loads` returned it (no schema check), or a fixed verdict. */
  datatype Answer<V> = Decoded(value: V) | Fixed(verdict: Verdict)

  const Fence := "```"
  const JsonFence := "```json"

  /** A verdict that does not present the message as harmless. */
  predicate Cautious(v: Verdict) {
    v.riskLevel != "Safe" && v.riskLevel != "Low"
  }

  const ParseErrorLead := "Could not parse AI response. Error: "

  /** The verdict returned when the reply cannot be read or decoded. */
  function ParseErrorVerdict(error: string): (v: Verdict)
    ensures v.riskScore == 50 && v.riskLevel == "Medium" && v.category == "Analysis Error"
    ensures v.sentiment == "Unknown" && v.recommendedAction == "Do not click on link"
    ensures Contains(v.explanation, error)
    ensures Cautious(v)
  {
    OccursInConcat(ParseErrorLead, error, [], error, 0);
    assert ParseErrorLead + error + [] == ParseErrorLead + error;
    ContainsAt(ParseErrorLead + error, error, |ParseErrorLead|);
    Verdict(50, "Medium", "Analysis Error", ParseErrorLead + error, "Unknown", "Do not click on link")
  }

  /** The JSON payload of a model reply: strip the reply; if it contains
      "```json", take the second piece of splitting at "```json", else if it
      contains "```", the second piece of splitting at "```"; in both cases
      keep the first piece of that at "```" and strip it. */
  function ExtractPayload(reply: string): (payload: string)
    ensures Trimmed(payload)
    ensures !Contains(Strip(reply), Fence) ==> payload == Strip(reply)
    ensures Contains(Strip(reply), Fence) ==> !Contains(payload, Fence)
  {
    var text := Strip(reply);
    JsonFenceIsFence(text);
    if Contains(text, JsonFence) then Unfence(Split(text, JsonFence)[1])
    else if Contains(text, Fence) then Unfence(Split(text, Fence)[1])
    else text
  }

  /** Every "```json" starts with a "```". */
  lemma JsonFenceIsFence(s: string)
    ensures Contains(s, JsonFence) ==> Contains(s, Fence)
  {
    if Contains(s, JsonFence) {
      var k := Find(s, JsonFence).value;
      assert s[k..k + 3] == s[k..k + 7][..3];
      ContainsAt(s, Fence, k);
    }
  }

  /** `piece.split("```")[0].strip()`: no fence is left in the result. */
  function Unfence(piece: string): (r: string)
    ensures Trimmed(r) && !Contains(r, Fence)
  {
    var head := Split(piece, Fence)[0];
    StripKeepsAbsence(head, Fence);
    Strip(head)
  }

  /** The text after the first `open` in `s`, up to the next `close` or to the end. */
  function Between(s: string, open: string, close: string): string
    requires Contains(s, open)
  {
    var rest := s[Find(s, open).value + |open|..];
    match Find(rest, close)
    case None => rest
    case Some(j) => rest[..j]
  }

  /** The text after the first `open` in `s`. */
  function After(s: string, open: string): string
    requires Contains(s, open)
  {
    s[Find(s, open).value + |open|..]
  }

  /** After the opening "```json", no later "```json" begins strictly inside
      the first fence: either no "```json" follows, or the first fence ends
      before the next "```json" begins, or it is that "```json"'s own
      opening. The first fence never starts after the next "```json", since
      that marker opens with a fence itself. */
  predicate NoOverlap(rest: string) {
    Contains(rest, JsonFence) ==>
      && Contains(rest, Fence)
      && (|| Find(rest, Fence).value + |Fence| <= Find(rest, JsonFence).value
          || Find(rest, Fence).value == Find(rest, JsonFence).value)
  }

  /** `NoOverlap` fails exactly when the next "```json" begins strictly inside
      the first fence; the first fence never starts after it. */
  lemma OverlapIsInsideFence(rest: string)
    requires Contains(rest, JsonFence)
    ensures Contains(rest, Fence)
    ensures Find(rest, Fence).value <= Find(rest, JsonFence).value
    ensures !NoOverlap(rest) <==>
      Find(rest, Fence).value < Find(rest, JsonFence).value < Find(rest, Fence).value + |Fence|
  {
    var p := Find(rest, JsonFence).value;
    FenceStartsWithBacktick(rest, p);
    ContainsAt(rest, Fence, p);
  }

  /** When a second "```json" follows without overlapping the first fence,
      the piece of `rest` before it, cut at its first fence, is the text up to
      the first fence of `rest`. */
  lemma HeadBeforeSecondJson(rest: string)
    requires Contains(rest, JsonFence) && NoOverlap(rest)
    ensures Find(rest, Fence).value <= Find(rest, JsonFence).value
    ensures Split(rest[..Find(rest, JsonFence).value], Fence)[0] == rest[..Find(rest, Fence).value]
  {
    var p := Find(rest, JsonFence).value;
    var f := Find(rest, Fence).value;
    var head := rest[..p];
    assert |head| == p;
    FenceStartsWithBacktick(rest, p);
    forall k | 0 <= k < f
      ensures !OccursAt(head, Fence, k)
    {
      assert !OccursAt(rest, Fence, k);
      if k + |Fence| <= |head| {
        assert head[k..k + |Fence|] == rest[k..k + |Fence|];
      }
    }
    if f == p {
      forall k | f <= k
        ensures !OccursAt(head, Fence, k)
      {
      }
      SplitHead(head, Fence);
    } else {
      assert head[f..f + |Fence|] == rest[f..f + |Fence|];
      FindFirst(head, Fence, f);
      SplitHead(head, Fence);
      assert head[..f] == rest[..f];
    }
  }

  /** The payload, described by first occurrences instead of splits: after the
      first "```json" up to the next "```" (unless a second "```json" begins
      strictly inside that fence), otherwise between the first two bare fences,
      otherwise the whole stripped reply. */
  lemma PayloadByOccurrence(reply: string)
    ensures var text := Strip(reply);
      && (Contains(text, JsonFence) && NoOverlap(After(text, JsonFence)) ==>
            ExtractPayload(reply) == Strip(Between(text, JsonFence, Fence)))
      && (!Contains(text, JsonFence) && Contains(text, Fence) ==>
            ExtractPayload(reply) == Strip(Between(text, Fence, Fence)))
      && (!Contains(text, Fence) ==> ExtractPayload(reply) == text)
  {
    var text := Strip(reply);
    if Contains(text, JsonFence) {
      var rest := After(text, JsonFence);
      SplitSecond(text, JsonFence);
      SplitHead(rest, JsonFence);
      if !Contains(rest, JsonFence) {
        SplitHead(rest, Fence);
      } else if NoOverlap(rest) {
        HeadBeforeSecondJson(rest);
      }
    } else if Contains(text, Fence) {
      var rest := After(text, Fence);
      SplitSecond(text, Fence);
      SplitHead(rest, Fence);
      var piece := Split(rest, Fence)[0];
      SplitHead(piece, Fence);
    }
  }

  /** Where a fence or a "```json" starts there is a backtick. */
  lemma FenceStartsWithBacktick(s: string, k: int)
    ensures OccursAt(s, Fence, k) ==> s[k] == '`' && s[k + 1] == '`' && s[k + 2] == '`'
    ensures OccursAt(s, JsonFence, k) ==> OccursAt(s, Fence, k) && s[k + 3] == 'j'
  {
    if OccursAt(s, Fence, k) {
      assert s[k..k + 3][0] == s[k] && s[k..k + 3][1] == s[k + 1] && s[k..k + 3][2] == s[k + 2];
    }
    if OccursAt(s, JsonFence, k) {
      assert s[k..k + 3] == s[k..k + 7][..3];
      assert s[k..k + 7][3] == s[k + 3];
    }
  }

  /** A backtick-free text followed by a fence: the first fence is that one,
      and no "```json" occurs. */
  lemma ClosingFence(x: string)
    requires '`' !in x
    ensures Find(x + Fence, Fence) == Some(|x|)
    ensures !Contains(x + Fence, JsonFence)
    ensures Contains(x + Fence, Fence)
  {
    var s := x + Fence;
    assert OccursAt(s, Fence, |x|) by { assert s[|x|..|x| + 3] == Fence; }
    forall k | 0 <= k < |x|
      ensures !OccursAt(s, Fence, k)
    {
      FenceStartsWithBacktick(s, k);
      assert s[k] == x[k];
    }
    FindFirst(s, Fence, |x|);
    forall k | 0 <= k
      ensures !OccursAt(s, JsonFence, k)
    {
      FenceStartsWithBacktick(s, k);
    }
  }

  /** The backticks of `Fence + inner + Fence`, for a backtick-free `inner`,
      are exactly those of the two fences. */
  lemma FencedChars(inner: string)
    requires '`' !in inner
    ensures var r := Fence + inner + Fence;
      forall m :: 0 <= m < |r| ==> (r[m] == '`' <==> m < 3 || m >= 3 + |inner|)
    ensures var r := Fence + inner + Fence;
      forall m :: 3 <= m < 3 + |inner| ==> r[m] == inner[m - 3]
  {
    var r := Fence + inner + Fence;
    forall m | 3 <= m < 3 + |inner|
      ensures r[m] == inner[m - 3]
    {
    }
  }

  /** A "```json" in `Fence + inner + Fence` can only be the opening one. */
  lemma FencedJsonAt(inner: string, k: int)
    requires '`' !in inner
    ensures OccursAt(Fence + inner + Fence, JsonFence, k) ==> k == 0
  {
    var r := Fence + inner + Fence;
    FencedChars(inner);
    FenceStartsWithBacktick(r, k);
  }

  /** The opening fence of `Fence + inner + Fence` reads "```json" exactly when `inner` starts with "json". */
  lemma FencedJsonOpening(inner: string)
    requires '`' !in inner
    ensures OccursAt(Fence + inner + Fence, JsonFence, 0) <==> |inner| >= 4 && inner[..4] == "json"
  {
    var r := Fence + inner + Fence;
    FencedChars(inner);
    assert JsonFence == Fence + "json";
    if |inner| >= 4 {
      assert r[0..7] == Fence + inner[..4];
      if OccursAt(r, JsonFence, 0) {
        assert inner[..4] == r[0..7][3..] == JsonFence[3..];
      }
    } else if 7 <= |r| {
      assert r[..7][3 + |inner|] == '`';
    }
  }

  /** The payload of a reply that is one fenced block around a backtick-free
      `inner`: with a "json" tag the tag is dropped, otherwise `inner` is kept
      whole, language tag included; either way the result is stripped. */
  lemma FencedPayload(inner: string)
    requires '`' !in inner
    ensures |inner| >= 4 && inner[..4] == "json" ==>
      ExtractPayload(Fence + inner + Fence) == Strip(inner[4..])
    ensures !(|inner| >= 4 && inner[..4] == "json") ==>
      ExtractPayload(Fence + inner + Fence) == Strip(inner)
  {
    var r := Fence + inner + Fence;
    assert r[0] == '`' && r[|r| - 1] == '`';
    StripTrimmed(r);
    FencedJsonOpening(inner);
    assert OccursAt(r, Fence, 0);
    FindFirst(r, Fence, 0);
    if |inner| >= 4 && inner[..4] == "json" {
      FindFirst(r, JsonFence, 0);
      var tail := inner[4..];
      assert '`' !in tail by { assert forall m :: 0 <= m < |tail| ==> tail[m] == inner[m + 4]; }
      assert After(r, JsonFence) == tail + Fence;
      ClosingFence(tail);
      assert (tail + Fence)[..|tail|] == tail;
      PayloadByOccurrence(r);
    } else {
      if Contains(r, JsonFence) {
        FencedJsonAt(inner, Find(r, JsonFence).value);
      }
      assert After(r, Fence) == inner + Fence;
      ClosingFence(inner);
      assert (inner + Fence)[..|inner|] == inner;
      PayloadByOccurrence(r);
    }
  }

  /** A tag that does not begin with "json" keeps the tagged block from beginning with it. */
  lemma TagNotJson(tag: string, rest: string)
    requires !(|tag| >= 4 && tag[..4] == "json")
    ensures var inner := tag + "\n" + rest;
      !(|inner| >= 4 && inner[..4] == "json")
  {
    var inner := tag + "\n" + rest;
    if |inner| >= 4 {
      if |tag| < 4 {
        assert inner[..4][|tag|] == '\n';
      } else {
        assert inner[..4] == tag[..4];
      }
    }
  }

  lemma TaggedShape(tag: string, p: string)
    requires '`' !in tag && '`' !in p
    ensures Fence + tag + "\n" + p + "\n" + Fence == Fence + (tag + "\n" + (p + "\n")) + Fence
    ensures tag + "\n" + p + "\n" == tag + "\n" + (p + "\n") == tag + ("\n" + (p + "\n"))
    ensures '`' !in tag + "\n" + (p + "\n")
  {
  }

  /** A reply whose only backticks are an opening fence with language tag `tag`
      and a closing fence: unless the tag begins with "json", the tag is not
      removed but heads the payload. */
  lemma TaggedFence(tag: string, p: string)
    requires '`' !in tag && '`' !in p
    requires !(|tag| >= 4 && tag[..4] == "json")
    ensures ExtractPayload(Fence + tag + "\n" + p + "\n" + Fence) == Strip(tag + "\n" + p + "\n")
    ensures |tag| > 0 && Trimmed(tag) ==>
      var payload := ExtractPayload(Fence + tag + "\n" + p + "\n" + Fence);
      |payload| >= |tag| && payload[..|tag|] == tag
  {
    TaggedShape(tag, p);
    TagNotJson(tag, p + "\n");
    FencedPayload(tag + "\n" + (p + "\n"));
    if |tag| > 0 && Trimmed(tag) {
      StripKeepsHead(tag, "\n" + (p + "\n"));
    }
  }

  lemma JsonShape(p: string)
    ensures JsonFence + "\n" + p + "\n" + Fence == Fence + ("json" + ("\n" + p + "\n")) + Fence
    ensures var inner := "json" + ("\n" + p + "\n");
      inner[..4] == "json" && inner[4..] == "\n" + p + "\n"
    ensures '`' !in p ==> '`' !in "json" + ("\n" + p + "\n")
  {
  }

  /** Fence-wrapping is transparent: for a backtick-free payload `p`, the reply
      "```json\n" + p + "\n```" yields the same payload as `p` alone. */
  lemma JsonFenceTransparent(p: string)
    requires '`' !in p
    ensures ExtractPayload(JsonFence + "\n" + p + "\n" + Fence) == ExtractPayload(p)
  {
    JsonFencedIsStripped(p);
    BareIsStripped(p);
  }

  /** A json-fenced backtick-free payload comes out stripped. */
  lemma JsonFencedIsStripped(p: string)
    requires '`' !in p
    ensures ExtractPayload(JsonFence + "\n" + p + "\n" + Fence) == Strip(p)
  {
    var inner := "json" + ("\n" + p + "\n");
    assert ExtractPayload(JsonFence + "\n" + p + "\n" + Fence) == Strip("\n" + p + "\n") by {
      JsonShape(p);
      FencedPayload(inner);
    }
    assert Strip("\n" + p + "\n") == Strip(p) by {
      assert AllSpace("\n");
      StripPadded("\n", p, "\n");
    }
  }

  /** A reply without backticks is its own stripped text. */
  lemma BareIsStripped(p: string)
    requires '`' !in p
    ensures ExtractPayload(p) == Strip(p)
  {
    NoFenceWithoutBackticks(p);
    StripKeepsAbsence(p, Fence);
    PayloadByOccurrence(p);
  }

  lemma NoFenceWithoutBackticks(p: string)
    requires '`' !in p
    ensures !Contains(p, Fence)
  {
    forall k | 0 <= k
      ensures !OccursAt(p, Fence, k)
    {
      FenceStartsWithBacktick(p, k);
    }
  }

  /** Python's split semantics can differ from "up to the next fence" when a
      second "```json" overlaps the closing fence: in "```json``" + "```json" + q the
      first "```" after the opening "```json" starts at once, so the text up to
      it is empty, yet the payload is two backticks. */
  lemma OverlappingSecondJsonFence(q: string)
    requires '`' !in q && Trimmed(q)
    ensures ExtractPayload(JsonFence + "``" + JsonFence + q) == "``"
    ensures Find(JsonFence + "``" + JsonFence + q, JsonFence) == Some(0)
    ensures Strip(Between(JsonFence + "``" + JsonFence + q, JsonFence, Fence)) == ""
  {
    var text := JsonFence + "``" + JsonFence + q;
    var rest := "``" + JsonFence + q;
    OverlapShape(q);
    StripTrimmed(text);
    FindFirst(text, JsonFence, 0);
    FindFirst(rest, JsonFence, 2);
    SplitSecond(text, JsonFence);
    SplitHead(rest, JsonFence);
    assert rest[..2] == "``";
    assert !OccursAt("``", Fence, 0);
    SplitHead("``", Fence);
    StripTrimmed("``");
    FindFirst(rest, Fence, 0);
    StripTrimmed("");
  }

  lemma OverlapShape(q: string)
    requires '`' !in q && Trimmed(q)
    ensures var text := JsonFence + "``" + JsonFence + q;
      var rest := "``" + JsonFence + q;
      && Trimmed(text)
      && OccursAt(text, JsonFence, 0)
      && After(text, JsonFence) == rest
      && OccursAt(rest, JsonFence, 2)
      && !OccursAt(rest, JsonFence, 0) && !OccursAt(rest, JsonFence, 1)
      && OccursAt(rest, Fence, 0)
  {
    var text := JsonFence + "``" + JsonFence + q;
    var rest := "``" + JsonFence + q;
    assert text[|text| - 1] == if |q| > 0 then q[|q| - 1] else 'n';
    assert text[0..7] == JsonFence;
    FindFirst(text, JsonFence, 0);
    assert text[7..] == rest;
    assert rest[2..9] == JsonFence;
    assert rest[0] == '`' && rest[1] == '`' && rest[2] == '`';
    assert rest[0..3] == [rest[0], rest[1], rest[2]];
    assert rest[3] == '`' && rest[4] == '`';
  }

  /** `response.text` yields the reply text or raises with an error text. */
  type ReplyText = Result<string, string>

  /** The second `try` of `analyze_message`: read the reply, extract the
      payload and decode it with `json.loads` (the `decode` parameter). A
      decoded value is returned unchanged; every failure on the way becomes the
      cautious "Analysis Error" verdict carrying the error text. */
  function Parse<V>(text: ReplyText, decode: string -> Result<V, string>): (a: Answer<V>)
    ensures a.Decoded? <==> text.Success? && decode(ExtractPayload(text.value)).Success?
    ensures a.Decoded? ==> a.value == decode(ExtractPayload(text.value)).value
    ensures text.Failure? ==> a == Fixed(ParseErrorVerdict(text.error))
    ensures text.Success? && decode(ExtractPayload(text.value)).Failure? ==>
      a == Fixed(ParseErrorVerdict(decode(ExtractPayload(text.value)).error))
    ensures a.Fixed? ==> Cautious(a.verdict)
  {
    match text
    case Failure(e) => Fixed(ParseErrorVerdict(e))
    case Success(reply) =>
      match decode(ExtractPayload(reply))
      case Success(v) => Decoded(v)
      case Failure(e) => Fixed(ParseErrorVerdict(e))
  }
}
