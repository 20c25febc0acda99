/**
  * The judge that scores an answer for relevance, groundedness and clarity:
  * the prompt it fills, the JSON block it looks for in the chat model's
  * reply, and the clamping of each score to an integer from 0 to 10.  The
  * chat model, `JSON.parse` and the parsing of numeric strings are
  * parameters.
  */
module Evaluation {
  import opened Wrappers
  import opened Text
  import opened Js

  /** A JavaScript number after `Number(...)`: finite, or NaN or an infinity. */
  datatype Number = Finite(x: real) | NonFinite

  /** `Math.round`: to the nearest integer, halves upwards. */
  function Round(x: real): int {
    (x + 0.5).Floor
  }

  /** The rounded value is within a half of the number, halves going up. */
  lemma RoundNearest(x: real)
    ensures Round(x) as real - 0.5 <= x < Round(x) as real + 0.5
  {
  }

  /** `clamp` */
  function Clamp(n: Number): (r: int)
    ensures 0 <= r <= 10
  {
    if n.NonFinite? then 0
    else
      var m := Round(n.x);
      if m >= 10 then 10 else if m <= 0 then 0 else m
  }

  /** NaN and the infinities score 0; a finite number scores its nearest
      integer when that is from 0 to 10, and the nearer bound otherwise;
      clamping a score changes nothing. */
  lemma ClampResult(n: Number)
    ensures n.NonFinite? ==> Clamp(n) == 0
    ensures n.Finite? && 0 <= Round(n.x) <= 10 ==> Clamp(n) == Round(n.x)
    ensures n.Finite? && n.x >= 9.5 ==> Clamp(n) == 10
    ensures n.Finite? && n.x < 0.5 ==> Clamp(n) == 0
    ensures Clamp(Finite(Clamp(n) as real)) == Clamp(n)
  {
    RoundNearest(Clamp(n) as real);
    if n.Finite? {
      RoundNearest(n.x);
    }
  }

  /** `Number(value)` for a property read from the parsed reply (`None` for
      `undefined`).  `parseNum` converts a string; an array or object is
      converted through its string form, `composite`. */
  function ToNumber(v: Option<Json>, parseNum: string -> Number, composite: Json -> Number): Number {
    if v.None? then NonFinite
    else match v.value
      case JNull => Finite(0.0)
      case JBool(b) => Finite(if b then 1.0 else 0.0)
      case JNum(n) => Finite(n)
      case JStr(s) => parseNum(s)
      case JArr(_) => composite(v.value)
      case JObj(_) => composite(v.value)
  }

  datatype EvaluationScores = EvaluationScores(relevance: int, groundedness: int, clarity: int)

  const ZeroScores := EvaluationScores(0, 0, 0)

  /** `text.match(/\{[\s\S]*?\}/)`: from the first "{" to the first "}"
      after it. */
  function FirstBlock(text: string): Option<string> {
    match IndexOf(text, '{')
    case None => None
    case Some(i) =>
      match IndexOf(text[i + 1..], '}')
      case None => None
      case Some(j) => Some(text[i..i + j + 2])
  }

  /** `b` occurs in `text` at `i`, runs from a "{" to the nearest "}" after
      it, and no "{" comes before it. */
  predicate BlockAt(text: string, i: nat, b: string) {
    && |b| >= 2 && i + |b| <= |text| && text[i..i + |b|] == b
    && b[0] == '{' && b[|b| - 1] == '}'
    && '}' !in b[1..|b| - 1]
    && '{' !in text[..i]
  }

  /** A block is found exactly when some "{" has a "}" after it; it is then
      the first "{" with the nearest "}" after it, so it holds no other "}"
      and nothing before it is a "{". */
  lemma FirstBlockResult(text: string)
    ensures FirstBlock(text).None? <==> forall i, j :: 0 <= i < j < |text| ==> !(text[i] == '{' && text[j] == '}')
    ensures FirstBlock(text).Some? ==> exists i :: BlockAt(text, i, FirstBlock(text).value)
  {
    if FirstBlock(text).None? {
      FirstBlockNone(text);
    } else {
      var i := IndexOf(text, '{').value;
      var j := IndexOf(text[i + 1..], '}').value;
      var b := text[i..i + j + 2];
      assert FirstBlock(text) == Some(b);
      BlockFacts(text, i, j);
      assert text[i + |b| - 1] == text[i..i + |b|][|b| - 1];
    }
  }

  lemma FirstBlockNone(text: string)
    requires FirstBlock(text).None?
    ensures forall i, j :: 0 <= i < j < |text| ==> !(text[i] == '{' && text[j] == '}')
  {
    match IndexOf(text, '{')
    case None =>
      assert forall a :: 0 <= a < |text| ==> text[a] in text;
    case Some(i) =>
      var rest := text[i + 1..];
      assert forall a :: 0 <= a < i ==> text[a] == text[..i][a];
      assert forall b :: i < b < |text| ==> text[b] == rest[b - i - 1];
  }

  lemma BlockFacts(text: string, i: nat, j: nat)
    requires i < |text| && text[i] == '{' && '{' !in text[..i]
    requires j < |text| - i - 1 && text[i + 1..][j] == '}' && '}' !in text[i + 1..][..j]
    ensures BlockAt(text, i, text[i..i + j + 2])
  {
    var b := text[i..i + j + 2];
    var inner := b[1..|b| - 1];
    assert |inner| == j;
    assert forall k :: 0 <= k < j ==> inner[k] == text[i + 1 + k] == text[i + 1..][..j][k];
    assert inner == text[i + 1..][..j];
  }

  /** The first position where `pat` occurs in `s` (`s.indexOf(pat)`). */
  function IndexOfSub(s: string, pat: string): Option<nat>
    decreases |s|
  {
    if StartsWith(s, pat) then Some(0)
    else if s == [] then None
    else match IndexOfSub(s[1..], pat)
      case None => None
      case Some(k) => Some(k + 1)
  }

  /** A position found is an occurrence. */
  lemma {:induction false} IndexOfSubFound(s: string, pat: string)
    requires IndexOfSub(s, pat).Some?
    ensures var k := IndexOfSub(s, pat).value; k + |pat| <= |s| && s[k..k + |pat|] == pat
    decreases |s|
  {
    if !StartsWith(s, pat) {
      IndexOfSubFound(s[1..], pat);
      var k := IndexOfSub(s[1..], pat).value;
      assert s[k + 1..k + 1 + |pat|] == s[1..][k..k + |pat|];
    }
  }

  /** `s.replace(pat, rep)` with a string pattern: the first occurrence only. */
  function ReplaceFirst(s: string, pat: string, rep: string): string {
    match IndexOfSub(s, pat)
    case None => s
    case Some(k) => if k + |pat| <= |s| then s[..k] + rep + s[k + |pat|..] else s
  }

  /** A placeholder that starts with "{" is found right after a stretch
      without "{". */
  lemma {:induction false} FindAfterNoBrace(a: string, pat: string, b: string)
    requires pat != [] && pat[0] == '{' && '{' !in a
    ensures IndexOfSub(a + pat + b, pat) == Some(|a|)
    decreases |a|
  {
    var s := a + pat + b;
    if a == [] {
      assert s[..|pat|] == pat;
    } else {
      assert s[0] != '{';
      assert s[1..] == a[1..] + pat + b;
      FindAfterNoBrace(a[1..], pat, b);
    }
  }

  /** Replacing such a placeholder puts the replacement in its place. */
  lemma ReplaceAfterNoBrace(a: string, pat: string, b: string, rep: string)
    requires pat != [] && pat[0] == '{' && '{' !in a
    ensures ReplaceFirst(a + pat + b, pat, rep) == a + rep + b
  {
    FindAfterNoBrace(a, pat, b);
    var s := a + pat + b;
    assert s[..|a|] == a && s[|a| + |pat|..] == b;
  }

  /** A replacement leaves a prefix without "{" alone. */
  lemma ReplaceKeepsPrefix(s: string, pat: string, rep: string, k: nat)
    requires pat != [] && pat[0] == '{' && k <= |s| && '{' !in s[..k]
    ensures |ReplaceFirst(s, pat, rep)| >= k && ReplaceFirst(s, pat, rep)[..k] == s[..k]
  {
    if IndexOfSub(s, pat).Some? {
      IndexOfSubFound(s, pat);
      var i := IndexOfSub(s, pat).value;
      assert s[i] == pat[0];
    }
  }

  /** The prompt, cut at its three placeholders. */
  const PromptHead1 := "You are an evaluation judge. "
  const PromptHead2 := "Score the following AI-generated "
  const PromptHead3 := "answer on three dimensions.\n\nQuestion: "
  const PromptHead := PromptHead1 + PromptHead2 + PromptHead3
  const PromptMid1 := "\n\nAnswer: "
  const PromptMid2 := "\n\nContext retrieved from the transcript:\n"
  const PromptTail := "\n\nScore each dimension from 0 to 10:\n"
    + "- relevance: Does the answer address the question asked? (0 = completely off-topic, 10 = perfectly addresses the question)\n"
    + "- groundedness: Is the answer supported by the provided context? (0 = fabricated, 10 = fully grounded in context)\n"
    + "- clarity: Is the answer clear, well-structured, and easy to understand? (0 = incomprehensible, 10 = perfectly clear)\n\n"
    + "Respond ONLY with valid JSON in this exact format, no extra text:\n"
    + "{\"relevance\": <number>, \"groundedness\": <number>, \"clarity\": <number>}"

  /** `EVALUATION_PROMPT` */
  const EvaluationPrompt := PromptHead + "{question}" + PromptMid1 + "{answer}" + PromptMid2 + "{context}" + PromptTail

  const ContextMaxLen := 8000

  /** The context as the prompt quotes it: its first 8000 characters. */
  function ContextCut(context: string): string {
    if |context| > ContextMaxLen then context[..ContextMaxLen] else context
  }

  /** The prompt as the source fills it: three `replace` calls in a row,
      each on the output of the one before. */
  function FilledAsWritten(question: string, answer: string, context: string): string {
    ReplaceFirst(ReplaceFirst(ReplaceFirst(EvaluationPrompt, "{question}", question), "{answer}", answer), "{context}", ContextCut(context))
  }

  /** The prompt with each placeholder of the template replaced by its value. */
  function Filled(question: string, answer: string, context: string): string {
    PromptHead + question + PromptMid1 + answer + PromptMid2 + ContextCut(context) + PromptTail
  }

  lemma NoBraceInHead1() ensures '{' !in PromptHead1 {}
  lemma NoBraceInHead2() ensures '{' !in PromptHead2 {}
  lemma NoBraceInHead3() ensures '{' !in PromptHead3 {}
  lemma NoBraceInMid2() ensures '{' !in PromptMid2 {}

  /** The text before the context placeholder holds no "{" of its own. */
  lemma NoBraceInPieces()
    ensures '{' !in PromptHead && '{' !in PromptMid1 && '{' !in PromptMid2
  {
    NoBraceInHead1();
    NoBraceInHead2();
    NoBraceInHead3();
    NoBraceInMid2();
  }

  /** Three replacements on any template laid out like the prompt. */
  lemma FillLayout(h: string, m1: string, m2: string, t: string, q: string, a: string, c: string)
    requires '{' !in h && '{' !in m1 && '{' !in m2 && '{' !in q && '{' !in a
    ensures ReplaceFirst(ReplaceFirst(ReplaceFirst(h + "{question}" + m1 + "{answer}" + m2 + "{context}" + t,
              "{question}", q), "{answer}", a), "{context}", c)
         == h + q + m1 + a + m2 + c + t
  {
    var tail2 := m2 + "{context}" + t;
    var tail1 := m1 + "{answer}" + tail2;
    assert h + "{question}" + m1 + "{answer}" + m2 + "{context}" + t == h + "{question}" + tail1;
    ReplaceAfterNoBrace(h, "{question}", tail1, q);
    var a1 := h + q + m1;
    assert h + q + tail1 == a1 + "{answer}" + tail2;
    ReplaceAfterNoBrace(a1, "{answer}", tail2, a);
    var a2 := a1 + a + m2;
    assert a1 + a + tail2 == a2 + "{context}" + t;
    ReplaceAfterNoBrace(a2, "{context}", t, c);
  }

  /** When neither the question nor the answer holds a "{", the three
      replacements fill the three placeholders. */
  lemma FilledAgrees(question: string, answer: string, context: string)
    requires '{' !in question && '{' !in answer
    ensures FilledAsWritten(question, answer, context) == Filled(question, answer, context)
  {
    NoBraceInPieces();
    FillLayout(PromptHead, PromptMid1, PromptMid2, PromptTail, question, answer, ContextCut(context));
  }

  /** On any such template, a question "{answer}" takes the answer, so the
      character after the head is the answer's and not the question's. */
  lemma PlaceholderLayout(h: string, m1: string, m2: string, t: string, c: string)
    requires '{' !in h
    ensures var s := ReplaceFirst(ReplaceFirst(ReplaceFirst(h + "{question}" + m1 + "{answer}" + m2 + "{context}" + t,
              "{question}", "{answer}"), "{answer}", "A"), "{context}", c);
      |s| > |h| && s[|h|] == 'A'
    ensures (h + "{answer}" + m1 + "A" + m2 + c + t)[|h|] == '{'
  {
    var tail1 := m1 + "{answer}" + m2 + "{context}" + t;
    assert h + "{question}" + m1 + "{answer}" + m2 + "{context}" + t == h + "{question}" + tail1;
    ReplaceAfterNoBrace(h, "{question}", tail1, "{answer}");
    ReplaceAfterNoBrace(h, "{answer}", tail1, "A");
    var s2 := h + "A" + tail1;
    var k := |h| + 1;
    assert s2[..k] == h + "A";
    ReplaceKeepsPrefix(s2, "{context}", c, k);
    assert ReplaceFirst(s2, "{context}", c)[..k][k - 1] == 'A';
    assert h + "{answer}" + m1 + "A" + m2 + c + t == h + ("{answer}" + m1 + "A" + m2 + c + t);
  }

  /** A question that contains "{answer}" receives the answer in its place,
      and the prompt no longer matches the template. */
  lemma PlaceholderInQuestion(context: string)
    ensures FilledAsWritten("{answer}", "A", context) != Filled("{answer}", "A", context)
  {
    NoBraceInPieces();
    PlaceholderLayout(PromptHead, PromptMid1, PromptMid2, PromptTail, ContextCut(context));
  }

  /** The chat model's reply to a prompt, as text, or the error it throws. */
  type Judge = string -> Result<string, JsError>

  /** The scores of a parsed block. */
  function ScoresOf(parsed: Json, parseNum: string -> Number, composite: Json -> Number): EvaluationScores {
    EvaluationScores(
      Clamp(ToNumber(Field(parsed, "relevance"), parseNum, composite)),
      Clamp(ToNumber(Field(parsed, "groundedness"), parseNum, composite)),
      Clamp(ToNumber(Field(parsed, "clarity"), parseNum, composite)))
  }

  /** What the judge's reply scores: any failure on the way, including
      reading a property of a parsed `null`, gives zero scores. */
  function Judged(reply: Result<string, JsError>,
    parseJson: string -> Result<Json, JsError>, parseNum: string -> Number, composite: Json -> Number): EvaluationScores
  {
    if reply.Failure? then ZeroScores
    else match FirstBlock(reply.value)
      case None => ZeroScores
      case Some(block) =>
        var parsed := parseJson(block);
        if parsed.Failure? || parsed.value.JNull? then ZeroScores
        else ScoresOf(parsed.value, parseNum, composite)
  }

  /** `evaluateAnswer` as written: the judge is shown the prompt filled by
      the three chained replacements. */
  function EvaluateAnswer(
    question: string, answer: string, context: string, judge: Judge,
    parseJson: string -> Result<Json, JsError>, parseNum: string -> Number, composite: Json -> Number): EvaluationScores
  {
    Judged(judge(FilledAsWritten(question, answer, context)), parseJson, parseNum, composite)
  }

  /** `evaluateAnswer` as intended: the judge is shown the template with
      each placeholder replaced by its own value. */
  function EvaluateAnswerIntended(
    question: string, answer: string, context: string, judge: Judge,
    parseJson: string -> Result<Json, JsError>, parseNum: string -> Number, composite: Json -> Number): EvaluationScores
  {
    Judged(judge(Filled(question, answer, context)), parseJson, parseNum, composite)
  }

  /** Every score is an integer from 0 to 10; a failed call, a reply
      without a block, a block that does not parse, or a parsed `null` give
      all zeros; otherwise each score is the clamped number of its field. */
  lemma JudgedResult(reply: Result<string, JsError>,
    parseJson: string -> Result<Json, JsError>, parseNum: string -> Number, composite: Json -> Number)
    ensures var s := Judged(reply, parseJson, parseNum, composite);
      0 <= s.relevance <= 10 && 0 <= s.groundedness <= 10 && 0 <= s.clarity <= 10
    ensures (reply.Failure? || FirstBlock(reply.value).None?
      || parseJson(FirstBlock(reply.value).value).Failure? || parseJson(FirstBlock(reply.value).value).value.JNull?) ==>
      Judged(reply, parseJson, parseNum, composite) == ZeroScores
    ensures (reply.Success? && FirstBlock(reply.value).Some? && parseJson(FirstBlock(reply.value).value).Success?
      && parseJson(FirstBlock(reply.value).value).value.JObj?) ==>
      var fields := parseJson(FirstBlock(reply.value).value).value.fields;
      var s := Judged(reply, parseJson, parseNum, composite);
      && s.relevance == Clamp(ToNumber(Get(fields, "relevance"), parseNum, composite))
      && s.groundedness == Clamp(ToNumber(Get(fields, "groundedness"), parseNum, composite))
      && s.clarity == Clamp(ToNumber(Get(fields, "clarity"), parseNum, composite))
  {
  }

  /** `evaluateAnswer` scores the judge's reply to the prompt as the source
      fills it: every score is from 0 to 10, any failure gives zeros, and a
      parsed object gives each field's clamped number. */
  lemma EvaluateAnswerResult(
    question: string, answer: string, context: string, judge: Judge,
    parseJson: string -> Result<Json, JsError>, parseNum: string -> Number, composite: Json -> Number)
    ensures var s := EvaluateAnswer(question, answer, context, judge, parseJson, parseNum, composite);
      0 <= s.relevance <= 10 && 0 <= s.groundedness <= 10 && 0 <= s.clarity <= 10
    ensures var reply := judge(FilledAsWritten(question, answer, context));
      reply.Failure? || FirstBlock(reply.value).None?
      || parseJson(FirstBlock(reply.value).value).Failure? || parseJson(FirstBlock(reply.value).value).value.JNull? ==>
      EvaluateAnswer(question, answer, context, judge, parseJson, parseNum, composite) == ZeroScores
    ensures var reply := judge(FilledAsWritten(question, answer, context));
      reply.Success? && FirstBlock(reply.value).Some? && parseJson(FirstBlock(reply.value).value).Success?
      && parseJson(FirstBlock(reply.value).value).value.JObj? ==>
      var fields := parseJson(FirstBlock(reply.value).value).value.fields;
      var s := EvaluateAnswer(question, answer, context, judge, parseJson, parseNum, composite);
      && s.relevance == Clamp(ToNumber(Get(fields, "relevance"), parseNum, composite))
      && s.groundedness == Clamp(ToNumber(Get(fields, "groundedness"), parseNum, composite))
      && s.clarity == Clamp(ToNumber(Get(fields, "clarity"), parseNum, composite))
  {
    JudgedResult(judge(FilledAsWritten(question, answer, context)), parseJson, parseNum, composite);
  }

  /** When neither the question nor the answer holds a "{", the source
      scores exactly what the intended evaluation scores. */
  lemma EvaluateAnswerAgrees(
    question: string, answer: string, context: string, judge: Judge,
    parseJson: string -> Result<Json, JsError>, parseNum: string -> Number, composite: Json -> Number)
    requires '{' !in question && '{' !in answer
    ensures EvaluateAnswer(question, answer, context, judge, parseJson, parseNum, composite)
         == EvaluateAnswerIntended(question, answer, context, judge, parseJson, parseNum, composite)
  {
    FilledAgrees(question, answer, context);
  }

  /** The judge is shown at most the first 8000 characters of the context. */
  lemma ContextCutResult(context: string)
    ensures |ContextCut(context)| <= ContextMaxLen
    ensures StartsWith(context, ContextCut(context))
    ensures |context| <= ContextMaxLen ==> ContextCut(context) == context
  {
  }
}
