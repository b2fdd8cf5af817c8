/** The interpretation generator of src/lib/gemini.ts: the category labels,
    the prompt template, the quality gate on the model's answer and the
    classification of failures into `GeminiError` codes. The call to the
    text-generation service is a parameter: a function from the prompt to
    what the service did (answered with some text, or threw). */
module Gemini {
  import opened Wrappers
  import opened Types
  import opened Text

  /** `CATEGORY_LABELS`: the Korean label of each category used in the prompt. */
  function CategoryLabel(c: Category): string {
    match c
    case Love => "연애"
    case Career => "취업/이직"
    case Relationship => "인간관계"
    case Finance => "재정"
    case Etc => "일상"
  }

  /** The prompt labels agree with the `CATEGORIES` table of the data model
      for every category except `etc`, which the table calls "기타". */
  lemma CategoryLabelsAgreeExceptEtc(c: Category)
    ensures c != Etc ==> CategoryLabel(c) == CATEGORIES[CategoryIndex(c)].labelText
    ensures c == Etc ==> CategoryLabel(c) == "일상" && CATEGORIES[CategoryIndex(c)].labelText == "기타"
  {
  }

  /** The orientation label of the prompt. */
  function OrientationLabel(o: Orientation): string {
    if o == Upright then "정방향" else "역방향"
  }

  /** The meaning the prompt quotes: the one for the drawn orientation. */
  function ChosenMeaning(card: Card, o: Orientation): string {
    if o == Upright then card.meaningUpright else card.meaningReversed
  }

  // The fixed text of the prompt template, between the inserted fields.
  const PromptIntro: string := "당신은 따뜻하고 공감 능력이 뛰어난 타로 상담사입니다.\n\n[뽑힌 카드 정보]\n- 카드: "
  const PromptBeforeOrientation: string := "\n- 방향: "
  const PromptBeforeMeaning: string := "\n- 기본 의미: "
  const PromptBeforeKeywords: string := "\n- 키워드: "
  const PromptBeforeCategory: string := "\n\n[사용자 고민]\n- 분야: "
  const PromptBeforeConcern: string := "\n- 내용: "
  const PromptGuidelines: string :=
    "\n\n[해석 지침]\n"
    + "1. 카드의 기본 의미를 바탕으로 사용자의 구체적인 고민에 맞춤형 해석을 제공하세요.\n"
    + "2. 단정적인 표현(\"~해야 합니다\", \"~입니다\")을 피하고 제안형 표현(\"~해보는 건 어떨까요?\", \"~일 수 있어요\")을 사용하세요.\n"
    + "3. 공감과 위로의 톤을 유지하면서도 실질적인 조언을 담아주세요.\n"
    + "4. 반드시 300자 이상 500자 이하로 작성하세요. 이것은 필수 조건입니다.\n"
    + "5. 불필요한 인사말이나 마무리 인사 없이 바로 해석 내용만 작성하세요.\n\n"
    + "해석:"

  /** The fixed parts of the template, in order. */
  const PromptParts: seq<string> := [
    PromptIntro, PromptBeforeOrientation, PromptBeforeMeaning, PromptBeforeKeywords,
    PromptBeforeCategory, PromptBeforeConcern, PromptGuidelines
  ]

  /** The values the template inserts, in order: card name, orientation
      label, chosen meaning, keywords joined by ", ", category label and
      the concern. */
  function PromptFields(card: Card, o: Orientation, category: Category, concern: string): seq<string> {
    [card.name, OrientationLabel(o), ChosenMeaning(card, o), Join(card.keywords, ", "),
     CategoryLabel(category), concern]
  }

  /** Fixed parts with the fields placed between them, from part `i` on:
      parts[i] + fields[i] + parts[i+1] + ... + fields[n-1] + parts[n]. */
  function InterleaveFrom(parts: seq<string>, fields: seq<string>, i: nat): string
    requires |parts| == |fields| + 1 && i <= |fields|
    decreases |fields| - i
  {
    if i == |fields| then parts[i]
    else parts[i] + fields[i] + InterleaveFrom(parts, fields, i + 1)
  }

  function Interleave(parts: seq<string>, fields: seq<string>): string
    requires |parts| == |fields| + 1
  {
    InterleaveFrom(parts, fields, 0)
  }

  /** The total length of the pieces from part `i` on. */
  function LengthFrom(parts: seq<string>, fields: seq<string>, i: nat): nat
    requires |parts| == |fields| + 1 && i <= |fields|
    decreases |fields| - i
  {
    if i == |fields| then |parts[i]|
    else |parts[i]| + |fields[i]| + LengthFrom(parts, fields, i + 1)
  }

  /** Where field `k` starts in `InterleaveFrom(parts, fields, i)`. */
  function OffsetFrom(parts: seq<string>, fields: seq<string>, i: nat, k: nat): nat
    requires |parts| == |fields| + 1 && i <= k < |fields|
    decreases k - i
  {
    if i == k then |parts[i]|
    else |parts[i]| + |fields[i]| + OffsetFrom(parts, fields, i + 1, k)
  }

  /** Where field `k` starts in `Interleave(parts, fields)`. */
  function FieldOffset(parts: seq<string>, fields: seq<string>, k: nat): nat
    requires |parts| == |fields| + 1 && k < |fields|
  {
    OffsetFrom(parts, fields, 0, k)
  }

  /** `createInterpretationPrompt`: a template literal, that is, the fixed
      parts of the template with the six fields inserted between them. */
  function CreateInterpretationPrompt(card: Card, o: Orientation, category: Category, concern: string): string {
    Interleave(PromptParts, PromptFields(card, o, category, concern))
  }

  /** The length of an interleaving is the sum of its pieces, and the last
      field is followed by the last part up to the end. */
  lemma {:induction false} InterleaveLength(parts: seq<string>, fields: seq<string>, i: nat)
    requires |parts| == |fields| + 1 && i <= |fields|
    ensures |InterleaveFrom(parts, fields, i)| == LengthFrom(parts, fields, i)
    ensures i < |fields| ==>
      OffsetFrom(parts, fields, i, |fields| - 1) + |fields[|fields| - 1]| + |parts[|fields|]| == LengthFrom(parts, fields, i)
    decreases |fields| - i
  {
    if i < |fields| {
      InterleaveLength(parts, fields, i + 1);
    }
  }

  /** An interleaving begins with its first fixed part. */
  lemma InterleaveStartsWithPart(parts: seq<string>, fields: seq<string>, i: nat)
    requires |parts| == |fields| + 1 && i <= |fields|
    ensures |parts[i]| <= |InterleaveFrom(parts, fields, i)|
    ensures InterleaveFrom(parts, fields, i)[..|parts[i]|] == parts[i]
  {
    if i < |fields| {
      var rest := InterleaveFrom(parts, fields, i + 1);
      assert InterleaveFrom(parts, fields, i) == parts[i] + (fields[i] + rest);
    }
  }

  /** A slice after a prefix is the same slice of what follows it. */
  lemma SliceAfterPrefix(head: string, rest: string, a: nat, b: nat)
    requires a <= b <= |rest|
    ensures (head + rest)[|head| + a..|head| + b] == rest[a..b]
  {
    assert forall j :: |head| + a <= j < |head| + b ==> (head + rest)[j] == rest[j - |head|];
  }

  /** A field and a part placed in `rest` keep their places, shifted, in
      `head + rest`. */
  lemma ShiftPlacement(head: string, rest: string, off: nat, field: string, part: string)
    requires off + |field| + |part| <= |rest|
    requires rest[off..off + |field|] == field
    requires rest[off + |field|..off + |field| + |part|] == part
    ensures var s, at := head + rest, |head| + off;
            && at + |field| + |part| <= |s|
            && s[at..at + |field|] == field
            && s[at + |field|..at + |field| + |part|] == part
  {
    SliceAfterPrefix(head, rest, off, off + |field|);
    SliceAfterPrefix(head, rest, off + |field|, off + |field| + |part|);
  }

  /** Field `k` sits right after part `k` when the interleaving starts
      there, and part `k + 1` follows it. */
  lemma InterleaveFirstField(parts: seq<string>, fields: seq<string>, k: nat)
    requires |parts| == |fields| + 1 && k < |fields|
    ensures var s, at := InterleaveFrom(parts, fields, k), |parts[k]|;
            && at + |fields[k]| + |parts[k + 1]| <= |s|
            && s[at..at + |fields[k]|] == fields[k]
            && s[at + |fields[k]|..at + |fields[k]| + |parts[k + 1]|] == parts[k + 1]
  {
    var head := parts[k] + fields[k];
    var rest := InterleaveFrom(parts, fields, k + 1);
    assert InterleaveFrom(parts, fields, k) == head + rest;
    InterleaveStartsWithPart(parts, fields, k + 1);
    SliceAfterPrefix(head, rest, 0, |parts[k + 1]|);
    assert rest[0..|parts[k + 1]|] == parts[k + 1];
  }

  /** Each field of an interleaving sits at its offset and is followed by
      the next fixed part, which ends where the next field starts. */
  lemma {:induction false} InterleavePlacesFields(parts: seq<string>, fields: seq<string>, i: nat, k: nat)
    requires |parts| == |fields| + 1 && i <= k < |fields|
    ensures var s, at := InterleaveFrom(parts, fields, i), OffsetFrom(parts, fields, i, k);
            && at + |fields[k]| + |parts[k + 1]| <= |s|
            && s[at..at + |fields[k]|] == fields[k]
            && s[at + |fields[k]|..at + |fields[k]| + |parts[k + 1]|] == parts[k + 1]
    decreases k - i
  {
    if i == k {
      InterleaveFirstField(parts, fields, k);
    } else {
      var head := parts[i] + fields[i];
      var rest := InterleaveFrom(parts, fields, i + 1);
      assert InterleaveFrom(parts, fields, i) == head + rest;
      InterleavePlacesFields(parts, fields, i + 1, k);
      ShiftPlacement(head, rest, OffsetFrom(parts, fields, i + 1, k), fields[k], parts[k + 1]);
    }
  }

  /** The offset of the next field is past this field and the part after it. */
  lemma {:induction false} OffsetStep(parts: seq<string>, fields: seq<string>, i: nat, k: nat)
    requires |parts| == |fields| + 1 && i <= k && k + 1 < |fields|
    ensures OffsetFrom(parts, fields, i, k + 1) == OffsetFrom(parts, fields, i, k) + |fields[k]| + |parts[k + 1]|
    decreases k - i
  {
    if i < k {
      OffsetStep(parts, fields, i + 1, k);
    }
  }

  /** The layout of an interleaving: its first part opens it, each field
      is followed by the next fixed part, and the last part closes it. */
  lemma InterleaveLayout(parts: seq<string>, fields: seq<string>, k: nat)
    requires |parts| == |fields| + 1 && k < |fields|
    ensures var s, at := Interleave(parts, fields), FieldOffset(parts, fields, k);
            var next := at + |fields[k]| + |parts[k + 1]|;
            && |parts[0]| <= |s| && s[..|parts[0]|] == parts[0]
            && next <= |s|
            && s[at..at + |fields[k]|] == fields[k]
            && s[at + |fields[k]|..next] == parts[k + 1]
            && (k + 1 < |fields| ==> next == FieldOffset(parts, fields, k + 1))
            && (k + 1 == |fields| ==> next == |s|)
  {
    InterleaveStartsWithPart(parts, fields, 0);
    InterleavePlacesFields(parts, fields, 0, k);
    if k + 1 < |fields| {
      OffsetStep(parts, fields, 0, k);
    } else {
      InterleaveLength(parts, fields, 0);
    }
  }

  /** The prompt opens with the fixed introduction; then the card name,
      orientation label, chosen meaning, keywords, category label and
      concern appear in that order, each followed by the fixed template
      text up to the next one, and the guidelines close the prompt. */
  lemma PromptFieldsInOrder(card: Card, o: Orientation, category: Category, concern: string, k: nat)
    requires k < 6
    ensures var prompt := CreateInterpretationPrompt(card, o, category, concern);
            var fields := PromptFields(card, o, category, concern);
            var at := FieldOffset(PromptParts, fields, k);
            var next := at + |fields[k]| + |PromptParts[k + 1]|;
            && |PromptParts[0]| <= |prompt| && prompt[..|PromptParts[0]|] == PromptParts[0]
            && next <= |prompt|
            && prompt[at..at + |fields[k]|] == fields[k]
            && prompt[at + |fields[k]|..next] == PromptParts[k + 1]
            && (k < 5 ==> next == FieldOffset(PromptParts, fields, k + 1))
            && (k == 5 ==> next == |prompt|)
  {
    InterleaveLayout(PromptParts, PromptFields(card, o, category, concern), k);
  }

  /** The prompt tells the model the orientation: drawing the same card the
      other way up changes the prompt. */
  lemma PromptRevealsOrientation(card: Card, category: Category, concern: string)
    ensures CreateInterpretationPrompt(card, Upright, category, concern)
         != CreateInterpretationPrompt(card, Reversed, category, concern)
  {
    var up := PromptFields(card, Upright, category, concern);
    var down := PromptFields(card, Reversed, category, concern);
    PromptFieldsInOrder(card, Upright, category, concern, 1);
    PromptFieldsInOrder(card, Reversed, category, concern, 1);
    var at := FieldOffset(PromptParts, up, 1);
    assert at == FieldOffset(PromptParts, down, 1);
    assert CreateInterpretationPrompt(card, Upright, category, concern)[at] == '정';
    assert CreateInterpretationPrompt(card, Reversed, category, concern)[at] == '역';
  }

  /** `GeminiError.code`. */
  datatype GeminiCode = RateLimit | Timeout | ApiError | Unknown

  /** `GeminiError`: a message and one of the four codes. */
  datatype GeminiError = GeminiError(message: string, code: GeminiCode)

  /** What the text-generation service did with a prompt: answered (its
      `text` may be absent), threw an `Error` with a message, or threw a
      value that is not an `Error`. */
  datatype Reply = Responded(text: Option<string>) | ThrewError(message: string) | ThrewNonError

  /** What reaches the `catch` of `generateInterpretation`: the service's
      `Error`, one of the gate's own `GeminiError`s, or a non-`Error` value. */
  datatype Thrown = PlainError(message: string) | Gemini(error: GeminiError) | NonError

  const EmptyResponseMessage: string := "빈 응답이 반환되었습니다."
  const TooShortMessage: string := "AI 해석이 너무 짧습니다. 다시 시도해주세요."
  const RateLimitMessage: string := "API 요청 한도를 초과했습니다. 잠시 후 다시 시도해주세요."
  const TimeoutMessage: string := "AI 응답 시간이 초과되었습니다. 다시 시도해주세요."
  const ApiErrorPrefix: string := "AI 해석 생성 실패: "
  const UnknownMessage: string := "알 수 없는 오류가 발생했습니다."

  /** The shortest interpretation the gate lets through. */
  const MinInterpretationLength: nat := 100

  /** The quality gate on the service's text: a missing or blank answer and
      an answer shorter than 100 characters after trimming are `API_ERROR`s;
      otherwise the trimmed answer is the interpretation. */
  function QualityGate(text: Option<string>): (r: Result<string, GeminiError>)
    ensures r.Success? <==> text.Some? && |Trim(text.value)| >= MinInterpretationLength
    ensures r.Success? ==> r.value == Trim(text.value)
    ensures r.Success? ==> IsTrimmed(r.value) && |r.value| >= MinInterpretationLength
    ensures r.Failure? ==> r.error.code == ApiError
    ensures r.Failure? ==>
      r.error.message == (if text.None? || |Trim(text.value)| == 0 then EmptyResponseMessage else TooShortMessage)
  {
    if text.None? || |Trim(text.value)| == 0 then
      Failure(GeminiError(EmptyResponseMessage, ApiError))
    else if |Trim(text.value)| < MinInterpretationLength then
      Failure(GeminiError(TooShortMessage, ApiError))
    else
      Success(Trim(text.value))
  }

  /** The message tests of the `catch` block, on the lower-cased message. */
  predicate MentionsRateLimit(message: string) {
    Contains(ToLower(message), "quota") || Contains(ToLower(message), "rate")
  }

  predicate MentionsTimeout(message: string) {
    Contains(ToLower(message), "timeout") || Contains(ToLower(message), "deadline")
  }

  /** The `message` of a thrown `Error`. */
  function ErrorMessage(thrown: Thrown): string
    requires !thrown.NonError?
  {
    if thrown.PlainError? then thrown.message else thrown.error.message
  }

  /** The `catch` block of `generateInterpretation`: the substring tests
      come first, then a `GeminiError` is rethrown as it is, then any other
      `Error` is wrapped as `API_ERROR`; a non-`Error` is `UNKNOWN`. */
  function Classify(thrown: Thrown): (r: GeminiError)
    ensures thrown.NonError? ==> r == GeminiError(UnknownMessage, Unknown)
    ensures !thrown.NonError? && MentionsRateLimit(ErrorMessage(thrown)) ==>
      r == GeminiError(RateLimitMessage, RateLimit)
    ensures !thrown.NonError? && !MentionsRateLimit(ErrorMessage(thrown)) && MentionsTimeout(ErrorMessage(thrown)) ==>
      r == GeminiError(TimeoutMessage, Timeout)
    ensures thrown.Gemini? && !MentionsRateLimit(thrown.error.message) && !MentionsTimeout(thrown.error.message) ==>
      r == thrown.error
    ensures thrown.PlainError? && !MentionsRateLimit(thrown.message) && !MentionsTimeout(thrown.message) ==>
      r == GeminiError(ApiErrorPrefix + thrown.message, ApiError)
    ensures thrown.PlainError? ==> r.code != Unknown
  {
    match thrown
    case NonError => GeminiError(UnknownMessage, Unknown)
    case PlainError(m) =>
      if MentionsRateLimit(m) then GeminiError(RateLimitMessage, RateLimit)
      else if MentionsTimeout(m) then GeminiError(TimeoutMessage, Timeout)
      else GeminiError(ApiErrorPrefix + m, ApiError)
    case Gemini(g) =>
      if MentionsRateLimit(g.message) then GeminiError(RateLimitMessage, RateLimit)
      else if MentionsTimeout(g.message) then GeminiError(TimeoutMessage, Timeout)
      else g
  }

  /** `generateInterpretation`: build the prompt, ask the service, pass the
      answer through the gate, and classify whatever was thrown. */
  function GenerateInterpretation(card: Card, o: Orientation, category: Category, concern: string,
                                  service: string -> Reply): (r: Result<string, GeminiError>)
    ensures r.Success? ==> IsTrimmed(r.value) && |r.value| >= MinInterpretationLength
  {
    match service(CreateInterpretationPrompt(card, o, category, concern))
    case Responded(text) =>
      (match QualityGate(text)
       case Success(t) => Success(t)
       case Failure(g) => Failure(Classify(Gemini(g))))
    case ThrewError(m) => Failure(Classify(PlainError(m)))
    case ThrewNonError => Failure(Classify(NonError))
  }

  /** Lower-casing cannot produce a lower-case ASCII letter whose lower- and
      upper-case forms are both absent. */
  lemma {:induction false} LowerLacks(s: string, c: char)
    requires 'a' <= c <= 'z' && c !in s && (c as int - 32) as char !in s
    ensures c !in ToLower(s)
  {
    var t := ToLower(s);
    forall i | 0 <= i < |t| ensures t[i] != c {
      assert t[i] == LowerChar(s[i]);
    }
  }

  /** A message without the letters q, r, t and d in either case mentions
      neither a rate limit nor a timeout. */
  lemma QuietMessage(m: string)
    requires forall i :: 0 <= i < |m| ==> m[i] !in "qQrRtTdD"
    ensures !MentionsRateLimit(m) && !MentionsTimeout(m)
  {
    var lower := ToLower(m);
    LowerLacks(m, 'q');
    LowerLacks(m, 'r');
    LowerLacks(m, 't');
    LowerLacks(m, 'd');
    ContainsNeedsFirstChar(lower, "quota");
    ContainsNeedsFirstChar(lower, "rate");
    ContainsNeedsFirstChar(lower, "timeout");
    ContainsNeedsFirstChar(lower, "deadline");
  }

  /** Neither of the gate's own messages contains "quota", "rate",
      "timeout" or "deadline", so the gate's errors leave the `catch` block
      unchanged. */
  lemma GateErrorsPassThrough(text: Option<string>)
    requires QualityGate(text).Failure?
    ensures Classify(Gemini(QualityGate(text).error)) == QualityGate(text).error
  {
    if QualityGate(text).error.message == EmptyResponseMessage {
      EmptyResponseMessageIsQuiet();
    } else {
      TooShortMessageIsQuiet();
    }
  }

  lemma EmptyResponseMessageIsQuiet()
    ensures !MentionsRateLimit(EmptyResponseMessage) && !MentionsTimeout(EmptyResponseMessage)
  {
    assert forall i :: 0 <= i < |EmptyResponseMessage| ==> EmptyResponseMessage[i] !in "qQrRtTdD";
    QuietMessage(EmptyResponseMessage);
  }

  lemma TooShortMessageIsQuiet()
    ensures !MentionsRateLimit(TooShortMessage) && !MentionsTimeout(TooShortMessage)
  {
    assert forall i :: 0 <= i < |TooShortMessage| ==> TooShortMessage[i] !in "qQrRtTdD";
    QuietMessage(TooShortMessage);
  }

  /** The outcome of `generateInterpretation` in terms of what the service
      did: success exactly for an answer of at least 100 characters after
      trimming; `RATE_LIMIT` exactly for a thrown message mentioning quota
      or rate; `TIMEOUT` exactly for one mentioning timeout or deadline and
      neither of those; `UNKNOWN` exactly for a thrown non-`Error`; and
      `API_ERROR` for everything else. */
  lemma GenerateOutcome(card: Card, o: Orientation, category: Category, concern: string,
                        service: string -> Reply)
    ensures var reply := service(CreateInterpretationPrompt(card, o, category, concern));
            var r := GenerateInterpretation(card, o, category, concern, service);
            && (r.Success? <==> reply.Responded? && reply.text.Some?
                                && |Trim(reply.text.value)| >= MinInterpretationLength)
            && (r.Success? ==> r.value == Trim(reply.text.value))
            && (r.Failure? && r.error.code == RateLimit <==>
                  reply.ThrewError? && MentionsRateLimit(reply.message))
            && (r.Failure? && r.error.code == Timeout <==>
                  reply.ThrewError? && !MentionsRateLimit(reply.message) && MentionsTimeout(reply.message))
            && (r.Failure? && r.error.code == Unknown <==> reply.ThrewNonError?)
            && (r.Failure? && r.error.code == ApiError <==>
                  (reply.Responded? && QualityGate(reply.text).Failure?)
                  || (reply.ThrewError? && !MentionsRateLimit(reply.message) && !MentionsTimeout(reply.message)))
            && (r.Failure? && r.error.code == RateLimit ==> r.error.message == RateLimitMessage)
            && (r.Failure? && r.error.code == Timeout ==> r.error.message == TimeoutMessage)
            && (r.Failure? && r.error.code == Unknown ==> r.error.message == UnknownMessage)
            && (reply.Responded? && QualityGate(reply.text).Failure? ==> r == QualityGate(reply.text))
            && (reply.ThrewError? && !MentionsRateLimit(reply.message) && !MentionsTimeout(reply.message) ==>
                  r.Failure? && r.error.message == ApiErrorPrefix + reply.message)
  {
    var reply := service(CreateInterpretationPrompt(card, o, category, concern));
    if reply.Responded? && QualityGate(reply.text).Failure? {
      GateErrorsPassThrough(reply.text);
    }
  }

  /** The substring test is a plain substring test that runs before the
      `GeminiError` pass-through: any thrown message that mentions
      "generate" (which contains "rate") is reported as `RATE_LIMIT`. */
  lemma GenerateLooksLikeRateLimit(message: string, i: nat)
    requires i + 8 <= |ToLower(message)| && ToLower(message)[i..i + 8] == "generate"
    ensures Classify(PlainError(message)).code == RateLimit
  {
    var lower := ToLower(message);
    assert lower[i + 4..i + 8] == "rate";
    ContainsAt(lower, "rate", i + 4);
  }
}
