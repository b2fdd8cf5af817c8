/** The two handlers of src/app/api/reading/route.ts. POST validates the
    body, draws a card and an orientation, asks for an interpretation and
    stores the reading; GET reads a stored reading back. What the outside
    world supplies is a parameter: the parsed body, the drawn card, the
    random word, the text-generation service, the database's answers and
    the card catalogue. */
module Handler {
  import opened Wrappers
  import opened Types
  import opened Text
  import opened Seqs
  import opened Cards
  import opened Gemini
  import opened Store
  import opened Request

  /** The result of `request.json()`: a syntax error, `null`, or a value
      whose `category` and `concern` properties are read. Any other JSON
      value (a number, a string, an array) has neither property, which is
      `Object(Absent, Absent)`. */
  datatype ParsedBody = SyntaxError | NullBody | Object(category: BodyField, concern: BodyField)

  /** The `card` part of `ReadingResponse`. */
  datatype CardView = CardView(
    id: string,
    name: string,
    imageUrl: string,
    keywords: seq<string>,
    meaningUpright: string,
    meaningReversed: string)

  datatype ResponseBody =
    | ErrorBody(error: string)
    | ReadingBody(id: string, card: CardView, orientation: Orientation, interpretation: string)

  datatype Response = Response(status: int, body: ResponseBody)

  const MalformedRequestMessage: string := "잘못된 요청 형식입니다."
  const ServerErrorMessage: string := "서버 오류가 발생했습니다. 잠시 후 다시 시도해주세요."
  const IdRequiredMessage: string := "리딩 ID가 필요합니다."
  const CardNotFoundMessage: string := "카드 정보를 찾을 수 없습니다."
  const ReadingNotFoundMessage: string := "리딩을 찾을 수 없습니다."

  /** The fields of a card the response shows. */
  function ViewOf(card: Card): (v: CardView)
    ensures v.id == card.id && v.name == card.name && v.imageUrl == card.imageUrl
    ensures v.keywords == card.keywords
    ensures v.meaningUpright == card.meaningUpright && v.meaningReversed == card.meaningReversed
  {
    CardView(card.id, card.name, card.imageUrl, card.keywords, card.meaningUpright, card.meaningReversed)
  }

  function ErrorResponse(status: int, message: string): Response {
    Response(status, ErrorBody(message))
  }

  /** What POST decides before the database is involved: answer at once,
      or store this reading. */
  datatype Decision = Respond(response: Response) | Save(data: NewReading)

  /** The validation outcome for a parsed body; reading a property of
      `null` throws a `TypeError`. */
  function CheckBody(body: ParsedBody): Validation
    requires !body.SyntaxError?
  {
    if body.NullBody? then TypeError else ValidateRequest(body.category, body.concern)
  }

  /** The part of POST up to the insert. A syntax error in the body is a
      400 with its own message, a failed check a 400 with the check's
      message, a `TypeError` a 500; a failed interpretation is a 429 for
      `RATE_LIMIT` and a 500 otherwise, with the error's message. A
      successful one is saved with the sanitised concern. */
  function Decide(body: ParsedBody, drawn: Card, word: uint32, service: string -> Reply): (d: Decision)
    ensures body.SyntaxError? ==> d == Respond(ErrorResponse(400, MalformedRequestMessage))
    ensures !body.SyntaxError? && CheckBody(body).Rejected? ==>
      d == Respond(ErrorResponse(400, ValidationMessage(CheckBody(body).error)))
    ensures !body.SyntaxError? && CheckBody(body).TypeError? ==> d == Respond(ErrorResponse(500, ServerErrorMessage))
    ensures !body.SyntaxError? && CheckBody(body).Accepted? ==>
      var v := CheckBody(body);
      var o := DrawRandomOrientation(word);
      var concern := SanitizeInput(v.concern);
      var g := GenerateInterpretation(drawn, o, v.category, concern, service);
      && (g.Failure? ==> d == Respond(ErrorResponse(if g.error.code == RateLimit then 429 else 500, g.error.message)))
      && (g.Success? ==> d == Save(NewReading(v.category, concern, drawn.id, o, g.value)))
  {
    if body.SyntaxError? then Respond(ErrorResponse(400, MalformedRequestMessage))
    else
      match CheckBody(body)
      case Rejected(e) => Respond(ErrorResponse(400, ValidationMessage(e)))
      case TypeError => Respond(ErrorResponse(500, ServerErrorMessage))
      case Accepted(category, raw) =>
        var o := DrawRandomOrientation(word);
        var concern := SanitizeInput(raw);
        match GenerateInterpretation(drawn, o, category, concern, service)
        case Failure(g) => Respond(ErrorResponse(if g.code == RateLimit then 429 else 500, g.message))
        case Success(text) => Save(NewReading(category, concern, drawn.id, o, text))
  }

  /** What POST stores: the drawn card, the category the request named, a
      concern with no tag left in it and at most 500 characters, and a
      trimmed interpretation of at least 100 characters. */
  lemma SavedReadingIsClean(body: ParsedBody, drawn: Card, word: uint32, service: string -> Reply)
    requires Decide(body, drawn, word, service).Save?
    ensures var data := Decide(body, drawn, word, service).data;
            && body.Object? && body.category == Str(CategoryName(data.category))
            && data.cardId == drawn.id
            && NoTag(data.concern) && |data.concern| <= MaxConcernLength
            && IsTrimmed(data.interpretation) && |data.interpretation| >= MinInterpretationLength
  {
    ForwardedConcernBounds(body.category, body.concern);
  }

  /** Which early answer POST gives: 400 exactly for a malformed body or a
      failed check; 429 exactly when the service threw an error whose
      message mentions quota or rate; and the reading is saved exactly when
      the checks pass and the service's answer is at least 100 characters
      long once trimmed. */
  lemma DecideStatus(body: ParsedBody, drawn: Card, word: uint32, service: string -> Reply)
    ensures var d := Decide(body, drawn, word, service);
            var valid := !body.SyntaxError? && CheckBody(body).Accepted?;
            var reply := if valid
              then service(CreateInterpretationPrompt(drawn, DrawRandomOrientation(word), CheckBody(body).category,
                                                      SanitizeInput(CheckBody(body).concern)))
              else ThrewNonError;
            && (d.Respond? && d.response.status == 400 <==> body.SyntaxError? || CheckBody(body).Rejected?)
            && (d.Respond? && d.response.status == 429 <==> valid && reply.ThrewError? && MentionsRateLimit(reply.message))
            && (d.Save? <==> valid && reply.Responded? && reply.text.Some?
                             && |Trim(reply.text.value)| >= MinInterpretationLength)
            && (d.Respond? ==> d.response.body.ErrorBody? && d.response.status in {400, 429, 500})
  {
    if !body.SyntaxError? && CheckBody(body).Accepted? {
      var v := CheckBody(body);
      GenerateOutcome(drawn, DrawRandomOrientation(word), v.category, SanitizeInput(v.concern), service);
    }
  }

  /** The 201 response for a stored row and the drawn card. */
  function Created(row: Row, drawn: Card): Response {
    Response(201, ReadingBody(row.id, ViewOf(drawn), row.orientation, row.interpretation))
  }

  /** `POST /api/reading`. Nothing is stored unless the answer is 201, and
      then exactly the decided reading under the id the database assigned.
      A failed insert is a 500. */
  method Post(store: ReadingStore, body: ParsedBody, drawn: Card, word: uint32,
              service: string -> Reply, reply: InsertReply, conflict: string) returns (r: Response)
    requires store.Valid()
    modifies store
    ensures store.Valid()
    ensures r.status == 201 <==> Decide(body, drawn, word, service).Save? && reply.Assigned? && reply.id !in old(store.rows)
    ensures r.status != 201 ==> store.rows == old(store.rows) && r.body.ErrorBody?
    ensures Decide(body, drawn, word, service).Respond? ==> r == Decide(body, drawn, word, service).response
    ensures Decide(body, drawn, word, service).Save? && r.status != 201 ==> r == ErrorResponse(500, ServerErrorMessage)
    ensures r.status == 201 ==>
      var row := RowOf(Decide(body, drawn, word, service).data, reply.id, reply.createdAt);
      && store.rows == old(store.rows)[reply.id := row]
      && r == Created(row, drawn)
  {
    var d := Decide(body, drawn, word, service);
    match d
    case Respond(response) =>
      r := response;
      DecideStatus(body, drawn, word, service);
    case Save(data) =>
      var saved := store.Insert(data, reply, conflict);
      match saved
      case Failure(_) =>
        r := ErrorResponse(500, ServerErrorMessage);
      case Success(row) =>
        r := Created(row, drawn);
  }

  /** `GET /api/reading?id=…`: 400 without an id, 404 when the reading
      cannot be fetched or its card is not in the catalogue, otherwise the
      stored reading with its card. */
  function Get(store: ReadingStore, cards: seq<Card>, id: Option<string>, reachable: bool): (r: Response)
    reads store
    ensures r.status == 400 <==> id.None? || id.value == ""
    ensures r.status == 200 <==>
      id.Some? && id.value != "" && store.Lookup(id.value, reachable).Some?
      && FindCard(cards, store.Lookup(id.value, reachable).value.cardId).Some?
    ensures r.status in {200, 400, 404}
    ensures r.status == 200 ==>
      var row := store.rows[id.value];
      var card := FindCard(cards, row.cardId).value;
      && card in cards && card.id == row.cardId
      && r == Response(200, ReadingBody(row.id, ViewOf(card), row.orientation, row.interpretation))
    ensures r.status != 200 ==> r.body.ErrorBody?
  {
    if id.None? || id.value == "" then ErrorResponse(400, IdRequiredMessage)
    else
      match store.Lookup(id.value, reachable)
      case None => ErrorResponse(404, ReadingNotFoundMessage)
      case Some(row) =>
        match FindCard(cards, row.cardId)
        case None => ErrorResponse(404, CardNotFoundMessage)
        case Some(card) => Response(200, ReadingBody(row.id, ViewOf(card), row.orientation, row.interpretation))
  }

  /** A reading that POST created reads back through GET as the same
      response body, provided the drawn card is in a catalogue whose ids
      are distinct and the database can be reached. */
  lemma GetAfterCreate(store: ReadingStore, cards: seq<Card>, drawn: Card, row: Row)
    requires store.Valid() && row.id in store.rows && store.rows[row.id] == row && row.id != ""
    requires row.cardId == drawn.id && drawn in cards && Distinct(Ids(cards))
    ensures Get(store, cards, Some(row.id), true) == Response(200, Created(row, drawn).body)
  {
    FindCardOfMember(cards, drawn);
  }

  /** A client that posts and then, when the post succeeded, fetches the
      reading it was given: the fetch answers 200 with what the post
      answered, provided the id is not empty. A failed post stores nothing
      and is not followed by a fetch. */
  method PostThenGet(store: ReadingStore, cards: seq<Card>, body: ParsedBody, drawn: Card, word: uint32,
                     service: string -> Reply, reply: InsertReply, conflict: string) returns (posted: Response, fetched: Option<Response>)
    requires store.Valid() && drawn in cards && Distinct(Ids(cards))
    modifies store
    ensures posted.status == 201 ==> posted.body.ReadingBody?
    ensures fetched.Some? <==> posted.status == 201
    ensures posted.status == 201 && posted.body.id != "" ==> fetched == Some(Response(200, posted.body))
    ensures posted.status != 201 ==> store.rows == old(store.rows)
  {
    posted := Post(store, body, drawn, word, service, reply, conflict);
    if posted.status == 201 {
      ghost var row := RowOf(Decide(body, drawn, word, service).data, reply.id, reply.createdAt);
      assert posted == Created(row, drawn);
      var response := Get(store, cards, Some(posted.body.id), true);
      fetched := Some(response);
      if row.id != "" {
        GetAfterCreate(store, cards, drawn, row);
      }
    } else {
      fetched := None;
    }
  }
}
