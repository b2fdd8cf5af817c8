# Tarot reading pipeline (tarogak) in Dafny

This project models the server side of tarogak, a tarot-reading web app.
A client posts a category and a concern to `/api/reading`. The handler
validates and sanitises the request. It then draws a card and an
orientation, and asks a text-generation service (Gemini) for an
interpretation. That answer must pass a quality gate, and failures are
classified into four error codes. The reading is stored in a `readings`
table and echoed back. A GET on the same route reads a stored reading
back. The project also models the catalogue checker script, which counts
structural errors in the card list and sets the exit code, and the shared
data model (enumerations, card and reading records, the category table).

Modules, one concern each:

- `Wrappers`: `Option` and `Result`.
- `Text`: the JavaScript string operations the code relies on: `trim`,
  `toLowerCase`, `includes`, `startsWith`, `join`.
- `Seqs`: `filter`, `indexOf` and the element set behind `new Set(…)`.
- `Types`: src/types/index.ts.
- `Cards`: the catalogue queries the code calls (`getMajorArcana`,
  `getMinorArcana`, `getCardsBySuit`, `getCardById`), over a catalogue
  passed in as a list.
- `Gemini`: src/lib/gemini.ts. It covers the category labels, the prompt
  template, the quality gate, the error classifier and
  `generateInterpretation`.
- `Store`: the `readings` table behind `saveReading` and `getReadingById`.
  It is a class whose map of rows the insert updates.
- `Request`: the pure helpers of src/app/api/reading/route.ts.
- `Handler`: the POST and GET handlers of that file. POST is a method
  that modifies the store. GET only reads it.
- `CardCheck`: scripts/validate-cards.ts. It is a method whose loops add
  to the error count, proved against a reference function of the
  catalogue.

Everything outside the program is a parameter:

- the parsed request body;
- the drawn card and the random 32-bit word;
- the service, a function from the prompt to what the call did;
- the database's answer to an insert, the message it gives for a taken
  id, and whether it can be reached for a lookup;
- the card catalogue.

## Model

| member | source | states |
|---|---|---|
| Types.CategoryNameInjective | src/types/index.ts:11 | the five categories have five distinct wire names |
| Types.CategoryName | src/types/index.ts:11 | the wire spelling of each category; no two share one (Types.CategoryNameInjective) |
| Types.CategoryIndex | src/types/index.ts:47-53 | `CATEGORIES` has exactly one entry per category, in the order love, career, relationship, finance, etc |
| Types.SuitName | src/types/index.ts:5 | the wire spelling of each suit, as in the `Suit` union; no two share one (Types.SuitNameInjective) |
| Types.SuitNameInjective | src/types/index.ts:5 | the four suits have four distinct wire names |
| Types.WellFormedCard | src/types/index.ts:15-19 | the documented card shape: a suit exactly on minor cards, a number 0-21 for major and 1-14 for minor cards, and an id made of the type or suit, a dash and the two-digit number |
| Types.TwoDigits | src/types/index.ts:15 | the two characters of a card id's number are decimal digits that spell the number |
| Types.WellFormedIdDetermines | src/types/index.ts:15-19 | for cards that follow the documented shape, the id fixes the card's type, suit and number |
| Text.IsWhitespace | src/app/api/reading/route.ts:13 | the characters `trim` removes: ECMAScript WhiteSpace (tab, vertical tab, form feed, space, no-break space, the byte order mark, the Unicode space separators) and LineTerminator (LF, CR, U+2028, U+2029) |
| Text.LeadingWhitespace | src/app/api/reading/route.ts:13 | the length of the longest all-whitespace prefix: everything before it is whitespace and the character at it is not |
| Text.TrailingStart | src/app/api/reading/route.ts:13 | where the all-whitespace tail of a range begins: everything from it to the end of the range is whitespace and the character before it, if inside the range, is not |
| Text.LeadingWhitespaceIs | src/app/api/reading/route.ts:13 | a whitespace prefix followed by a non-blank or the end is exactly the prefix `trim` drops at the start |
| Text.TrailingStartIs | src/app/api/reading/route.ts:13 | a whitespace tail preceded by a non-blank or the range start is exactly the tail `trim` drops at the end |
| Text.Trim | src/app/api/reading/route.ts:13 | `trim` returns the slice between all-whitespace margins, and the slice neither starts nor ends with whitespace |
| Text.TrimOfPadded | src/app/api/reading/route.ts:71 | trimming whitespace padding around trimmed text gives back that text |
| Text.TrimIdempotent | src/app/api/reading/route.ts:13 | trimming twice is trimming once |
| Text.ToLower | src/lib/gemini.ts:120 | lower-casing keeps the length and maps each character |
| Text.ContainsAt | src/lib/gemini.ts:122 | an occurrence at some position makes `includes` true |
| Text.ContainsHasOccurrence | src/lib/gemini.ts:122 | `includes` is true only when the needle occurs at some position, the converse of Text.ContainsAt |
| Text.OccursAt | src/lib/gemini.ts:122 | the needle occurs at the given position |
| Text.Contains | src/lib/gemini.ts:122 | `includes`: true exactly when the needle occurs at some position (Text.ContainsAt and Text.ContainsHasOccurrence) |
| Text.StartsWith | scripts/validate-cards.ts:93 | `startsWith`: the first characters of the string are the prefix |
| Text.Join | src/lib/gemini.ts:46 | `join`: the parts with the separator between neighbours; one more part adds the separator and then that part (Text.JoinAppend) |
| Text.JoinAppend | src/lib/gemini.ts:46 | joining one more part adds the separator and then that part |
| Text.ContainsNeedsFirstChar | src/lib/gemini.ts:122 | a string without the first character of the needle does not include it |
| Seqs.Filter | scripts/validate-cards.ts:93 | `filter` keeps exactly the elements satisfying the predicate and never grows the list |
| Seqs.FilterAppend | scripts/validate-cards.ts:93 | `filter` keeps the list order: filtering a concatenation concatenates the filtered parts |
| Seqs.FilterCounts | scripts/validate-cards.ts:93 | `filter` keeps each element satisfying the predicate exactly as often as it occurs and drops the others, so its length counts the satisfying elements |
| Seqs.FilterSplits | scripts/validate-cards.ts:24-40 | filtering by a predicate and by its negation splits the list |
| Seqs.FirstIndex | scripts/validate-cards.ts:86 | the first position holding the element |
| Seqs.IndexOf | scripts/validate-cards.ts:86 | `indexOf` is -1 exactly for an absent element, and otherwise the first position holding it |
| Seqs.IndexOfIsNotHere | scripts/validate-cards.ts:86 | `indexOf` misses position k exactly when an equal element occurs before k |
| Seqs.Elements | scripts/validate-cards.ts:81 | `new Set(ids)` holds exactly the elements of the list |
| Cards.MajorArcana | scripts/validate-cards.ts:24 | exactly the major cards of the catalogue, each as often as it occurs there |
| Cards.MinorArcana | scripts/validate-cards.ts:34 | exactly the minor cards of the catalogue, each as often as it occurs there |
| Cards.CardsBySuit | scripts/validate-cards.ts:46 | exactly the cards of that suit, each as often as it occurs there (with Cards.CardsBySuitCounts) |
| Cards.CardsBySuitCounts | scripts/validate-cards.ts:46-47 | `getCardsBySuit(suit)` keeps each card of that suit as often as it occurs and drops the rest, so its length counts the suit's cards |
| Cards.MajorMinorPartition | scripts/validate-cards.ts:24-40 | the major and minor counts add up to the catalogue size |
| Cards.FindCard | src/app/api/reading/route.ts:185-192 | `getCardById` finds a catalogue card with that id, and finds none exactly when no card has it |
| Cards.Ids | scripts/validate-cards.ts:80 | the ids in catalogue order |
| Cards.FindCardOfMember | src/app/api/reading/route.ts:185 | with distinct ids, looking up a catalogue card's id returns that card |
| Gemini.CategoryLabelsAgreeExceptEtc | src/lib/gemini.ts:20-26 | the prompt labels are total and equal the `CATEGORIES` labels except for etc (일상 against 기타) |
| Gemini.CategoryLabel | src/lib/gemini.ts:20-26 | `CATEGORY_LABELS`: the Korean label of each category, compared with `CATEGORIES` by Gemini.CategoryLabelsAgreeExceptEtc |
| Gemini.OrientationLabel | src/lib/gemini.ts:37 | 정방향 for upright and 역방향 for reversed; the prompts of the two orientations differ there (Gemini.PromptRevealsOrientation) |
| Gemini.ChosenMeaning | src/lib/gemini.ts:35-36 | the upright meaning for an upright card and the reversed meaning otherwise, placed third in the prompt (Gemini.PromptFieldsInOrder) |
| Gemini.CreateInterpretationPrompt | src/lib/gemini.ts:29-60 | the template with the card name, orientation label, chosen meaning, joined keywords, category label and concern in order between its fixed texts, as Gemini.PromptFieldsInOrder states |
| Gemini.InterleaveLength | src/lib/gemini.ts:40-59 | the length of the template is the sum of its fixed parts and fields |
| Gemini.InterleaveStartsWithPart | src/lib/gemini.ts:40-43 | the template starts with its first fixed part |
| Gemini.InterleavePlacesFields | src/lib/gemini.ts:40-59 | each field sits at its offset, followed by the next fixed part |
| Gemini.SliceAfterPrefix | src/lib/gemini.ts:40-59 | a slice of the text after a prefix is the same slice of that text, shifted by the prefix length |
| Gemini.ShiftPlacement | src/lib/gemini.ts:40-59 | a field and the part after it keep their places, shifted, when text is put before them |
| Gemini.InterleaveFirstField | src/lib/gemini.ts:40-59 | the field right after the opening part sits at that part's length and the next part follows it |
| Gemini.OffsetStep | src/lib/gemini.ts:40-59 | the next field starts after this field and the fixed part that follows it |
| Gemini.InterleaveLayout | src/lib/gemini.ts:40-59 | the layout of the template: the fields appear in order between the fixed parts |
| Gemini.PromptFieldsInOrder | src/lib/gemini.ts:35-59 | the prompt holds, in order, the card name, the orientation label, the chosen meaning, the keywords joined by ", ", the category label and the concern, each between the template's fixed texts |
| Gemini.PromptRevealsOrientation | src/lib/gemini.ts:35-44 | the upright and reversed prompts differ: 정방향 against 역방향 at the orientation's place |
| Gemini.QualityGate | src/lib/gemini.ts:100-116 | a missing or blank answer, or one shorter than 100 after trimming, fails with `API_ERROR` and its message; otherwise the trimmed answer, at least 100 long, is returned |
| Gemini.Classify | src/lib/gemini.ts:117-144 | a non-`Error` is `UNKNOWN` with its message; a message mentioning quota or rate gives `RATE_LIMIT` and its message, else one mentioning timeout or deadline gives `TIMEOUT` and its message; otherwise a `GeminiError` is rethrown unchanged and any other `Error` becomes `API_ERROR` with "AI 해석 생성 실패: " before its message |
| Gemini.ErrorMessage | src/lib/gemini.ts:120 | the `message` of a thrown `Error`, whether a plain `Error` or a `GeminiError` |
| Gemini.GenerateInterpretation | src/lib/gemini.ts:74-145 | every interpretation it returns is trimmed and at least 100 long |
| Gemini.LowerLacks | src/lib/gemini.ts:120 | lower-casing cannot create a letter whose two cases are both absent |
| Gemini.QuietMessage | src/lib/gemini.ts:120-134 | a message without q, r, t or d in either case mentions neither a rate limit nor a timeout |
| Gemini.MentionsRateLimit | src/lib/gemini.ts:120-122 | the lower-cased message includes "quota" or "rate"; a message containing "generate" already does (Gemini.GenerateLooksLikeRateLimit), one without q or r in either case never does (Gemini.QuietMessage) |
| Gemini.MentionsTimeout | src/lib/gemini.ts:120-129 | the lower-cased message includes "timeout" or "deadline"; one without t or d in either case never does (Gemini.QuietMessage) |
| Gemini.GateErrorsPassThrough | src/lib/gemini.ts:103-138 | the gate's own errors leave the classifier unchanged, so they stay `API_ERROR` |
| Gemini.EmptyResponseMessageIsQuiet | src/lib/gemini.ts:102-104 | the empty-answer message mentions neither a rate limit nor a timeout |
| Gemini.TooShortMessageIsQuiet | src/lib/gemini.ts:109-114 | the too-short message mentions neither a rate limit nor a timeout |
| Gemini.GenerateOutcome | src/lib/gemini.ts:74-145 | success exactly for an answer of at least 100 after trimming; `RATE_LIMIT` exactly for a thrown message mentioning quota or rate; `TIMEOUT` exactly for one mentioning timeout or deadline but neither of those; `UNKNOWN` exactly for a thrown non-`Error`; `API_ERROR` otherwise; the gate's errors come out unchanged, a wrapped `Error` carries its message after the prefix, and the other codes carry their fixed messages |
| Gemini.GenerateLooksLikeRateLimit | src/lib/gemini.ts:120-127 | a thrown message containing "generate" is classified `RATE_LIMIT`, because the test is a plain substring test for "rate" |
| Store.ReadingStore.constructor | src/lib/supabase.ts:46-59 | an empty table in which every row is filed under its own id |
| Store.ReadingStore.Insert | src/lib/supabase.ts:46-59 | the insert succeeds exactly when the database assigns an unused id; the table then gains exactly that row; a failure leaves the table unchanged and carries the database's own message (its error, or what it reports for a taken id) after the save-failed prefix |
| Store.ReadingStore.Lookup | src/lib/supabase.ts:67-80 | a row is returned exactly when the database is reachable and has the id, and it is the row stored under that id |
| Request.StripTags | src/app/api/reading/route.ts:13 | removing `<[^>]*>` matches never lengthens the text, adds no character, and leaves no '<' with a '>' after it |
| Request.SanitizeInput | src/app/api/reading/route.ts:12-14 | the sanitised text has no tag left, is trimmed, and is no longer than the input |
| Request.StripTagsKeepsPlainText | src/app/api/reading/route.ts:13 | text without '<' passes through unchanged |
| Request.StripTagsDropsTag | src/app/api/reading/route.ts:13 | a complete tag is removed whole |
| Request.StripTagsOfTagFree | src/app/api/reading/route.ts:13 | tag-free text is left as it is |
| Request.SubsequenceOfSuffix | src/app/api/reading/route.ts:13 | a subsequence of a suffix is a subsequence of the whole |
| Request.StripTagsIsSubsequence | src/app/api/reading/route.ts:13 | the characters outside removed tags keep their order |
| Request.NoTagSlice | src/app/api/reading/route.ts:13 | a slice of tag-free text is tag-free |
| Request.SanitizeIdempotent | src/app/api/reading/route.ts:12-14 | sanitising twice is sanitising once |
| Request.StripTagThenText | src/app/api/reading/route.ts:13 | a tag followed by plain text loses only the tag |
| Request.Tag | src/app/api/reading/route.ts:13 | the shape `<...>` the tag pattern removes |
| Request.StripTwoTags | src/app/api/reading/route.ts:13 | a tag, plain text, a tag and plain text strip to the two texts |
| Request.SanitizeStripsScript | src/app/api/reading/route.ts:12-14 | `<script>` + text + `</script>` + text sanitises to the trimmed texts, so `<script>alert(1)</script>hello` gives `alert(1)hello` |
| Request.TrimOfTrimmed | src/app/api/reading/route.ts:13 | trimming trimmed text changes nothing |
| Request.ParseCategory | src/app/api/reading/route.ts:17-23 | a name is accepted exactly when it is in `VALID_CATEGORIES`, and then it names the category |
| Request.ParseCategoryName | src/app/api/reading/route.ts:17-23 | every category's wire name is accepted as that category |
| Request.ValidateRequest | src/app/api/reading/route.ts:53-80 | the five checks in order, each failing exactly when the earlier ones pass and it does not; a truthy non-string concern throws; acceptance exactly when all pass |
| Request.Truthy | src/app/api/reading/route.ts:58-68 | the truthiness `!body.category` and `!body.concern` test: a missing field and the empty string are falsy, a non-string value as JavaScript decides |
| Request.ValidationMessage | src/app/api/reading/route.ts:58-77 | the message of each of the five checks, with the limits 10 and 500 written in |
| Request.ConcernLengthLimits | src/app/api/reading/route.ts:8-9 | fewer than 10 characters after trimming is too short however it is padded; 10 with a raw length of at most 500 is accepted; a raw length over 500 is too long |
| Request.LengthChecks | src/app/api/reading/route.ts:71-77 | once the category is valid and the concern is a non-empty string, the answer is too short below 10 trimmed characters, else too long above 500 raw characters, else accepted |
| Request.ForwardedConcernBounds | src/app/api/reading/route.ts:88-97 | the concern forwarded after validation and sanitising is at most 500 long |
| Request.ForwardedConcernCanBeEmpty | src/app/api/reading/route.ts:88-97 | any concern that is one tag, `<`, 8 to 498 characters other than `>`, then `>`, passes validation with a valid category and is forwarded empty |
| Request.StripOneTag | src/app/api/reading/route.ts:13 | any concern that is one tag strips to nothing |
| Request.DrawRandomOrientation | src/app/api/reading/route.ts:47-50 | upright exactly for an even word |
| Request.DrawIsEven | src/app/api/reading/route.ts:47-50 | over the words [0, 2n) exactly n draw each orientation |
| Handler.ViewOf | src/app/api/reading/route.ts:137-144 | the response's card carries the card's id, name, image, keywords and both meanings |
| Handler.Decide | src/app/api/reading/route.ts:82-123 | a syntax error or a failed check is a 400 with its message; a `TypeError` is a 500; a generator error is a 429 for `RATE_LIMIT` and a 500 otherwise; a generated interpretation is saved with the sanitised concern, the drawn card and the drawn orientation |
| Handler.CheckBody | src/app/api/reading/route.ts:85-88 | reading `category` or `concern` of a `null` body throws a `TypeError`; any other body goes through `validateRequest` |
| Handler.SavedReadingIsClean | src/app/api/reading/route.ts:96-132 | a saved reading has the requested category, the drawn card, a tag-free concern of at most 500, and a trimmed interpretation of at least 100 |
| Handler.DecideStatus | src/app/api/reading/route.ts:85-123 | 400 exactly for a malformed body or a failed check; 429 exactly when the service threw a message mentioning quota or rate; saved exactly when the checks pass and the answer is at least 100 after trimming |
| Handler.Post | src/app/api/reading/route.ts:82-166 | nothing is stored unless the answer is 201; on 201 exactly the decided reading is stored under the assigned id and echoed with the drawn card; a failed insert is a 500 |
| Handler.Created | src/app/api/reading/route.ts:135-149 | the 201 body: the saved id, the drawn card's fields, the orientation and the interpretation; GET later answers with the same body (Handler.GetAfterCreate) |
| Handler.Get | src/app/api/reading/route.ts:169-217 | 400 exactly without an id; 200 exactly when the reading is found and its card is in the catalogue, with the stored orientation and interpretation; 404 otherwise |
| Handler.GetAfterCreate | src/app/api/reading/route.ts:126-208 | a reading that POST stored reads back through GET with the same id, card, orientation and interpretation |
| Handler.PostThenGet | src/app/api/reading/route.ts:82-217 | a client that posts and, when the post succeeded, fetches gets back 200 with the body it was given; a failed post stores nothing and is not followed by a fetch |
| CardCheck.CardMissingFields | scripts/validate-cards.ts:58-67 | one message per empty required field; none exactly when all are present |
| CardCheck.MissingFields | scripts/validate-cards.ts:57-68 | the collected messages: none exactly when every card has its required fields, at most 5 per card |
| CardCheck.ElementsSnoc | scripts/validate-cards.ts:81 | appending an id grows the id set by one exactly when the id is new |
| CardCheck.DuplicatesUpToStep | scripts/validate-cards.ts:86 | one more position lists one more duplicate exactly when its id occurred earlier |
| CardCheck.DuplicatesUpToCount | scripts/validate-cards.ts:80-86 | the repeated ids listed so far plus the distinct ids seen so far are all the ids seen |
| CardCheck.DuplicatesCount | scripts/validate-cards.ts:85-86 | the listed duplicates are as many as the reported `ids.length - uniqueIds.size` |
| CardCheck.DuplicatesUpToEmpty | scripts/validate-cards.ts:86 | no id is listed exactly when no id repeats an earlier one |
| CardCheck.Duplicates | scripts/validate-cards.ts:86 | `ids.filter((id, index) => ids.indexOf(id) !== index)`: as many as `ids.length - uniqueIds.size` (CardCheck.DuplicatesCount) and empty exactly for distinct ids (CardCheck.DuplicatesUpToEmpty) |
| CardCheck.UniqueIdsIffDistinct | scripts/validate-cards.ts:82 | `ids.length === uniqueIds.size` exactly when the ids are distinct |
| CardCheck.InvalidPaths | scripts/validate-cards.ts:93-99 | exactly the cards whose image path lacks the "/cards/" prefix, each as often as it occurs, so one error per such card |
| CardCheck.InvalidSuits | scripts/validate-cards.ts:104-110 | exactly the minor cards without a suit, each as often as it occurs, so one error per such card; major cards with a suit are not flagged |
| CardCheck.SuitErrors | scripts/validate-cards.ts:44-53 | at most one error per suit, and none exactly when every suit has 14 cards |
| CardCheck.Misses | scripts/validate-cards.ts:44-53 | for any suit sizes, at most one miss per listed suit, and none exactly when every listed suit has 14 |
| CardCheck.ErrorCountBounds | scripts/validate-cards.ts:15-111 | checks 1 to 3 add at most 3 together (each one's CardCheck.Penalty is at most 1), the suit check at most 4, the field check at most 5 per card, the path and suit checks at most one per card |
| CardCheck.Penalty | scripts/validate-cards.ts:15-40 | a single check adds at most 1 to `errorCount`, and nothing exactly when it passes; every addend is a `nat`, so `errorCount` never decreases |
| CardCheck.CountErrors | scripts/validate-cards.ts:15-40 | checks 1 to 3: one error for each of the total, major and minor counts that is off; none exactly when they are 78, 22 and 56 (CardCheck.CheckCounts) |
| CardCheck.CatalogueValid | scripts/validate-cards.ts:11-111 | the catalogue the script accepts, stated card by card: 78 cards, 22 major and 56 minor, 14 per suit, required fields present, distinct ids, images under "/cards/", a suit on every minor card; the error count is zero exactly for it (CardCheck.ErrorCountZeroIffValid) |
| CardCheck.EmptyIffNoMember | scripts/validate-cards.ts:94 | a filtered list is empty exactly when nothing is in it |
| CardCheck.ErrorCountZeroIffValid | scripts/validate-cards.ts:15-121 | the error count is zero exactly when the catalogue has 78 cards, 22 major, 56 minor, 14 per suit, no empty required field, distinct ids, images under "/cards/" and a suit on every minor card |
| CardCheck.SuitCheckPasses | scripts/validate-cards.ts:44-53 | check 4 adds nothing exactly when every suit has 14 cards |
| CardCheck.PathCheckPasses | scripts/validate-cards.ts:93-100 | check 7 adds nothing exactly when every image path starts with "/cards/" |
| CardCheck.MinorSuitCheckPasses | scripts/validate-cards.ts:104-111 | check 8 adds nothing exactly when every minor card has a suit |
| CardCheck.ErrorCount | scripts/validate-cards.ts:11-111 | the sum of what the eight checks add; zero exactly for a valid catalogue and bounded per check, as CardCheck.ErrorCountZeroIffValid and CardCheck.ErrorCountBounds state |
| CardCheck.ValidCatalogueLookup | scripts/validate-cards.ts:80-89 | in a valid catalogue, looking up any card's id finds that card |
| CardCheck.ValidCatalogueSuitsAreMinor | scripts/validate-cards.ts:34-53 | in a valid catalogue a card has a suit exactly when it is minor: the 56 minor cards all have suits and fill the 56 places of the four suits |
| CardCheck.SuitsCover | scripts/validate-cards.ts:44-53 | each card with a suit is counted in exactly one of the four suit lists, and a card without one in none |
| CardCheck.SuitedCards | scripts/validate-cards.ts:44-53 | the four suit lists together hold every card with a suit as often as it occurs, and their sizes add up |
| CardCheck.SameSizeSubmultiset | scripts/validate-cards.ts:34-53 | a sub-multiset as large as the whole is the whole |
| CardCheck.SuitsAreMinor | scripts/validate-cards.ts:34-53 | when every minor card has a suit and the suits together are as many as the minor cards, a card has a suit exactly when it is minor |
| CardCheck.CheckCounts | scripts/validate-cards.ts:15-40 | checks 1 to 3 add nothing exactly when the total, major and minor counts are 78, 22 and 56 |
| CardCheck.CheckSuits | scripts/validate-cards.ts:44-53 | the suit loop adds one error per suit without 14 cards |
| CardCheck.CollectMissingFields | scripts/validate-cards.ts:57-68 | the card loop collects exactly the required-field messages |
| CardCheck.CheckDuplicateIds | scripts/validate-cards.ts:80-89 | one error exactly when some id repeats, with as many listed duplicates as the reported count |
| CardCheck.ValidateCards | scripts/validate-cards.ts:11-121 | the final error count is the reference count `ErrorCount`, and the exit code is 0 exactly when the catalogue is valid |

## Left out

- Lengths are counted in characters (code points). JavaScript's `length` counts UTF-16 code units, so concerns or interpretations outside the Basic Multilingual Plane can measure differently.
- Text.ToLower: lowers only ASCII letters. `toLowerCase` follows the full Unicode case mapping. The classifier's needles are ASCII, but a non-ASCII character that lowers to an ASCII letter is not modelled.
- The Gemini client and its network call are not modelled: the model name, `thinkingBudget`, `maxOutputTokens` and the floating-point `temperature`, the API-key check at load time, and `testGeminiConnection`. The call is a function from the prompt to its outcome.
- CardCheck.CardMissingFields: leaves out the `type` and `keywords` checks. Cards here are typed records, so a card's type is always set and its keywords are always a list, and those two checks can never fire. The bound is therefore 5 entries per card, not 7.
- The catalogue in src/data/cards is not part of this model. `drawRandomCard` is a parameter (the drawn card). `getMajorArcana`, `getMinorArcana`, `getCardsBySuit` and `getCardById` are taken to be plain filters and a first-match search over the catalogue list.
- `crypto.getRandomValues` is a parameter (the 32-bit word). Probabilistic fairness is stated only as the parity count.
- The Supabase client, the environment checks, `getRecentReadings` and the other helpers of src/lib/supabase.ts are not modelled. The database's choice of id and timestamp on insert is a parameter, and so are its error message, the message it reports for a taken id, and its reachability on lookup.
- Console logging, the script's printed lines, and `NextResponse` serialisation are not modelled. A response is a status and a body datatype.
- `Reading.createdAt` is a `Date` in the source and a string here.
- Behaviour a reader might expect but the code does not have:
  - a GET without an id answers 400, not 404;
  - no 500-character cap is put on interpretations;
  - the GET body has no category or concern;
  - the concern is not validated again after sanitising, so it can be forwarded empty.
