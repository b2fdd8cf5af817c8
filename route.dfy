/** The pure parts of src/app/api/reading/route.ts: `sanitizeInput`,
    `VALID_CATEGORIES`, `validateRequest` and `drawRandomOrientation`. */
module Request {
  import opened Wrappers
  import opened Types
  import opened Text
  import opened Seqs

  const MinConcernLength: nat := 10
  const MaxConcernLength: nat := 500

  // ---------------------------------------------------------------------
  // sanitizeInput: input.replace(/<[^>]*>/g, '').trim()
  // ---------------------------------------------------------------------

  /** No '<' is followed, anywhere later, by a '>': nothing tag-shaped is left. */
  predicate NoTag(s: string) {
    forall i, j :: 0 <= i < j < |s| && s[i] == '<' ==> s[j] != '>'
  }

  /** The global replacement of `<[^>]*>` by the empty string. Scanning from
      the left, a '<' with a '>' somewhere after it starts a match that ends
      at the first such '>' and is dropped; any other character is kept and
      the scan moves on by one. */
  function StripTags(s: string): (r: string)
    ensures |r| <= |s|
    ensures forall c :: c in r ==> c in s
    ensures NoTag(r)
    decreases |s|
  {
    if s == [] then []
    else if s[0] == '<' && '>' in s then StripTags(s[FirstIndex(s, '>') + 1..])
    else
      var rest := StripTags(s[1..]);
      assert s[0] == '<' ==> '>' !in rest;
      [s[0]] + rest
  }

  /** `sanitizeInput`. */
  function SanitizeInput(input: string): (r: string)
    ensures NoTag(r)
    ensures IsTrimmed(r)
    ensures |r| <= |input|
  {
    var stripped := StripTags(input);
    var r := Trim(stripped);
    NoTagSlice(stripped, LeadingWhitespace(stripped), LeadingWhitespace(stripped) + |r|);
    r
  }

  /** Text without a '<' passes through the replacement unchanged. */
  lemma {:induction false} StripTagsKeepsPlainText(t: string, s: string)
    requires '<' !in t
    ensures StripTags(t + s) == t + StripTags(s)
  {
    if t != [] {
      assert (t + s)[0] == t[0] && (t + s)[1..] == t[1..] + s;
      StripTagsKeepsPlainText(t[1..], s);
      assert t + StripTags(s) == [t[0]] + (t[1..] + StripTags(s));
    } else {
      assert t + s == s;
    }
  }

  /** A complete tag, '<' then anything but '>' then '>', is removed whole. */
  lemma StripTagsDropsTag(u: string, s: string)
    requires '>' !in u
    ensures StripTags("<" + u + ">" + s) == StripTags(s)
  {
    var x := "<" + u + ">" + s;
    assert x[|u| + 1] == '>';
    assert '>' !in x[..|u| + 1] by {
      assert x[..|u| + 1] == "<" + u;
    }
    assert FirstIndex(x, '>') == |u| + 1;
    assert x[|u| + 2..] == s;
  }

  /** Text with nothing tag-shaped in it is left as it is. */
  lemma {:induction false} StripTagsOfTagFree(s: string)
    requires NoTag(s)
    ensures StripTags(s) == s
  {
    if s != [] {
      if s[0] == '<' {
        assert '>' !in s[1..];
      }
      assert NoTag(s[1..]) by {
        forall i, j | 0 <= i < j < |s[1..]| && s[1..][i] == '<' ensures s[1..][j] != '>' {
          assert s[i + 1] == '<';
        }
      }
      StripTagsOfTagFree(s[1..]);
      assert s == [s[0]] + s[1..];
    }
  }

  /** `r` is obtained from `s` by deleting characters. */
  predicate IsSubsequence(r: string, s: string)
    decreases |s|
  {
    if r == [] then true
    else if s == [] then false
    else (r[0] == s[0] && IsSubsequence(r[1..], s[1..])) || IsSubsequence(r, s[1..])
  }

  lemma {:induction false} SubsequenceOfSuffix(r: string, s: string, k: nat)
    requires k <= |s| && IsSubsequence(r, s[k..])
    ensures IsSubsequence(r, s)
  {
    if k > 0 {
      assert s[1..][k - 1..] == s[k..];
      SubsequenceOfSuffix(r, s[1..], k - 1);
    }
  }

  /** The characters outside the removed tags keep their order. */
  lemma {:induction false} StripTagsIsSubsequence(s: string)
    ensures IsSubsequence(StripTags(s), s)
  {
    if s != [] {
      if s[0] == '<' && '>' in s {
        var k := FirstIndex(s, '>') + 1;
        StripTagsIsSubsequence(s[k..]);
        SubsequenceOfSuffix(StripTags(s[k..]), s, k);
      } else {
        StripTagsIsSubsequence(s[1..]);
        var r := StripTags(s);
        assert r[0] == s[0] && r[1..] == StripTags(s[1..]);
      }
    }
  }

  /** A slice of tag-free text is tag-free. */
  lemma NoTagSlice(s: string, a: nat, b: nat)
    requires NoTag(s) && a <= b <= |s|
    ensures NoTag(s[a..b])
  {
    forall i, j | 0 <= i < j < b - a && s[a..b][i] == '<' ensures s[a..b][j] != '>' {
      assert s[a + i] == '<';
    }
  }

  /** Sanitising twice is sanitising once. */
  lemma SanitizeIdempotent(input: string)
    ensures SanitizeInput(SanitizeInput(input)) == SanitizeInput(input)
  {
    var once := SanitizeInput(input);
    StripTagsOfTagFree(once);
    TrimIdempotent(StripTags(input));
  }

  /** A tag followed by plain text: the tag goes, the text stays. */
  lemma StripTagThenText(u: string, t: string, rest: string)
    requires '>' !in u && '<' !in t
    ensures StripTags("<" + u + ">" + (t + rest)) == t + StripTags(rest)
  {
    StripTagsDropsTag(u, t + rest);
    StripTagsKeepsPlainText(t, rest);
  }

  /** `<u>`: a tag with the text `u` inside it. */
  function Tag(u: string): string {
    "<" + u + ">"
  }

  /** Two tags around plain text: both tags go, the text stays. */
  lemma StripTwoTags(u: string, t: string, v: string, w: string)
    requires '>' !in u && '<' !in t && '>' !in v && '<' !in w
    ensures StripTags(Tag(u) + t + Tag(v) + w) == t + w
  {
    var second := Tag(v) + w;
    assert Tag(u) + t + Tag(v) + w == "<" + u + ">" + (t + second);
    StripTagThenText(u, t, second);
    StripTagsDropsTag(v, w);
    StripTagsKeepsPlainText(w, []);
    assert w + [] == w;
  }

  /** Script injection: a `<script>` element around text loses both of its
      tags, and the text inside and after it is kept, then trimmed. */
  lemma SanitizeStripsScript(t: string, w: string)
    requires '<' !in t && '<' !in w
    ensures SanitizeInput("<script>" + t + "</script>" + w) == Trim(t + w)
  {
    assert "<script>" + t + "</script>" + w == Tag("script") + t + Tag("/script") + w;
    StripTwoTags("script", t, "/script", w);
  }

  /** Trimming text that starts and ends with a non-blank changes nothing. */
  lemma TrimOfTrimmed(r: string)
    requires IsTrimmed(r)
    ensures Trim(r) == r
  {
    TrimOfPadded([], r, []);
    assert [] + r + [] == r;
  }

  // ---------------------------------------------------------------------
  // VALID_CATEGORIES and validateRequest
  // ---------------------------------------------------------------------

  /** `VALID_CATEGORIES`. */
  const ValidCategories: seq<string> := ["love", "career", "relationship", "finance", "etc"]

  /** The category a request names, when it is one of `VALID_CATEGORIES`. */
  function ParseCategory(s: string): (r: Option<Category>)
    ensures r.Some? <==> s in ValidCategories
    ensures r.Some? ==> CategoryName(r.value) == s
  {
    if s == "love" then Some(Love)
    else if s == "career" then Some(Career)
    else if s == "relationship" then Some(Relationship)
    else if s == "finance" then Some(Finance)
    else if s == "etc" then Some(Etc)
    else None
  }

  /** Every category's wire name is accepted and read back as that category. */
  lemma ParseCategoryName(c: Category)
    ensures ParseCategory(CategoryName(c)) == Some(c)
  {
    CategoryNameInjective(ParseCategory(CategoryName(c)).value, c);
  }

  /** A field of the parsed JSON body: absent, a string, or some other JSON
      value, which is falsy (`null`, `0`, `false`) or truthy. */
  datatype BodyField = Absent | Str(text: string) | NonString(truthy: bool)

  /** JavaScript truthiness of a field: the empty string is falsy. */
  predicate Truthy(f: BodyField) {
    match f
    case Absent => false
    case Str(t) => t != ""
    case NonString(truthy) => truthy
  }

  datatype ValidationError = MissingCategory | InvalidCategory | MissingConcern | ConcernTooShort | ConcernTooLong

  /** The message of each validation failure. */
  function ValidationMessage(e: ValidationError): string {
    match e
    case MissingCategory => "카테고리를 선택해주세요."
    case InvalidCategory => "유효하지 않은 카테고리입니다."
    case MissingConcern => "고민 내용을 입력해주세요."
    case ConcernTooShort => "고민 내용을 10자 이상 입력해주세요."
    case ConcernTooLong => "고민 내용은 500자 이하로 입력해주세요."
  }

  /** What `validateRequest` does: accept (with the category and the raw
      concern), reject with the first failed check, or throw a `TypeError`
      because a truthy concern that is not a string has no `trim`. */
  datatype Validation = Accepted(category: Category, concern: string) | Rejected(error: ValidationError) | TypeError

  /** The category passes both category checks. */
  predicate CategoryOk(category: BodyField) {
    category.Str? && category.text in ValidCategories
  }

  /** `validateRequest`: five checks in a fixed order, the first failure wins. */
  function ValidateRequest(category: BodyField, concern: BodyField): (r: Validation)
    ensures r == Rejected(MissingCategory) <==> !Truthy(category)
    ensures r == Rejected(InvalidCategory) <==> Truthy(category) && !CategoryOk(category)
    ensures r == Rejected(MissingConcern) <==> CategoryOk(category) && !Truthy(concern)
    ensures r.TypeError? <==> CategoryOk(category) && Truthy(concern) && !concern.Str?
    ensures r == Rejected(ConcernTooShort) <==>
      CategoryOk(category) && Truthy(concern) && concern.Str? && |Trim(concern.text)| < MinConcernLength
    ensures r == Rejected(ConcernTooLong) <==>
      CategoryOk(category) && concern.Str? && |Trim(concern.text)| >= MinConcernLength
      && |concern.text| > MaxConcernLength
    ensures r.Accepted? <==>
      CategoryOk(category) && concern.Str? && |Trim(concern.text)| >= MinConcernLength
      && |concern.text| <= MaxConcernLength
    ensures r.Accepted? ==> CategoryName(r.category) == category.text && r.concern == concern.text
  {
    if !Truthy(category) then Rejected(MissingCategory)
    else if !(category.Str? && ParseCategory(category.text).Some?) then Rejected(InvalidCategory)
    else if !Truthy(concern) then Rejected(MissingConcern)
    else if !concern.Str? then TypeError
    else if |Trim(concern.text)| < MinConcernLength then Rejected(ConcernTooShort)
    else if |concern.text| > MaxConcernLength then Rejected(ConcernTooLong)
    else Accepted(ParseCategory(category.text).value, concern.text)
  }

  /** The length limits: the lower one applies to the trimmed concern, the
      upper one to the raw concern, so surrounding whitespace counts toward
      500 but not toward 10. A concern whose text is 9 characters is too
      short however it is padded; 10 characters are enough; a raw length of
      500 passes and 501 does not. */
  lemma ConcernLengthLimits(c: Category, before: string, t: string, after: string)
    requires AllWhitespace(before) && AllWhitespace(after) && IsTrimmed(t)
    requires before + t + after != []
    ensures var raw := before + t + after;
            var v := ValidateRequest(Str(CategoryName(c)), Str(raw));
            && (|t| < MinConcernLength ==> v == Rejected(ConcernTooShort))
            && (|t| >= MinConcernLength && |raw| <= MaxConcernLength ==> v == Accepted(c, raw))
            && (|t| >= MinConcernLength && |raw| > MaxConcernLength ==> v == Rejected(ConcernTooLong))
  {
    var raw := before + t + after;
    TrimOfPadded(before, t, after);
    ParseCategoryName(c);
    LengthChecks(Str(CategoryName(c)), raw);
  }

  /** Past the category and presence checks only the two length checks
      remain. */
  lemma LengthChecks(category: BodyField, raw: string)
    requires CategoryOk(category) && raw != []
    ensures ValidateRequest(category, Str(raw)) ==
      if |Trim(raw)| < MinConcernLength then Rejected(ConcernTooShort)
      else if |raw| > MaxConcernLength then Rejected(ConcernTooLong)
      else Accepted(ParseCategory(category.text).value, raw)
  {
  }

  /** What the handler forwards after validation is the sanitised concern:
      never longer than 500 characters, but possibly shorter than 10. */
  lemma ForwardedConcernBounds(category: BodyField, concern: BodyField)
    requires ValidateRequest(category, concern).Accepted?
    ensures |SanitizeInput(ValidateRequest(category, concern).concern)| <= MaxConcernLength
  {
  }

  /** A concern made of one tag, `<` and 8 to 498 characters other than
      `>` and then `>`, passes validation and is forwarded as the empty
      string. */
  lemma ForwardedConcernCanBeEmpty(category: BodyField, u: string)
    requires CategoryOk(category) && '>' !in u && 8 <= |u| <= 498
    ensures ValidateRequest(category, Str(Tag(u))) == Accepted(ParseCategory(category.text).value, Tag(u))
    ensures SanitizeInput(Tag(u)) == ""
  {
    var concern := Tag(u);
    assert concern[0] == '<' && concern[|concern| - 1] == '>';
    TrimOfTrimmed(concern);
    LengthChecks(category, concern);
    StripOneTag(u);
  }

  /** A concern that is one tag strips to nothing. */
  lemma StripOneTag(u: string)
    requires '>' !in u
    ensures StripTags(Tag(u)) == []
  {
    assert Tag(u) == "<" + u + ">" + [];
    StripTagsDropsTag(u, []);
  }

  // ---------------------------------------------------------------------
  // drawRandomOrientation
  // ---------------------------------------------------------------------

  /** A 32-bit unsigned word, as `crypto.getRandomValues(new Uint32Array(1))`
      yields. */
  newtype uint32 = x: int | 0 <= x < 0x1_0000_0000

  /** `drawRandomOrientation`, given the random word. */
  function DrawRandomOrientation(word: uint32): (o: Orientation)
    ensures o == Upright <==> word % 2 == 0
  {
    if word % 2 == 0 then Upright else Reversed
  }

  /** How many of the words 0 .. n-1 draw orientation `o`. */
  function CountDrawn(o: Orientation, n: nat): nat
    requires n <= 0x1_0000_0000
  {
    if n == 0 then 0
    else CountDrawn(o, n - 1) + (if DrawRandomOrientation((n - 1) as uint32) == o then 1 else 0)
  }

  /** Over any range [0, 2n) of words, exactly n draw each orientation; in
      particular each orientation has exactly half of all 2^32 words. */
  lemma {:induction false} DrawIsEven(n: nat)
    requires 2 * n <= 0x1_0000_0000
    ensures CountDrawn(Upright, 2 * n) == n && CountDrawn(Reversed, 2 * n) == n
  {
    if n > 0 {
      DrawIsEven(n - 1);
      assert DrawRandomOrientation((2 * n - 2) as uint32) == Upright;
      assert DrawRandomOrientation((2 * n - 1) as uint32) == Reversed;
    }
  }
}
