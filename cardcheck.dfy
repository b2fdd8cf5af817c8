/** scripts/validate-cards.ts: the consistency checks run over the card
    catalogue. Each check adds to an error count, and the script exits
    with 0 exactly when the count is zero. The console output is not
    modelled; the lists the script prints are returned instead. */
module CardCheck {
  import opened Wrappers
  import opened Types
  import opened Text
  import opened Seqs
  import opened Cards

  const ExpectedTotal: nat := 78
  const ExpectedMajor: nat := 22
  const ExpectedMinor: nat := 56
  const ExpectedPerSuit: nat := 14
  const ImagePrefix: string := "/cards/"

  /** The suits in the order the script checks them. */
  const Suits: seq<Suit> := [Wands, Cups, Swords, Pentacles]

  /** 1 for a failed single check, 0 for a passed one. */
  function Penalty(passed: bool): (r: nat)
    ensures r <= 1
    ensures r == 0 <==> passed
  {
    if passed then 0 else 1
  }

  /** The fields the required-field check can find empty. */
  predicate RequiredFieldsPresent(card: Card) {
    && card.id != "" && card.name != "" && card.imageUrl != ""
    && card.meaningUpright != "" && card.meaningReversed != ""
  }

  /** How many of those fields are empty. */
  function EmptyFieldCount(card: Card): nat {
    Penalty(card.id != "") + Penalty(card.name != "") + Penalty(card.imageUrl != "")
    + Penalty(card.meaningUpright != "") + Penalty(card.meaningReversed != "")
  }

  /** The messages the required-field check records for one card, one per
      empty field: a missing id names the card by its name (or "이름없음"),
      a missing name by its id (or "아이디없음"), the others by the id. */
  function CardMissingFields(card: Card): (r: seq<string>)
    ensures |r| == EmptyFieldCount(card)
    ensures r == [] <==> RequiredFieldsPresent(card)
  {
    (if card.id == "" then [(if card.name == "" then "이름없음" else card.name) + ": id 누락"] else [])
    + (if card.name == "" then [(if card.id == "" then "아이디없음" else card.id) + ": name 누락"] else [])
    + (if card.imageUrl == "" then [card.id + ": imageUrl 누락"] else [])
    + (if card.meaningUpright == "" then [card.id + ": meaningUpright 누락"] else [])
    + (if card.meaningReversed == "" then [card.id + ": meaningReversed 누락"] else [])
  }

  /** `missingFields` after the whole catalogue has been visited. */
  function MissingFields(cards: seq<Card>): (r: seq<string>)
    ensures r == [] <==> forall c :: c in cards ==> RequiredFieldsPresent(c)
    ensures |r| <= 5 * |cards|
  {
    if cards == [] then []
    else
      var init := cards[..|cards| - 1];
      assert forall c :: c in cards <==> c in init || c == cards[|cards| - 1];
      MissingFields(init) + CardMissingFields(cards[|cards| - 1])
  }

  /** `ids.filter((id, index) => ids.indexOf(id) !== index)` over the first
      `n` ids: every id that already occurred earlier. */
  function DuplicatesUpTo(ids: seq<string>, n: nat): seq<string>
    requires n <= |ids|
  {
    if n == 0 then []
    else DuplicatesUpTo(ids, n - 1) + (if IndexOf(ids, ids[n - 1]) != n - 1 then [ids[n - 1]] else [])
  }

  function Duplicates(ids: seq<string>): seq<string> {
    DuplicatesUpTo(ids, |ids|)
  }

  /** Appending an id grows the id set by one exactly when the id is new. */
  lemma ElementsSnoc(s: seq<string>, x: string)
    ensures |Elements(s + [x])| == |Elements(s)| + (if x in s then 0 else 1)
  {
    assert Elements(s + [x]) == Elements(s) + {x};
  }

  /** Position n - 1 is listed exactly when its id occurred before it. */
  lemma DuplicatesUpToStep(ids: seq<string>, n: nat)
    requires 0 < n <= |ids|
    ensures |DuplicatesUpTo(ids, n)| == |DuplicatesUpTo(ids, n - 1)| + (if ids[n - 1] in ids[..n - 1] then 1 else 0)
  {
    IndexOfIsNotHere(ids, n - 1);
  }

  /** The listed duplicates are exactly as many as the reported number
      `ids.length - uniqueIds.size`. */
  lemma {:induction false} DuplicatesUpToCount(ids: seq<string>, n: nat)
    requires n <= |ids|
    ensures |DuplicatesUpTo(ids, n)| + |Elements(ids[..n])| == n
  {
    if n > 0 {
      DuplicatesUpToCount(ids, n - 1);
      DuplicatesUpToStep(ids, n);
      assert ids[..n] == ids[..n - 1] + [ids[n - 1]];
      ElementsSnoc(ids[..n - 1], ids[n - 1]);
    }
  }

  lemma DuplicatesCount(ids: seq<string>)
    ensures |Duplicates(ids)| == |ids| - |Elements(ids)|
  {
    DuplicatesUpToCount(ids, |ids|);
    assert ids[..|ids|] == ids;
  }

  /** No duplicates are listed exactly when no id occurs twice. */
  lemma {:induction false} DuplicatesUpToEmpty(ids: seq<string>, n: nat)
    requires n <= |ids|
    ensures DuplicatesUpTo(ids, n) == [] <==> forall k :: 0 <= k < n ==> ids[k] !in ids[..k]
  {
    if n > 0 {
      DuplicatesUpToEmpty(ids, n - 1);
      IndexOfIsNotHere(ids, n - 1);
    }
  }

  /** The script's duplicate test, `ids.length === new Set(ids).size`,
      holds exactly when the ids are distinct. */
  lemma UniqueIdsIffDistinct(ids: seq<string>)
    ensures |ids| == |Elements(ids)| <==> Distinct(ids)
  {
    DuplicatesCount(ids);
    DuplicatesUpToEmpty(ids, |ids|);
    if !Distinct(ids) {
      var i, j :| 0 <= i < j < |ids| && ids[i] == ids[j];
      assert ids[j] in ids[..j] by {
        assert ids[..j][i] == ids[j];
      }
    }
  }

  /** Cards whose image path does not start with "/cards/". */
  function InvalidPaths(cards: seq<Card>): (r: seq<Card>)
    ensures forall c :: c in r <==> c in cards && !StartsWith(c.imageUrl, ImagePrefix)
    ensures forall c :: multiset(r)[c] == if StartsWith(c.imageUrl, ImagePrefix) then 0 else multiset(cards)[c]
  {
    FilterCounts(cards, (c: Card) => !StartsWith(c.imageUrl, ImagePrefix));
    Filter(cards, (c: Card) => !StartsWith(c.imageUrl, ImagePrefix))
  }

  /** Minor cards without a suit. */
  function InvalidSuits(cards: seq<Card>): (r: seq<Card>)
    ensures forall c :: c in r <==> c in cards && c.kind == Minor && c.suit.None?
    ensures forall c :: multiset(r)[c] == if c.kind == Minor && c.suit.None? then multiset(cards)[c] else 0
  {
    FilterCounts(MinorArcana(cards), (c: Card) => c.suit.None?);
    Filter(MinorArcana(cards), (c: Card) => c.suit.None?)
  }

  /** How many of the listed suits do not have 14 cards, given the size of
      each suit. */
  function Misses(size: Suit -> nat, suits: seq<Suit>): (n: nat)
    ensures n <= |suits|
    ensures n == 0 <==> forall i :: 0 <= i < |suits| ==> size(suits[i]) == ExpectedPerSuit
  {
    if suits == [] then 0
    else
      var init := suits[..|suits| - 1];
      assert forall i :: 0 <= i < |init| ==> init[i] == suits[i];
      Misses(size, init) + Penalty(size(suits[|suits| - 1]) == ExpectedPerSuit)
  }

  /** How many of the listed suits do not have 14 cards in the catalogue. */
  function SuitErrors(cards: seq<Card>, suits: seq<Suit>): (n: nat)
    ensures n <= |suits|
    ensures n == 0 <==> forall i :: 0 <= i < |suits| ==> |CardsBySuit(cards, suits[i])| == ExpectedPerSuit
  {
    Misses(s => |CardsBySuit(cards, s)|, suits)
  }

  /** Looking at one more suit adds its own error, if any. */
  lemma SuitErrorsStep(cards: seq<Card>, suits: seq<Suit>, i: nat)
    requires i < |suits|
    ensures SuitErrors(cards, suits[..i + 1])
            == SuitErrors(cards, suits[..i]) + Penalty(|CardsBySuit(cards, suits[i])| == ExpectedPerSuit)
  {
    assert suits[..i + 1][..i] == suits[..i];
  }

  /** The error count of the checks before the required-field check. */
  function CountErrors(cards: seq<Card>): nat {
    Penalty(|cards| == ExpectedTotal)
    + Penalty(|MajorArcana(cards)| == ExpectedMajor)
    + Penalty(|MinorArcana(cards)| == ExpectedMinor)
  }

  /** The script's final error count. */
  function ErrorCount(cards: seq<Card>): nat {
    CountErrors(cards)
    + SuitErrors(cards, Suits)
    + |MissingFields(cards)|
    + Penalty(|Ids(cards)| == |Elements(Ids(cards))|)
    + |InvalidPaths(cards)|
    + |InvalidSuits(cards)|
  }

  /** How much each check can add: at most 1 for each of checks 1 to 3,
      at most 4 for the suit counts, at most 5 per card for the required
      fields, and one per offending card for the image and suit checks. */
  lemma ErrorCountBounds(cards: seq<Card>)
    ensures CountErrors(cards) <= 3 && SuitErrors(cards, Suits) <= 4
    ensures |MissingFields(cards)| <= 5 * |cards|
    ensures |InvalidPaths(cards)| <= |cards| && |InvalidSuits(cards)| <= |MinorArcana(cards)|
    ensures ErrorCount(cards) <= 8 + 7 * |cards|
  {
  }

  /** A catalogue as the checks describe it: 78 cards, 22 major and 56
      minor, 14 of each suit, no empty required field, distinct ids, every
      image under "/cards/", and a suit on every minor card. The counts are
      the lengths of the catalogue queries the script compares; the other
      conditions are stated card by card rather than through the script's
      lists. */
  predicate CatalogueValid(cards: seq<Card>) {
    && |cards| == ExpectedTotal
    && |MajorArcana(cards)| == ExpectedMajor
    && |MinorArcana(cards)| == ExpectedMinor
    && (forall s: Suit :: |CardsBySuit(cards, s)| == ExpectedPerSuit)
    && (forall c :: c in cards ==> RequiredFieldsPresent(c))
    && Distinct(Ids(cards))
    && (forall c :: c in cards ==> StartsWith(c.imageUrl, ImagePrefix))
    && (forall c :: c in cards && c.kind == Minor ==> c.suit.Some?)
  }

  /** A list is empty exactly when nothing is a member of it. */
  lemma EmptyIffNoMember(r: seq<Card>)
    ensures r == [] <==> forall c :: c !in r
  {
    if r != [] {
      assert r[0] in r;
    }
  }

  /** Check 4 passes exactly when every suit has 14 cards. */
  lemma SuitCheckPasses(cards: seq<Card>)
    ensures SuitErrors(cards, Suits) == 0 <==> forall s: Suit :: |CardsBySuit(cards, s)| == ExpectedPerSuit
  {
    if SuitErrors(cards, Suits) == 0 {
      forall s: Suit ensures |CardsBySuit(cards, s)| == ExpectedPerSuit {
        match s
        case Wands => assert Suits[0] == s;
        case Cups => assert Suits[1] == s;
        case Swords => assert Suits[2] == s;
        case Pentacles => assert Suits[3] == s;
      }
    }
  }

  /** Check 7 passes exactly when every image is under "/cards/". */
  lemma PathCheckPasses(cards: seq<Card>)
    ensures InvalidPaths(cards) == [] <==> forall c :: c in cards ==> StartsWith(c.imageUrl, ImagePrefix)
  {
    EmptyIffNoMember(InvalidPaths(cards));
  }

  /** Check 8 passes exactly when every minor card has a suit. */
  lemma MinorSuitCheckPasses(cards: seq<Card>)
    ensures InvalidSuits(cards) == [] <==> forall c :: c in cards && c.kind == Minor ==> c.suit.Some?
  {
    EmptyIffNoMember(InvalidSuits(cards));
  }

  /** The script's verdict: the error count is zero exactly when the
      catalogue is valid. */
  lemma ErrorCountZeroIffValid(cards: seq<Card>)
    ensures ErrorCount(cards) == 0 <==> CatalogueValid(cards)
  {
    UniqueIdsIffDistinct(Ids(cards));
    SuitCheckPasses(cards);
    PathCheckPasses(cards);
    MinorSuitCheckPasses(cards);
  }

  /** Every card of a valid catalogue is the one `getCardById` returns for
      its id. */
  lemma ValidCatalogueLookup(cards: seq<Card>, c: Card)
    requires CatalogueValid(cards) && c in cards
    ensures FindCard(cards, c.id) == Some(c)
  {
    FindCardOfMember(cards, c);
  }

  /** A card occurs in exactly one suit's list when it has a suit, and in
      none otherwise. */
  lemma SuitsCover(cards: seq<Card>, c: Card)
    ensures multiset(CardsBySuit(cards, Wands))[c] + multiset(CardsBySuit(cards, Cups))[c]
            + multiset(CardsBySuit(cards, Swords))[c] + multiset(CardsBySuit(cards, Pentacles))[c]
            == if c.suit.Some? then multiset(cards)[c] else 0
  {
    CardsBySuitCounts(cards, Wands);
    CardsBySuitCounts(cards, Cups);
    CardsBySuitCounts(cards, Swords);
    CardsBySuitCounts(cards, Pentacles);
    if c.suit.Some? {
      match c.suit.value
      case Wands =>
      case Cups =>
      case Swords =>
      case Pentacles =>
    }
  }

  /** The cards of the four suits taken together, as a multiset. */
  function SuitedCards(cards: seq<Card>): (m: multiset<Card>)
    ensures forall c :: m[c] == if c.suit.Some? then multiset(cards)[c] else 0
    ensures |m| == |CardsBySuit(cards, Wands)| + |CardsBySuit(cards, Cups)|
                   + |CardsBySuit(cards, Swords)| + |CardsBySuit(cards, Pentacles)|
  {
    var m := multiset(CardsBySuit(cards, Wands)) + multiset(CardsBySuit(cards, Cups))
             + multiset(CardsBySuit(cards, Swords)) + multiset(CardsBySuit(cards, Pentacles));
    assert forall c :: m[c] == if c.suit.Some? then multiset(cards)[c] else 0 by {
      forall c ensures m[c] == if c.suit.Some? then multiset(cards)[c] else 0 {
        SuitsCover(cards, c);
      }
    }
    m
  }

  /** A sub-multiset as large as the whole is the whole. */
  lemma SameSizeSubmultiset<T>(a: multiset<T>, b: multiset<T>)
    requires a <= b && |a| == |b|
    ensures a == b
  {
    var extra := b - a;
    assert b == a + extra;
  }

  /** When every minor card has a suit and the four suits together are as
      many as the minor cards, a card has a suit exactly when it is minor. */
  lemma SuitsAreMinor(cards: seq<Card>)
    requires forall c :: c in cards && c.kind == Minor ==> c.suit.Some?
    requires |CardsBySuit(cards, Wands)| + |CardsBySuit(cards, Cups)| + |CardsBySuit(cards, Swords)|
             + |CardsBySuit(cards, Pentacles)| == |MinorArcana(cards)|
    ensures forall c :: c in cards ==> (c.suit.Some? <==> c.kind == Minor)
  {
    var minor := multiset(MinorArcana(cards));
    var suited := SuitedCards(cards);
    forall c ensures minor[c] <= suited[c] {
      if c.kind == Minor && multiset(cards)[c] > 0 {
        assert c in cards;
      }
    }
    SameSizeSubmultiset(minor, suited);
    forall c | c in cards ensures c.suit.Some? ==> c.kind == Minor {
      assert multiset(cards)[c] > 0;
      assert minor[c] == suited[c];
    }
  }

  /** In a valid catalogue the four suits hold exactly the minor cards: the
      56 minor cards all have a suit and the four suits have 56 places, so
      no major card can carry a suit. */
  lemma ValidCatalogueSuitsAreMinor(cards: seq<Card>)
    requires CatalogueValid(cards)
    ensures forall c :: c in cards ==> (c.suit.Some? <==> c.kind == Minor)
  {
    SuitsAreMinor(cards);
  }

  /** Checks 1 to 3: the total, the major and the minor counts. */
  method CheckCounts(cards: seq<Card>) returns (errors: nat)
    ensures errors == CountErrors(cards)
    ensures errors == 0 <==> |cards| == ExpectedTotal && |MajorArcana(cards)| == ExpectedMajor
                             && |MinorArcana(cards)| == ExpectedMinor
  {
    errors := 0;
    if |cards| != ExpectedTotal {
      errors := errors + 1;
    }
    var majorCards := MajorArcana(cards);
    if |majorCards| != ExpectedMajor {
      errors := errors + 1;
    }
    var minorCards := MinorArcana(cards);
    if |minorCards| != ExpectedMinor {
      errors := errors + 1;
    }
  }

  /** Check 4, the loop over the four suits: one error per suit without
      14 cards. */
  method CheckSuits(cards: seq<Card>, suits: seq<Suit>) returns (errors: nat)
    ensures errors == SuitErrors(cards, suits)
  {
    errors := 0;
    var i := 0;
    while i < |suits|
      invariant 0 <= i <= |suits|
      invariant errors == SuitErrors(cards, suits[..i])
    {
      var size := |CardsBySuit(cards, suits[i])|;
      if size != ExpectedPerSuit {
        errors := errors + 1;
      }
      SuitErrorsStep(cards, suits, i);
      i := i + 1;
    }
    assert suits[..|suits|] == suits;
  }

  /** Check 5, the loop collecting the messages of the required-field
      check. */
  method CollectMissingFields(cards: seq<Card>) returns (missing: seq<string>)
    ensures missing == MissingFields(cards)
  {
    missing := [];
    var k := 0;
    while k < |cards|
      invariant 0 <= k <= |cards|
      invariant missing == MissingFields(cards[..k])
    {
      assert cards[..k + 1][..k] == cards[..k];
      missing := missing + CardMissingFields(cards[k]);
      k := k + 1;
    }
    assert cards[..|cards|] == cards;
  }

  /** Check 6: one error when some id repeats, with the repeated ids
      listed; there are as many of them as the reported number. */
  method CheckDuplicateIds(cards: seq<Card>) returns (errors: nat, duplicates: seq<string>)
    ensures errors == Penalty(|Ids(cards)| == |Elements(Ids(cards))|)
    ensures errors == 0 <==> Distinct(Ids(cards))
    ensures duplicates == (if Distinct(Ids(cards)) then [] else Duplicates(Ids(cards)))
    ensures |duplicates| == |cards| - |Elements(Ids(cards))|
  {
    var ids := Ids(cards);
    UniqueIdsIffDistinct(ids);
    DuplicatesCount(ids);
    if |ids| == |Elements(ids)| {
      errors := 0;
      duplicates := [];
    } else {
      errors := 1;
      duplicates := Duplicates(ids);
    }
  }

  /** The script, run over `cards`: the checks in order, then the exit
      code. */
  method ValidateCards(cards: seq<Card>)
    returns (errorCount: nat, missing: seq<string>, duplicates: seq<string>, exitCode: int)
    ensures errorCount == ErrorCount(cards)
    ensures missing == MissingFields(cards)
    ensures duplicates == (if Distinct(Ids(cards)) then [] else Duplicates(Ids(cards)))
    ensures |duplicates| == |cards| - |Elements(Ids(cards))|
    ensures exitCode == 0 <==> CatalogueValid(cards)
    ensures exitCode == (if errorCount == 0 then 0 else 1)
  {
    errorCount := CheckCounts(cards);
    var suitErrors := CheckSuits(cards, Suits);
    errorCount := errorCount + suitErrors;
    missing := CollectMissingFields(cards);
    errorCount := errorCount + |missing|;
    var duplicateErrors;
    duplicateErrors, duplicates := CheckDuplicateIds(cards);
    errorCount := errorCount + duplicateErrors;
    errorCount := errorCount + |InvalidPaths(cards)|;
    errorCount := errorCount + |InvalidSuits(cards)|;
    ErrorCountZeroIffValid(cards);
    exitCode := if errorCount == 0 then 0 else 1;
  }
}
