/** Queries over the card catalogue. The catalogue itself (src/data/cards)
    is not part of this model: it is passed in as a list, and its helpers
    `getMajorArcana`, `getMinorArcana`, `getCardsBySuit` and `getCardById`
    are taken to be the plain filters and the first-match search below. */
module Cards {
  import opened Wrappers
  import opened Types
  import opened Seqs

  /** `getMajorArcana()`. */
  function MajorArcana(cards: seq<Card>): (r: seq<Card>)
    ensures forall c :: c in r <==> c in cards && c.kind == Major
    ensures forall c :: multiset(r)[c] == if c.kind == Major then multiset(cards)[c] else 0
  {
    FilterCounts(cards, (c: Card) => c.kind == Major);
    Filter(cards, (c: Card) => c.kind == Major)
  }

  /** `getMinorArcana()`. */
  function MinorArcana(cards: seq<Card>): (r: seq<Card>)
    ensures forall c :: c in r <==> c in cards && c.kind == Minor
    ensures forall c :: multiset(r)[c] == if c.kind == Minor then multiset(cards)[c] else 0
  {
    FilterCounts(cards, (c: Card) => c.kind == Minor);
    Filter(cards, (c: Card) => c.kind == Minor)
  }

  /** `getCardsBySuit(suit)`: the cards whose suit is `suit`. */
  function CardsBySuit(cards: seq<Card>, suit: Suit): (r: seq<Card>)
    ensures forall c :: c in r <==> c in cards && c.suit == Some(suit)
  {
    Filter(cards, (c: Card) => c.suit == Some(suit))
  }

  /** `getCardsBySuit(suit)` keeps each card of that suit as often as it
      occurs in the catalogue. */
  lemma CardsBySuitCounts(cards: seq<Card>, suit: Suit)
    ensures forall c :: multiset(CardsBySuit(cards, suit))[c] == if c.suit == Some(suit) then multiset(cards)[c] else 0
  {
    FilterCounts(cards, (c: Card) => c.suit == Some(suit));
  }

  /** Every card is major or minor, so the two groups add up to the whole. */
  lemma MajorMinorPartition(cards: seq<Card>)
    ensures |MajorArcana(cards)| + |MinorArcana(cards)| == |cards|
  {
    FilterSplits(cards, (c: Card) => c.kind == Major, (c: Card) => c.kind == Minor);
  }

  /** `getCardById(id)`: the first card with that id, if any. */
  function FindCard(cards: seq<Card>, id: string): (r: Option<Card>)
    ensures r.Some? ==> r.value in cards && r.value.id == id
    ensures r.None? <==> forall c :: c in cards ==> c.id != id
  {
    if cards == [] then None
    else if cards[0].id == id then Some(cards[0])
    else FindCard(cards[1..], id)
  }

  /** The ids of the cards, in catalogue order (`CARDS.map(card => card.id)`). */
  function Ids(cards: seq<Card>): (r: seq<string>)
    ensures |r| == |cards| && forall i :: 0 <= i < |cards| ==> r[i] == cards[i].id
  {
    seq(|cards|, i requires 0 <= i < |cards| => cards[i].id)
  }

  /** When ids are unique, looking a catalogue card up by its id finds that
      very card. */
  lemma {:induction false} FindCardOfMember(cards: seq<Card>, c: Card)
    requires Distinct(Ids(cards)) && c in cards
    ensures FindCard(cards, c.id) == Some(c)
  {
    if cards[0] != c {
      assert cards[0].id != c.id by {
        var k :| 0 <= k < |cards| && cards[k] == c;
        assert Ids(cards)[0] == cards[0].id && Ids(cards)[k] == c.id;
      }
      assert Ids(cards[1..]) == Ids(cards)[1..];
      FindCardOfMember(cards[1..], c);
    }
  }
}
