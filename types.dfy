/** The data model of src/types/index.ts: the enumerations, the card record,
    the reading record and the category table. */
module Types {
  import opened Wrappers

  /** `CardType`: 'major' | 'minor'. */
  datatype CardType = Major | Minor

  /** `Suit`: 'wands' | 'cups' | 'swords' | 'pentacles'. */
  datatype Suit = Wands | Cups | Swords | Pentacles

  /** `Orientation`: 'upright' | 'reversed'. */
  datatype Orientation = Upright | Reversed

  /** `Category`: 'love' | 'career' | 'relationship' | 'finance' | 'etc'. */
  datatype Category = Love | Career | Relationship | Finance | Etc

  /** A tarot card. `suit` and `number` are the optional fields of the record. */
  datatype Card = Card(
    id: string,
    name: string,
    kind: CardType,
    suit: Option<Suit>,
    number: Option<int>,
    imageUrl: string,
    meaningUpright: string,
    meaningReversed: string,
    keywords: seq<string>)

  /** A reading as the client keeps it; `userId` and `saved` are optional. */
  datatype Reading = Reading(
    id: string,
    userId: Option<string>,
    category: Category,
    concern: string,
    card: Card,
    orientation: Orientation,
    interpretation: string,
    createdAt: string,
    saved: Option<bool>)

  /** The wire spelling of a category. */
  function CategoryName(c: Category): string {
    match c
    case Love => "love"
    case Career => "career"
    case Relationship => "relationship"
    case Finance => "finance"
    case Etc => "etc"
  }

  /** The wire spelling of a suit. */
  function SuitName(s: Suit): string {
    match s
    case Wands => "wands"
    case Cups => "cups"
    case Swords => "swords"
    case Pentacles => "pentacles"
  }

  /** Distinct suits have distinct wire names. */
  lemma SuitNameInjective(a: Suit, b: Suit)
    requires SuitName(a) == SuitName(b)
    ensures a == b
  {
  }

  /** Distinct categories have distinct wire names. */
  lemma CategoryNameInjective(a: Category, b: Category)
    requires CategoryName(a) == CategoryName(b)
    ensures a == b
  {
  }

  datatype CategoryInfo = CategoryInfo(value: Category, labelText: string, description: string)

  /** `CATEGORIES`: the category table shown to the user. */
  const CATEGORIES: seq<CategoryInfo> := [
    CategoryInfo(Love, "연애", "사랑과 연애에 관한 고민"),
    CategoryInfo(Career, "취업/이직", "직업과 커리어에 관한 고민"),
    CategoryInfo(Relationship, "인간관계", "대인관계에 관한 고민"),
    CategoryInfo(Finance, "재정", "금전과 재정에 관한 고민"),
    CategoryInfo(Etc, "기타", "그 외 일상의 고민")
  ]

  /** The entry of `CATEGORIES` for a category: there is exactly one, and the
      table lists the categories in declaration order. */
  function CategoryIndex(c: Category): (i: nat)
    ensures i < |CATEGORIES| && CATEGORIES[i].value == c
    ensures forall j :: 0 <= j < |CATEGORIES| && CATEGORIES[j].value == c ==> j == i
  {
    match c
    case Love => 0
    case Career => 1
    case Relationship => 2
    case Finance => 3
    case Etc => 4
  }

  /** The two decimal digits of a card number, as in "major-00" or "wands-14". */
  function TwoDigits(n: nat): (r: string)
    requires n < 100
    ensures |r| == 2 && '0' <= r[0] <= '9' && '0' <= r[1] <= '9'
    ensures (r[0] as int - '0' as int) * 10 + (r[1] as int - '0' as int) == n
  {
    [(n / 10 + '0' as int) as char, (n % 10 + '0' as int) as char]
  }

  /** The part of a card id before the dash: "major" or the suit's name. */
  function IdPrefix(kind: CardType, suit: Option<Suit>): string {
    if kind == Major || suit.None? then "major" else SuitName(suit.value)
  }

  /** A card as the record's comments describe it: it has a suit exactly when
      it is a minor card, its number is 0..21 (major) or 1..14 (minor), and
      its id is the type or suit, a dash and the two-digit number. */
  predicate WellFormedCard(c: Card) {
    && (c.suit.Some? <==> c.kind == Minor)
    && c.number.Some?
    && (if c.kind == Major then 0 <= c.number.value <= 21 else 1 <= c.number.value <= 14)
    && c.id == IdPrefix(c.kind, c.suit) + "-" + TwoDigits(c.number.value)
  }

  /** The id of a well-formed card determines its type, suit and number. */
  lemma WellFormedIdDetermines(a: Card, b: Card)
    requires WellFormedCard(a) && WellFormedCard(b) && a.id == b.id
    ensures a.kind == b.kind && a.suit == b.suit && a.number == b.number
  {
    var pa, pb := IdPrefix(a.kind, a.suit), IdPrefix(b.kind, b.suit);
    var da, db := TwoDigits(a.number.value), TwoDigits(b.number.value);
    assert a.id[..|a.id| - 3] == pa && a.id[|a.id| - 2..] == da;
    assert b.id[..|b.id| - 3] == pb && b.id[|b.id| - 2..] == db;
    assert pa == pb && da == db;
  }
}
