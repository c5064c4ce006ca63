/** The vocabulary flashcards (src/components/VocabularyFlashcards.tsx): 53
    cards in six topics; the deck shows the cards of the chosen topic one at a
    time, Previous and Next move through them, and a click reveals or hides
    the word on the current card. */
module VocabularyFlashcards {
  import opened Common
  import opened Topics

  /** A flashcard: its id and its topic (word, transcription, meanings and
      image are only displayed or spoken, so they are not part of the model). */
  datatype Flashcard = Flashcard(id: string, category: Category)

  /** The ids of `vocabularyData`, in table order. */
  function CardIds(): (ids: seq<string>)
    ensures |ids| == VocabularySize
  {
    ["book", "oneway", "return", "roundtrip", "travelagent", "visa",
     "airline", "economy", "business", "firstclass", "windowseat", "aisleseat",
     "middleseat", "emergencyexit", "fastenseatbelts", "vegetariandish", "water",
     "tea", "coffee", "milk", "juice", "longhaul",
     "checkin", "counter", "boardingpass", "boardingtime", "board", "landing",
     "takeoff", "gate",
     "arrivals", "departures", "ontime", "delayed", "cancelled", "stopover",
     "businesslounge", "informationdesk", "wifi", "phonecharger",
     "luggage", "carryon", "baggageclaim", "oversized", "fragile", "lost",
     "identification", "customs", "connection", "liquids", "declare",
     "nothingtodeclare", "dutyfree"]
  }

  /** `vocabularyData`: the cards topic by topic. */
  function Vocabulary(): (cards: seq<Flashcard>)
    ensures |cards| == VocabularySize
    ensures forall k :: 0 <= k < VocabularySize ==> cards[k].category == CategoryOf(k + 1)
  {
    var ids := CardIds();
    seq(VocabularySize, k requires 0 <= k < VocabularySize => Flashcard(ids[k], CategoryOf(k + 1)))
  }

  /** `vocabularyData.filter(item => item.category === currentCategory)`. */
  function CardsOf(cards: seq<Flashcard>, c: Category): (r: seq<Flashcard>)
    ensures |r| <= |cards|
  {
    if |cards| == 0 then []
    else (if cards[0].category == c then [cards[0]] else []) + CardsOf(cards[1..], c)
  }

  /** The filter keeps exactly the cards of the topic. */
  lemma {:induction false} CardsOfMembers(cards: seq<Flashcard>, c: Category, x: Flashcard)
    ensures x in CardsOf(cards, c) <==> x in cards && x.category == c
  {
    if |cards| > 0 {
      CardsOfMembers(cards[1..], c, x);
      assert cards == [cards[0]] + cards[1..];
    }
  }

  /** The filter keeps the table order: filtering a concatenation filters
      each part. */
  lemma {:induction false} CardsOfAppend(a: seq<Flashcard>, b: seq<Flashcard>, c: Category)
    ensures CardsOf(a + b, c) == CardsOf(a, c) + CardsOf(b, c)
  {
    if |a| > 0 {
      assert (a + b)[1..] == a[1..] + b;
      CardsOfAppend(a[1..], b, c);
    } else {
      assert a + b == b;
    }
  }

  /** A run of cards of one topic passes the filter unchanged. */
  lemma {:induction false} CardsOfAll(s: seq<Flashcard>, c: Category)
    requires forall k :: 0 <= k < |s| ==> s[k].category == c
    ensures CardsOf(s, c) == s
  {
    if |s| > 0 {
      CardsOfAll(s[1..], c);
    }
  }

  /** A run of cards of other topics is filtered out entirely. */
  lemma {:induction false} CardsOfNone(s: seq<Flashcard>, c: Category)
    requires forall k :: 0 <= k < |s| ==> s[k].category != c
    ensures CardsOf(s, c) == []
  {
    if |s| > 0 {
      CardsOfNone(s[1..], c);
    }
  }

  /** When a topic occupies exactly the positions `lo` to `hi - 1`, its cards
      are that slice. */
  lemma CardsOfBlock(s: seq<Flashcard>, c: Category, lo: nat, hi: nat)
    requires lo <= hi <= |s|
    requires forall k :: 0 <= k < |s| ==> (s[k].category == c <==> lo <= k < hi)
    ensures CardsOf(s, c) == s[lo..hi]
  {
    var a, b, d := s[..lo], s[lo..hi], s[hi..];
    assert s == a + b + d;
    CardsOfAppend(a + b, d, c);
    CardsOfAppend(a, b, c);
    CardsOfNone(a, c);
    CardsOfAll(b, c);
    CardsOfNone(d, c);
  }

  /** The number of cards of a topic: what the counter shows after "of". */
  function TopicSize(c: Category): nat {
    match c
    case Booking => 6
    case Airline => 16
    case Checkin => 8
    case Status => 10
    case Luggage => 6
    case Security => 7
  }

  /** Each topic's cards are the block of the table that starts at its first
      word, so every topic has at least one card. */
  lemma TopicCards(c: Category)
    ensures CardsOf(Vocabulary(), c) == Vocabulary()[FirstOf(c) - 1..FirstOf(c) - 1 + TopicSize(c)]
    ensures |CardsOf(Vocabulary(), c)| == TopicSize(c) > 0
  {
    var v := Vocabulary();
    var lo := FirstOf(c) - 1;
    CardsOfBlock(v, c, lo, lo + TopicSize(c));
  }

  /** `currentCards[index]` exists. */
  predicate HasCard(cards: seq<Flashcard>, c: Category, index: int) {
    0 <= index < |CardsOf(cards, c)|
  }

  /** Switching topics keeps the index, so an index that named a card in one
      topic can name none in the next: the sixteenth airline card has no
      booking counterpart. */
  lemma StaleIndex()
    ensures HasCard(Vocabulary(), Airline, 15)
    ensures !HasCard(Vocabulary(), Booking, 15)
  {
    TopicCards(Airline);
    TopicCards(Booking);
  }

  /** The revealed flag after `handleCardClick`: flipped when there is a
      current card, kept otherwise. */
  function Click(revealed: bool, hasCard: bool): bool {
    if hasCard then !revealed else revealed
  }

  /** Two clicks restore the flag. */
  lemma ClickTwice(revealed: bool, hasCard: bool)
    ensures Click(Click(revealed, hasCard), hasCard) == revealed
    ensures hasCard ==> Click(revealed, hasCard) != revealed
  {
  }

  /** The state of the `VocabularyFlashcards` component. */
  class Deck {
    const cards: seq<Flashcard>
    var currentCategory: Category
    var currentCardIndex: int
    var isWordRevealed: bool

    /** The index is never negative and every topic has a card. */
    predicate Valid()
      reads this
    {
      currentCardIndex >= 0 && forall c :: |CardsOf(cards, c)| > 0
    }

    /** `currentCards`. */
    function CurrentCards(): seq<Flashcard>
      reads this
    {
      CardsOf(cards, currentCategory)
    }

    /** `currentCards[currentCardIndex]`, `undefined` when the index is past
        the end. */
    function CurrentCard(): (r: Option<Flashcard>)
      reads this
      ensures r.Some? <==> HasCard(cards, currentCategory, currentCardIndex)
      ensures r.Some? ==> r.value in cards && r.value.category == currentCategory
    {
      if 0 <= currentCardIndex < |CurrentCards()| then
        CardsOfMembers(cards, currentCategory, CurrentCards()[currentCardIndex]);
        Some(CurrentCards()[currentCardIndex])
      else None
    }

    /** The initial state: the first booking card, word hidden. */
    constructor ()
      ensures Valid()
      ensures cards == Vocabulary()
      ensures currentCategory == Booking && currentCardIndex == 0 && !isWordRevealed
      ensures CurrentCard().Some?
    {
      cards := Vocabulary();
      currentCategory := Booking;
      currentCardIndex := 0;
      isWordRevealed := false;
      new;
      forall c ensures |CardsOf(cards, c)| > 0 {
        TopicCards(c);
      }
    }

    /** `handleCardClick`: reveal or hide the word of the current card; with
        no current card nothing changes. */
    method HandleCardClick()
      requires Valid()
      modifies this
      ensures Valid()
      ensures isWordRevealed == Click(old(isWordRevealed), old(CurrentCard()).Some?)
      ensures currentCategory == old(currentCategory) && currentCardIndex == old(currentCardIndex)
    {
      var current := CurrentCard();
      if current.Some? {
        isWordRevealed := !isWordRevealed;
      }
    }

    /** `handleCardChange(newIndex)`: show another card with its word hidden. */
    method HandleCardChange(newIndex: int)
      requires Valid() && newIndex >= 0
      modifies this
      ensures Valid()
      ensures currentCardIndex == newIndex && !isWordRevealed
      ensures currentCategory == old(currentCategory)
    {
      currentCardIndex := newIndex;
      isWordRevealed := false;
    }

    /** The left arrow, disabled on the first card:
        `handleCardChange(Math.max(0, currentCardIndex - 1))`. */
    method Previous()
      requires Valid()
      modifies this
      ensures Valid()
      ensures old(currentCardIndex) == 0 ==>
        currentCardIndex == 0 && isWordRevealed == old(isWordRevealed)
      ensures old(currentCardIndex) > 0 ==>
        currentCardIndex == old(currentCardIndex) - 1 && !isWordRevealed
      ensures old(CurrentCard()).Some? ==> CurrentCard().Some?
      ensures currentCategory == old(currentCategory)
    {
      if currentCardIndex != 0 {
        HandleCardChange(Max0(currentCardIndex - 1));
      }
    }

    /** The right arrow, disabled on the last card:
        `handleCardChange(Math.min(currentCards.length - 1, currentCardIndex + 1))`.
        From any index, including one left over from a larger topic, it ends
        on a card of the current topic. */
    method Next()
      requires Valid()
      modifies this
      ensures Valid()
      ensures old(currentCardIndex) == |CurrentCards()| - 1 ==>
        currentCardIndex == old(currentCardIndex) && isWordRevealed == old(isWordRevealed)
      ensures old(currentCardIndex) < |CurrentCards()| - 1 ==>
        currentCardIndex == old(currentCardIndex) + 1 && !isWordRevealed
      ensures old(currentCardIndex) >= |CurrentCards()| ==>
        currentCardIndex == |CurrentCards()| - 1 && !isWordRevealed
      ensures CurrentCard().Some?
      ensures currentCategory == old(currentCategory)
    {
      var last := |CurrentCards()| - 1;
      if currentCardIndex != last {
        var target := if currentCardIndex + 1 < last then currentCardIndex + 1 else last;
        HandleCardChange(target);
      }
    }

    /** A topic button: `setCurrentCategory(category.id)`. The index and the
        revealed flag stay as they were. */
    method SelectCategory(c: Category)
      requires Valid()
      modifies this
      ensures Valid()
      ensures currentCategory == c
      ensures currentCardIndex == old(currentCardIndex) && isWordRevealed == old(isWordRevealed)
    {
      currentCategory := c;
    }
  }
}
