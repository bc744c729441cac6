/**
 * Cards and decks: the deck that `createDeck` builds, the shuffle that
 * `shuffleDeck` performs, the hand sort that `drawCard` applies, and the
 * multiset algebra that card conservation is stated with.
 */
module Cards {

  /** A card as the card module builds it: `Card(value, suit)` for a standard
      card (value 1..numValues, suit 0..numSuits-1) and `Card(0, 0, true)` for a joker. */
  datatype Card = Card(value: int, suit: int, isJoker: bool)

  // ---------------------------------------------------------------------
  // Reference definition of the deck
  // ---------------------------------------------------------------------

  /** The cards of one value, one per suit, in suit order. */
  function Suits(value: int, numSuits: nat): seq<Card>
  {
    seq(numSuits, suit => Card(value, suit, false))
  }

  /** One deck: values 1..numValues, each in every suit. */
  function OneDeck(numValues: nat, numSuits: nat): seq<Card>
  {
    if numValues == 0 then [] else OneDeck(numValues - 1, numSuits) + Suits(numValues, numSuits)
  }

  /** `numDecks` copies of one deck, one after the other. */
  function Decks(numDecks: nat, numValues: nat, numSuits: nat): seq<Card>
  {
    if numDecks == 0 then [] else Decks(numDecks - 1, numValues, numSuits) + OneDeck(numValues, numSuits)
  }

  function Jokers(numJokers: nat): seq<Card>
  {
    seq(numJokers, _ => Card(0, 0, true))
  }

  /** The deck `createDeck(numDecks, numJokers, numValues, numSuits)` yields. */
  function DeckOf(numDecks: nat, numJokers: nat, numValues: nat, numSuits: nat): seq<Card>
  {
    Decks(numDecks, numValues, numSuits) + Jokers(numJokers)
  }

  /** The parameters of the deck every game uses: two decks of 13 values in 4 suits plus 4 jokers. */
  const NumDecks: nat := 2
  const NumJokers: nat := 4
  const NumValues: nat := 13
  const NumSuits: nat := 4
  const DeckSize: nat := 108

  function FullDeck(): seq<Card>
  {
    DeckOf(NumDecks, NumJokers, NumValues, NumSuits)
  }

  // ---------------------------------------------------------------------
  // createDeck
  // ---------------------------------------------------------------------

  /** Builds the deck with three nested loops over deck, value and suit, then appends the jokers. */
  method CreateDeck(numDecks: nat, numJokers: nat, numValues: nat, numSuits: nat) returns (deck: seq<Card>)
    ensures deck == DeckOf(numDecks, numJokers, numValues, numSuits)
  {
    deck := [];
    var i := 0;
    while i < numDecks
      invariant 0 <= i <= numDecks
      invariant deck == Decks(i, numValues, numSuits)
    {
      var value := 1;
      while value <= numValues
        invariant 1 <= value <= numValues + 1
        invariant deck == Decks(i, numValues, numSuits) + OneDeck(value - 1, numSuits)
      {
        var suit := 0;
        while suit < numSuits
          invariant 0 <= suit <= numSuits
          invariant deck == Decks(i, numValues, numSuits) + OneDeck(value - 1, numSuits) + Suits(value, numSuits)[..suit]
        {
          assert Suits(value, numSuits)[..suit + 1] == Suits(value, numSuits)[..suit] + [Card(value, suit, false)];
          deck := deck + [Card(value, suit, false)];
          suit := suit + 1;
        }
        assert Suits(value, numSuits)[..numSuits] == Suits(value, numSuits);
        value := value + 1;
      }
      i := i + 1;
    }
    var j := 0;
    while j < numJokers
      invariant 0 <= j <= numJokers
      invariant deck == Decks(numDecks, numValues, numSuits) + Jokers(numJokers)[..j]
    {
      assert Jokers(numJokers)[..j + 1] == Jokers(numJokers)[..j] + [Card(0, 0, true)];
      deck := deck + [Card(0, 0, true)];
      j := j + 1;
    }
    assert Jokers(numJokers)[..numJokers] == Jokers(numJokers);
  }

  // ---------------------------------------------------------------------
  // Properties of the deck
  // ---------------------------------------------------------------------

  lemma {:induction false} OneDeckLength(numValues: nat, numSuits: nat)
    ensures |OneDeck(numValues, numSuits)| == numValues * numSuits
  {
    if numValues > 0 {
      OneDeckLength(numValues - 1, numSuits);
      assert (numValues - 1) * numSuits + numSuits == numValues * numSuits;
    }
  }

  lemma {:induction false} DecksLength(numDecks: nat, numValues: nat, numSuits: nat)
    ensures |Decks(numDecks, numValues, numSuits)| == numDecks * numValues * numSuits
  {
    DecksLengthBy(numDecks, numValues, numSuits);
    MulAssoc(numDecks, numValues, numSuits);
  }

  lemma {:induction false} DecksLengthBy(numDecks: nat, numValues: nat, numSuits: nat)
    ensures |Decks(numDecks, numValues, numSuits)| == numDecks * (numValues * numSuits)
  {
    OneDeckLength(numValues, numSuits);
    if numDecks > 0 {
      DecksLengthBy(numDecks - 1, numValues, numSuits);
      MulStep(numDecks - 1, numValues * numSuits);
    }
  }

  lemma MulAssoc(a: nat, b: nat, c: nat)
    ensures a * (b * c) == a * b * c
  {
  }

  /** The deck has exactly numDecks * numValues * numSuits + numJokers cards, and
      the jokers are exactly the last numJokers of them. */
  lemma DeckOfShape(numDecks: nat, numJokers: nat, numValues: nat, numSuits: nat)
    ensures |DeckOf(numDecks, numJokers, numValues, numSuits)| == numDecks * numValues * numSuits + numJokers
    ensures forall k :: 0 <= k < |DeckOf(numDecks, numJokers, numValues, numSuits)| ==>
              (DeckOf(numDecks, numJokers, numValues, numSuits)[k].isJoker <==> k >= numDecks * numValues * numSuits)
    ensures forall k :: numDecks * numValues * numSuits <= k < |DeckOf(numDecks, numJokers, numValues, numSuits)| ==>
              DeckOf(numDecks, numJokers, numValues, numSuits)[k] == Card(0, 0, true)
  {
    DecksLength(numDecks, numValues, numSuits);
    NoJokerInDecks(numDecks, numValues, numSuits);
  }

  lemma {:induction false} NoJokerInDecks(numDecks: nat, numValues: nat, numSuits: nat)
    ensures forall c :: c in Decks(numDecks, numValues, numSuits) ==> !c.isJoker
  {
    if numDecks > 0 {
      NoJokerInDecks(numDecks - 1, numValues, numSuits);
      NoJokerInOneDeck(numValues, numSuits);
    }
  }

  lemma {:induction false} NoJokerInOneDeck(numValues: nat, numSuits: nat)
    ensures forall c :: c in OneDeck(numValues, numSuits) ==> !c.isJoker
  {
    if numValues > 0 {
      NoJokerInOneDeck(numValues - 1, numSuits);
    }
  }

  /** A standard card occurs once in one deck when its value and suit are in range, and not at all otherwise. */
  lemma {:induction false} OneDeckCount(numValues: nat, numSuits: nat, c: Card)
    ensures multiset(OneDeck(numValues, numSuits))[c] ==
              if !c.isJoker && 1 <= c.value <= numValues && 0 <= c.suit < numSuits then 1 else 0
  {
    if numValues > 0 {
      OneDeckCount(numValues - 1, numSuits, c);
      SuitsCount(numValues, numSuits, c);
    }
  }

  lemma SuitsCount(value: int, numSuits: nat, c: Card)
    ensures multiset(Suits(value, numSuits))[c] ==
              if !c.isJoker && c.value == value && 0 <= c.suit < numSuits then 1 else 0
  {
    if numSuits > 0 {
      var s := Suits(value, numSuits);
      assert s == Suits(value, numSuits - 1) + [Card(value, numSuits - 1, false)];
      SuitsCount(value, numSuits - 1, c);
    }
  }

  lemma {:induction false} DecksCount(numDecks: nat, numValues: nat, numSuits: nat, c: Card)
    ensures multiset(Decks(numDecks, numValues, numSuits))[c] ==
              if !c.isJoker && 1 <= c.value <= numValues && 0 <= c.suit < numSuits then numDecks else 0
  {
    if numDecks > 0 {
      DecksCount(numDecks - 1, numValues, numSuits, c);
      OneDeckCount(numValues, numSuits, c);
    }
  }

  lemma JokersCount(numJokers: nat, c: Card)
    ensures multiset(Jokers(numJokers))[c] == if c == Card(0, 0, true) then numJokers else 0
  {
    if numJokers > 0 {
      assert Jokers(numJokers) == Jokers(numJokers - 1) + [Card(0, 0, true)];
      JokersCount(numJokers - 1, c);
    }
  }

  /** Every standard card in range occurs exactly numDecks times, the joker numJokers
      times, and no other card occurs: the deck is a complete set of `numDecks` decks plus jokers. */
  lemma DeckOfCount(numDecks: nat, numJokers: nat, numValues: nat, numSuits: nat, c: Card)
    ensures multiset(DeckOf(numDecks, numJokers, numValues, numSuits))[c] ==
              if c == Card(0, 0, true) then numJokers
              else if !c.isJoker && 1 <= c.value <= numValues && 0 <= c.suit < numSuits then numDecks
              else 0
  {
    DecksCount(numDecks, numValues, numSuits, c);
    JokersCount(numJokers, c);
  }

  lemma FullDeckSize()
    ensures |FullDeck()| == DeckSize
  {
    DeckOfShape(NumDecks, NumJokers, NumValues, NumSuits);
  }

  /** How many copies of `c` the full deck holds. */
  function FullCount(c: Card): nat
  {
    if c == Card(0, 0, true) then NumJokers
    else if !c.isJoker && 1 <= c.value <= NumValues && 0 <= c.suit < NumSuits then NumDecks
    else 0
  }

  /** `d` holds exactly the cards of the full deck, in some order. */
  ghost predicate IsFullDeck(d: seq<Card>)
  {
    |d| == DeckSize && forall c :: multiset(d)[c] == FullCount(c)
  }

  lemma FullDeckIsFull()
    ensures IsFullDeck(FullDeck())
  {
    FullDeckSize();
    forall c ensures multiset(FullDeck())[c] == FullCount(c) {
      DeckOfCount(NumDecks, NumJokers, NumValues, NumSuits, c);
    }
  }

  // ---------------------------------------------------------------------
  // shuffleDeck
  // ---------------------------------------------------------------------

  /** What `Math.floor(Math.random() * deck.length)` can produce on each of the
      `n` iterations of the shuffle loop: the k-th index is below the n - k cards left. */
  ghost predicate RandomIndices(picks: seq<nat>, n: nat)
  {
    |picks| == n && forall k :: 0 <= k < n ==> picks[k] < n - k
  }

  /** Repeatedly removes the card at the chosen index from what is left of the
      input and appends it to the result, until nothing is left. */
  method ShuffleDeck(deck: seq<Card>, picks: seq<nat>) returns (shuffled: seq<Card>)
    requires RandomIndices(picks, |deck|)
    ensures |shuffled| == |deck|
    ensures multiset(shuffled) == multiset(deck)
  {
    var rest := deck;
    shuffled := [];
    while |rest| > 0
      invariant |rest| + |shuffled| == |deck|
      invariant multiset(rest) + multiset(shuffled) == multiset(deck)
    {
      var index := picks[|shuffled|];
      var card := rest[index];
      assert rest == rest[..index] + [card] + rest[index + 1..];
      rest := rest[..index] + rest[index + 1..];
      shuffled := shuffled + [card];
    }
  }

  /** The deck `resetGameState` installs: `shuffleDeck(createDeck(2, 4, 13, 4))`. */
  method NewShuffledDeck(picks: seq<nat>) returns (deck: seq<Card>)
    requires RandomIndices(picks, DeckSize)
    ensures IsFullDeck(deck)
  {
    var ordered := CreateDeck(NumDecks, NumJokers, NumValues, NumSuits);
    FullDeckIsFull();
    deck := ShuffleDeck(ordered, picks);
  }

  // ---------------------------------------------------------------------
  // sortSequence
  // ---------------------------------------------------------------------

  /** The order used by the stand-in for the card module's `sortSequence`:
      standard cards before jokers, then by value, then by suit. */
  predicate CardLeq(a: Card, b: Card)
  {
    if a.isJoker != b.isJoker then !a.isJoker
    else if a.value != b.value then a.value < b.value
    else a.suit <= b.suit
  }

  function Insert(c: Card, s: seq<Card>): (r: seq<Card>)
    ensures multiset(r) == multiset(s) + multiset{c}
    ensures |r| == |s| + 1
  {
    if s == [] || CardLeq(c, s[0]) then [c] + s
    else assert s == [s[0]] + s[1..]; [s[0]] + Insert(c, s[1..])
  }

  /** Stand-in for the hand sort the card module performs after every draw;
      all that the session relies on is that it permutes the hand. */
  function SortSequence(hand: seq<Card>): (r: seq<Card>)
    ensures multiset(r) == multiset(hand)
    ensures |r| == |hand|
  {
    if hand == [] then []
    else
      assert hand == hand[..|hand| - 1] + [hand[|hand| - 1]];
      Insert(hand[|hand| - 1], SortSequence(hand[..|hand| - 1]))
  }

  // ---------------------------------------------------------------------
  // Card conservation
  // ---------------------------------------------------------------------

  /** All the cards held in a sequence of hands. */
  function Total(hands: seq<seq<Card>>): multiset<Card>
  {
    if hands == [] then multiset{} else Total(hands[..|hands| - 1]) + multiset(hands[|hands| - 1])
  }

  lemma MulStep(i: nat, k: nat)
    ensures (i + 1) * k == i * k + k
  {
  }

  /** The deck position where the `i`-th block of `k` cards starts, built up
      block by block. */
  function BlockStart(i: nat, k: nat): nat
  {
    if i == 0 then 0 else BlockStart(i - 1, k) + k
  }

  lemma {:induction false} BlockStartIsProduct(i: nat, k: nat)
    ensures BlockStart(i, k) == i * k
  {
    if i > 0 {
      BlockStartIsProduct(i - 1, k);
      MulStep(i - 1, k);
    }
  }

  lemma {:induction false} BlockStartMono(a: nat, b: nat, k: nat)
    requires a <= b
    ensures BlockStart(a, k) <= BlockStart(b, k)
  {
    if a < b {
      BlockStartMono(a, b - 1, k);
    }
  }

  /** The `k` cards after position `lo`, and what follows them. */
  lemma SliceBlock(deck: seq<Card>, lo: nat, k: nat)
    requires lo + k <= |deck|
    ensures deck[lo..][..k] == deck[lo..lo + k] && deck[lo..][k..] == deck[lo + k..]
  {
  }

  /** Hand `i` holds exactly the `i`-th block of `k` cards of `deck`. */
  ghost predicate HoldsBlock(deck: seq<Card>, hands: seq<seq<Card>>, i: nat, k: nat)
  {
    i < |hands| && BlockStart(i, k) + k <= |deck|
    && multiset(hands[i]) == multiset(deck[BlockStart(i, k)..BlockStart(i, k) + k])
  }

  /** Putting block `i` into hand `i` keeps the blocks of the hands before it. */
  lemma DealBlockStep(deck: seq<Card>, hands: seq<seq<Card>>, i: nat, k: nat, hand: seq<Card>,
                      dealt: seq<seq<Card>>)
    requires i < |hands| && BlockStart(i, k) + k <= |deck|
    requires forall h :: 0 <= h < i ==> |hands[h]| == k && HoldsBlock(deck, hands, h, k)
    requires |hand| == k && multiset(hand) == multiset(deck[BlockStart(i, k)..][..k])
    requires dealt == hands[i := hand]
    ensures forall h :: 0 <= h < i + 1 ==> |dealt[h]| == k && HoldsBlock(deck, dealt, h, k)
  {
    SliceBlock(deck, BlockStart(i, k), k);
  }

  /** Dealing consecutive blocks of `k` cards from the front of a deck into hands:
      together the hands hold exactly the first `|hands|` blocks. */
  lemma {:induction false} DealtBlocks(deck: seq<Card>, hands: seq<seq<Card>>, k: nat)
    requires BlockStart(|hands|, k) <= |deck|
    requires forall i :: 0 <= i < |hands| ==> HoldsBlock(deck, hands, i, k)
    ensures Total(hands) == multiset(deck[..BlockStart(|hands|, k)])
  {
    var n := |hands|;
    if n > 0 {
      var front := hands[..n - 1];
      forall i | 0 <= i < |front|
        ensures HoldsBlock(deck, front, i, k)
      {
        assert HoldsBlock(deck, hands, i, k);
      }
      DealtBlocks(deck, front, k);
      var lo := BlockStart(n - 1, k);
      assert deck[..lo + k] == deck[..lo] + deck[lo..lo + k];
      assert HoldsBlock(deck, hands, n - 1, k);
    }
  }

  /** `hands` were dealt from the front of `before`, `k` cards each and one
      hand after the other, and `after` is what is left: the `i`-th hand holds
      the `i`-th block of `k` cards, and no card was lost or duplicated. */
  ghost predicate Dealt(before: seq<Card>, after: seq<Card>, hands: seq<seq<Card>>, k: nat)
  {
    && BlockStart(|hands|, k) <= |before|
    && after == before[BlockStart(|hands|, k)..]
    && (forall i :: 0 <= i < |hands| ==> |hands[i]| == k && HoldsBlock(before, hands, i, k))
    && multiset(before) == multiset(after) + Total(hands)
  }
}
