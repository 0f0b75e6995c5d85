/**
 * The memory matching game (src/components/games/MemoryGame.tsx): a shuffled
 * deck of 16 cards holding 8 emojis twice each, a click handler that turns
 * cards face up, and the resolution step run once two cards are face up.
 */
module Memory {

  /** The eight faces, each dealt twice. */
  const Emojis: seq<string> := [
    "\U{1F3AE}", "\U{1F3AF}", "\U{1F3B2}", "\U{1F3AA}",
    "\U{1F3A8}", "\U{1F3AD}", "\U{1F3AC}", "\U{1F3B8}"
  ]

  const DeckSize: nat := 16

  datatype Card = Card(id: nat, emoji: string, flipped: bool, matched: bool)

  /** `order` is some rearrangement of the emoji list written twice (the random `sort`). */
  predicate IsShuffle(order: seq<string>) {
    multiset(order) == multiset(Emojis + Emojis)
  }

  /** The `map` of `initializeGame`: card `i` shows `order[i]`, face down and unmatched. */
  function Deal(order: seq<string>): seq<Card> {
    seq(|order|, i requires 0 <= i < |order| => Card(i, order[i], false, false))
  }

  /** The faces of a deck, in order. */
  function Faces(deck: seq<Card>): seq<string> {
    seq(|deck|, i requires 0 <= i < |deck| => deck[i].emoji)
  }

  predicate Distinct<T(==)>(s: seq<T>) {
    forall i, j :: 0 <= i < j < |s| ==> s[i] != s[j]
  }

  /** In a sequence without repeats, every element occurs once. */
  lemma {:induction false} DistinctOnce<T>(s: seq<T>, x: T)
    requires Distinct(s) && x in s
    ensures multiset(s)[x] == 1
  {
    assert s == [s[0]] + s[1..];
    if s[0] == x {
      assert x !in s[1..];
    } else {
      DistinctOnce(s[1..], x);
    }
  }

  /**
   * A dealt deck has 16 cards, ids equal to positions, none face up or
   * matched, and each of the 8 emojis on exactly two cards.
   */
  lemma DealIsFair(order: seq<string>)
    requires IsShuffle(order)
    ensures |Deal(order)| == DeckSize
    ensures forall i :: 0 <= i < DeckSize ==> Deal(order)[i].id == i && !Deal(order)[i].flipped && !Deal(order)[i].matched
    ensures forall e :: e in Emojis ==> multiset(Faces(Deal(order)))[e] == 2
    ensures forall e :: e !in Emojis ==> multiset(Faces(Deal(order)))[e] == 0
  {
    assert |order| == |multiset(order)| == |Emojis + Emojis|;
    assert Faces(Deal(order)) == order;
    assert Distinct(Emojis);
    forall e | e in Emojis
      ensures multiset(order)[e] == 2
    {
      DistinctOnce(Emojis, e);
    }
  }

  /** Number of matched cards. */
  function MatchedCount(cards: seq<Card>): (n: nat)
    ensures n <= |cards|
  {
    if cards == [] then 0 else (if cards[0].matched then 1 else 0) + MatchedCount(cards[1..])
  }

  /** Replacing one card changes the matched count by the change of that card alone. */
  lemma {:induction false} MatchedCountUpdate(cards: seq<Card>, i: nat, c: Card)
    requires i < |cards|
    ensures MatchedCount(cards[i := c]) ==
      MatchedCount(cards) - (if cards[i].matched then 1 else 0) + (if c.matched then 1 else 0)
  {
    if i == 0 {
      assert cards[i := c][1..] == cards[1..];
    } else {
      MatchedCountUpdate(cards[1..], i - 1, c);
      assert cards[i := c][1..] == cards[1..][i - 1 := c];
    }
  }

  /** The deck keeps the faces of the deal and card ids equal positions. */
  predicate DeckOk(cards: seq<Card>, deal: seq<string>) {
    IsShuffle(deal) && |cards| == DeckSize && |deal| == DeckSize
    && forall i :: 0 <= i < DeckSize ==> cards[i].id == i && cards[i].emoji == deal[i]
  }

  /**
   * At most two distinct, face-up, unmatched cards are pending; every other
   * face-up card is matched, and every matched card is face up.
   */
  predicate PendingOk(cards: seq<Card>, flippedCards: seq<nat>)
    requires |cards| == DeckSize
  {
    |flippedCards| <= 2 && Distinct(flippedCards)
    && (forall k :: 0 <= k < |flippedCards| ==>
          flippedCards[k] < DeckSize && cards[flippedCards[k]].flipped && !cards[flippedCards[k]].matched)
    && (forall i :: 0 <= i < DeckSize && cards[i].flipped && !cards[i].matched ==> i in flippedCards)
    && (forall i :: 0 <= i < DeckSize && cards[i].matched ==> cards[i].flipped)
  }

  /** The match counter is half the matched cards, no more than the moves, and the game is won at 8. */
  predicate CountsOk(cards: seq<Card>, moves: nat, matches: nat, won: bool) {
    MatchedCount(cards) == 2 * matches && (won <==> matches == |Emojis|) && matches <= moves
  }

  predicate GameOk(cards: seq<Card>, flippedCards: seq<nat>, moves: nat, matches: nat, won: bool, deal: seq<string>) {
    DeckOk(cards, deal) && PendingOk(cards, flippedCards) && CountsOk(cards, moves, matches, won)
  }

  /** An accepted click keeps the game consistent. */
  lemma ClickKeepsGameOk(cards: seq<Card>, flippedCards: seq<nat>, moves: nat, matches: nat, won: bool,
                         deal: seq<string>, id: nat)
    requires GameOk(cards, flippedCards, moves, matches, won, deal)
    requires id < DeckSize && |flippedCards| < 2 && id !in flippedCards && !cards[id].matched
    ensures GameOk(cards[id := cards[id].(flipped := true)], flippedCards + [id], moves, matches, won, deal)
  {
    var c := cards[id := cards[id].(flipped := true)];
    MatchedCountUpdate(cards, id, cards[id].(flipped := true));
    assert DeckOk(c, deal);
    assert PendingOk(c, flippedCards + [id]);
  }

  /** Matching the two pending cards keeps the game consistent. */
  lemma MatchKeepsGameOk(cards: seq<Card>, flippedCards: seq<nat>, moves: nat, matches: nat, won: bool,
                         deal: seq<string>)
    requires GameOk(cards, flippedCards, moves, matches, won, deal) && |flippedCards| == 2
    ensures var first, second := flippedCards[0], flippedCards[1];
      GameOk(cards[first := cards[first].(matched := true)][second := cards[second].(matched := true)], [],
             moves + 1, matches + 1, won || matches + 1 == |Emojis|, deal)
  {
    var first, second := flippedCards[0], flippedCards[1];
    var once := cards[first := cards[first].(matched := true)];
    var c := once[second := cards[second].(matched := true)];
    MatchedCountUpdate(cards, first, cards[first].(matched := true));
    MatchedCountUpdate(once, second, cards[second].(matched := true));
    assert DeckOk(c, deal);
    assert PendingOk(c, []);
  }

  /** Turning back two different pending cards keeps the game consistent. */
  lemma MismatchKeepsGameOk(cards: seq<Card>, flippedCards: seq<nat>, moves: nat, matches: nat, won: bool,
                            deal: seq<string>)
    requires GameOk(cards, flippedCards, moves, matches, won, deal) && |flippedCards| == 2
    ensures var first, second := flippedCards[0], flippedCards[1];
      GameOk(cards[first := cards[first].(flipped := false)][second := cards[second].(flipped := false)], [],
             moves + 1, matches, won, deal)
  {
    var first, second := flippedCards[0], flippedCards[1];
    var once := cards[first := cards[first].(flipped := false)];
    var c := once[second := cards[second].(flipped := false)];
    MatchedCountUpdate(cards, first, cards[first].(flipped := false));
    MatchedCountUpdate(once, second, cards[second].(flipped := false));
    assert DeckOk(c, deal);
    assert PendingOk(c, []);
  }

  /** The component's state; `deal` is the face order of the current game. */
  class MemoryGame {
    var cards: seq<Card>
    var flippedCards: seq<nat>
    var moves: nat
    var matches: nat
    var won: bool
    ghost var deal: seq<string>

    ghost predicate Valid()
      reads this
    {
      GameOk(cards, flippedCards, moves, matches, won, deal)
    }

    /** Mounting the component runs `initializeGame` with the shuffle `order`. */
    constructor (order: seq<string>)
      requires IsShuffle(order)
      ensures Valid() && deal == order && cards == Deal(order)
      ensures flippedCards == [] && moves == 0 && matches == 0 && !won
    {
      DealIsFair(order);
      NoneMatched(Deal(order));
      cards := Deal(order);
      flippedCards := [];
      moves := 0;
      matches := 0;
      won := false;
      deal := order;
    }

    /** `initializeGame`: a fresh deal in the order `order`, all counters cleared. */
    method InitializeGame(order: seq<string>)
      requires IsShuffle(order)
      modifies this
      ensures Valid() && deal == order && cards == Deal(order)
      ensures flippedCards == [] && moves == 0 && matches == 0 && !won
    {
      DealIsFair(order);
      NoneMatched(Deal(order));
      cards := Deal(order);
      flippedCards := [];
      moves := 0;
      matches := 0;
      won := false;
      deal := order;
    }

    /**
     * `handleCardClick`: ignored while two cards are face up, or when the card
     * is already pending or matched; otherwise that card alone turns face up
     * and its id joins the pending list.
     */
    method HandleCardClick(cardId: nat)
      requires Valid() && cardId < DeckSize
      modifies this
      ensures Valid() && deal == old(deal)
      ensures moves == old(moves) && matches == old(matches) && won == old(won)
      ensures old(|flippedCards| == 2 || cardId in flippedCards || cards[cardId].matched) ==>
        cards == old(cards) && flippedCards == old(flippedCards)
      ensures !old(|flippedCards| == 2 || cardId in flippedCards || cards[cardId].matched) ==>
        cards == old(cards)[cardId := old(cards)[cardId].(flipped := true)]
        && flippedCards == old(flippedCards) + [cardId]
    {
      if |flippedCards| == 2 || cardId in flippedCards || cards[cardId].matched {
        return;
      }
      ClickKeepsGameOk(cards, flippedCards, moves, matches, won, deal, cardId);
      cards := cards[cardId := cards[cardId].(flipped := true)];
      flippedCards := flippedCards + [cardId];
    }

    /**
     * The effect run when two cards are face up (the delayed turn-back is
     * taken at once): one more move; equal faces become matched, and the game
     * is won at the eighth match; different faces turn back down. Either way
     * the pending list empties. With fewer than two cards up nothing happens.
     */
    method ResolveFlipped()
      requires Valid()
      modifies this
      ensures Valid() && deal == old(deal)
      ensures old(|flippedCards|) != 2 ==>
        cards == old(cards) && flippedCards == old(flippedCards)
        && moves == old(moves) && matches == old(matches) && won == old(won)
      ensures old(|flippedCards|) == 2 ==>
        var first, second := old(flippedCards[0]), old(flippedCards[1]);
        moves == old(moves) + 1 && flippedCards == []
        && if old(cards[first].emoji == cards[second].emoji) then
             cards == old(cards)[first := old(cards[first]).(matched := true)][second := old(cards[second]).(matched := true)]
             && matches == old(matches) + 1
             && won == (old(won) || old(matches) + 1 == |Emojis|)
           else
             cards == old(cards)[first := old(cards[first]).(flipped := false)][second := old(cards[second]).(flipped := false)]
             && matches == old(matches) && won == old(won)
    {
      if |flippedCards| != 2 {
        return;
      }
      var firstCard, secondCard := flippedCards[0], flippedCards[1];
      if cards[firstCard].emoji == cards[secondCard].emoji {
        MatchKeepsGameOk(cards, flippedCards, moves, matches, won, deal);
        moves := moves + 1;
        cards := cards[firstCard := cards[firstCard].(matched := true)][secondCard := cards[secondCard].(matched := true)];
        var before := matches;
        matches := matches + 1;
        flippedCards := [];
        if before + 1 == |Emojis| {
          won := true;
        }
      } else {
        MismatchKeepsGameOk(cards, flippedCards, moves, matches, won, deal);
        moves := moves + 1;
        cards := cards[firstCard := cards[firstCard].(flipped := false)][secondCard := cards[secondCard].(flipped := false)];
        flippedCards := [];
      }
    }
  }

  /** A deck with no matched card has matched count zero. */
  lemma {:induction false} NoneMatched(cards: seq<Card>)
    requires forall i :: 0 <= i < |cards| ==> !cards[i].matched
    ensures MatchedCount(cards) == 0
  {
    if cards != [] {
      NoneMatched(cards[1..]);
    }
  }
}
