/** One game of Blackjack: a deck and the dealer's and player's hands,
    the dealing operations that move cards from the deck into a hand, the
    dealer's draw rule and the resolution of the round. */
module Blackjack {
  import opened Cards
  import opened Decks
  import opened HandRules

  /** The largest of `values`, or 0 when none is positive: the loop the
      game runs over a hand's candidate totals. */
  method HighestValue(values: seq<int>) returns (best: int)
    ensures best >= 0
    ensures forall v :: v in values ==> v <= best
    ensures best == 0 || best in values
  {
    best := 0;
    for k := 0 to |values|
      invariant best >= 0
      invariant forall v :: v in values[..k] ==> v <= best
      invariant best == 0 || best in values[..k]
    {
      assert values[..k + 1] == values[..k] + [values[k]];
      if values[k] > best {
        best := values[k];
      }
    }
    assert values[..|values|] == values;
  }

  class BlackjackModel {
    var dealerCards: seq<Card>
    var playerCards: seq<Card>
    var deck: Deck

    /** No card is held twice across the deck and the two hands. */
    ghost predicate RoundDistinct()
      reads this, deck
    {
      && Distinct(deck.cards) && Distinct(playerCards) && Distinct(dealerCards)
      && Disjoint(deck.cards, playerCards) && Disjoint(deck.cards, dealerCards)
      && Disjoint(playerCards, dealerCards)
    }

    /** Empty hands and a new, unshuffled deck. */
    constructor()
      ensures dealerCards == [] && playerCards == []
      ensures fresh(deck) && deck.cards == FullDeck()
      ensures RoundDistinct()
    {
      dealerCards := [];
      playerCards := [];
      deck := new Deck();
    }

    /** A copy of the dealer's hand. */
    method GetDealerCards() returns (hand: seq<Card>)
      ensures hand == dealerCards
    {
      hand := dealerCards;
    }

    method SetDealerCards(hand: seq<Card>)
      modifies this
      ensures dealerCards == hand
      ensures playerCards == old(playerCards) && deck == old(deck)
    {
      dealerCards := hand;
    }

    /** A copy of the player's hand. */
    method GetPlayerCards() returns (hand: seq<Card>)
      ensures hand == playerCards
    {
      hand := playerCards;
    }

    method SetPlayerCards(hand: seq<Card>)
      modifies this
      ensures playerCards == hand
      ensures dealerCards == old(dealerCards) && deck == old(deck)
    {
      playerCards := hand;
    }

    method GetDeck() returns (d: Deck)
      ensures d == deck
    {
      d := deck;
    }

    method SetDeck(d: Deck)
      modifies this
      ensures deck == d
      ensures dealerCards == old(dealerCards) && playerCards == old(playerCards)
    {
      deck := d;
    }

    /** Replaces the deck by a new one shuffled with the generator's draws;
        the hands are left as they are. */
    method CreateAndShuffleDeck(rng: nat -> nat)
      modifies this
      ensures fresh(deck) && deck.cards == Shuffled(FullDeck(), rng, 52)
      ensures |deck.cards| == 52 && Distinct(deck.cards)
      ensures forall c: Card :: c in deck.cards
      ensures dealerCards == old(dealerCards) && playerCards == old(playerCards)
    {
      ShuffledNewDeck(rng);
      deck := new Deck();
      deck.Shuffle(rng);
    }

    /** Empties the dealer's hand and deals it two cards. If the deck runs
        out the deal stops there (`ok` is false): the hand keeps what was
        dealt and the deck is empty. */
    method InitialDealerCards() returns (ok: bool)
      modifies this, deck
      ensures deck == old(deck) && playerCards == old(playerCards)
      ensures ok <==> 2 <= |old(deck.cards)|
      ensures ok ==> dealerCards == old(deck.cards)[..2] && deck.cards == old(deck.cards)[2..]
      ensures ok ==> (dealerCards, deck.cards) == DealCards(old(deck.cards), 2)
      ensures !ok ==> dealerCards == old(deck.cards) && deck.cards == []
      ensures old(Distinct(deck.cards) && Distinct(playerCards) && Disjoint(deck.cards, playerCards))
              ==> RoundDistinct()
    {
      dealerCards := [];
      for i := 0 to 2
        invariant deck == old(deck) && playerCards == old(playerCards)
        invariant i <= |old(deck.cards)|
        invariant dealerCards == old(deck.cards)[..i] && deck.cards == old(deck.cards)[i..]
      {
        var r := deck.DealOneCard();
        if r.DeckEmpty? {
          ok := false;
          if old(Distinct(deck.cards) && Distinct(playerCards) && Disjoint(deck.cards, playerCards)) {
            DealtStayDistinct(old(deck.cards), i, playerCards);
          }
          return;
        }
        dealerCards := dealerCards + [r.card];
      }
      ok := true;
      if old(Distinct(deck.cards) && Distinct(playerCards) && Disjoint(deck.cards, playerCards)) {
        DealtStayDistinct(old(deck.cards), 2, playerCards);
      }
    }

    /** Empties the player's hand and deals it two cards, as the dealer's
        initial deal does. */
    method InitialPlayerCards() returns (ok: bool)
      modifies this, deck
      ensures deck == old(deck) && dealerCards == old(dealerCards)
      ensures ok <==> 2 <= |old(deck.cards)|
      ensures ok ==> playerCards == old(deck.cards)[..2] && deck.cards == old(deck.cards)[2..]
      ensures ok ==> (playerCards, deck.cards) == DealCards(old(deck.cards), 2)
      ensures !ok ==> playerCards == old(deck.cards) && deck.cards == []
      ensures old(Distinct(deck.cards) && Distinct(dealerCards) && Disjoint(deck.cards, dealerCards))
              ==> RoundDistinct()
    {
      playerCards := [];
      for i := 0 to 2
        invariant deck == old(deck) && dealerCards == old(dealerCards)
        invariant i <= |old(deck.cards)|
        invariant playerCards == old(deck.cards)[..i] && deck.cards == old(deck.cards)[i..]
      {
        var r := deck.DealOneCard();
        if r.DeckEmpty? {
          ok := false;
          if old(Distinct(deck.cards) && Distinct(dealerCards) && Disjoint(deck.cards, dealerCards)) {
            DealtStayDistinct(old(deck.cards), i, dealerCards);
          }
          return;
        }
        playerCards := playerCards + [r.card];
      }
      ok := true;
      if old(Distinct(deck.cards) && Distinct(dealerCards) && Disjoint(deck.cards, dealerCards)) {
        DealtStayDistinct(old(deck.cards), 2, dealerCards);
      }
    }

    /** Deals the front card of the deck to the end of the player's hand;
        on an empty deck nothing changes and `ok` is false. */
    method PlayerTakeCard() returns (ok: bool)
      modifies this, deck
      ensures deck == old(deck) && dealerCards == old(dealerCards)
      ensures ok <==> old(deck.cards) != []
      ensures ok ==> playerCards == old(playerCards) + [old(deck.cards)[0]]
                     && deck.cards == old(deck.cards)[1..]
      ensures !ok ==> playerCards == old(playerCards) && deck.cards == []
      ensures old(RoundDistinct()) ==> RoundDistinct()
    {
      var r := deck.DealOneCard();
      ok := r.Dealt?;
      if ok {
        playerCards := playerCards + [r.card];
        if old(RoundDistinct()) {
          TakenStaysDistinct(old(deck.cards), old(playerCards), dealerCards);
        }
      }
    }

    /** Deals the front card of the deck to the end of the dealer's hand;
        on an empty deck nothing changes and `ok` is false. */
    method DealerTakeCard() returns (ok: bool)
      modifies this, deck
      ensures deck == old(deck) && playerCards == old(playerCards)
      ensures ok <==> old(deck.cards) != []
      ensures ok ==> dealerCards == old(dealerCards) + [old(deck.cards)[0]]
                     && deck.cards == old(deck.cards)[1..]
      ensures !ok ==> dealerCards == old(dealerCards) && deck.cards == []
      ensures old(RoundDistinct()) ==> RoundDistinct()
    {
      var r := deck.DealOneCard();
      ok := r.Dealt?;
      if ok {
        dealerCards := dealerCards + [r.card];
        if old(RoundDistinct()) {
          TakenStaysDistinct(old(deck.cards), old(dealerCards), playerCards);
        }
      }
    }

    /** The result of the round for the current hands. */
    method GameAssessment() returns (r: GameResult)
      ensures r == Outcome(playerCards, dealerCards)
    {
      var playerValue := HighestValue(PossibleHandValues(playerCards));
      var dealerValue := HighestValue(PossibleHandValues(dealerCards));
      var player, dealer := AssessHand(playerCards), AssessHand(dealerCards);
      if player.NaturalBlackjack? && !dealer.NaturalBlackjack? {
        r := GameResult.NaturalBlackjack;
      } else if player.NaturalBlackjack? && dealer.NaturalBlackjack? {
        r := Push;
      } else if player.Bust? {
        r := PlayerLost;
      } else if dealer.Bust? {
        r := PlayerWon;
      } else if playerValue > dealerValue {
        r := PlayerWon;
      } else if playerValue < dealerValue {
        r := PlayerLost;
      } else {
        r := Push;
      }
    }

    /** Whether the dealer draws another card: exactly when the dealer's
        best total is below 17, so never once the dealer is bust. */
    method DealerShouldTakeCard() returns (draw: bool)
      ensures draw <==> BestTotal(dealerCards) < 17
      ensures AssessHand(dealerCards).Bust? ==> !draw
    {
      var value := HighestValue(PossibleHandValues(dealerCards));
      // The `contains(Rank.ACE)` branch of src/BlackjackModel.java:263 can
      // never be taken: a list of cards never contains a rank.
      if value >= 18 {
        draw := false;
      } else if value >= 17 {
        draw := false;
      } else {
        draw := true;
      }
    }
  }

  /** After the first `n` cards of a deck without repeats are dealt into a
      hand that was emptied, and the other hand shared nothing with the
      deck, no card is held twice. */
  lemma DealtStayDistinct(deck: seq<Card>, n: nat, other: seq<Card>)
    requires n <= |deck| && Distinct(deck) && Distinct(other) && Disjoint(deck, other)
    ensures Distinct(deck[n..]) && Distinct(deck[..n])
    ensures Disjoint(deck[n..], other) && Disjoint(deck[n..], deck[..n])
    ensures Disjoint(other, deck[..n]) && Disjoint(deck[..n], other)
  {
    DistinctSplit(deck, n);
    forall x | x in deck[n..] ensures x in deck { }
    forall x | x in deck[..n] ensures x in deck { }
  }

  /** Moving the front card of a deck to the end of a hand keeps the deck
      and both hands free of shared or repeated cards. */
  lemma TakenStaysDistinct(deck: seq<Card>, hand: seq<Card>, other: seq<Card>)
    requires deck != []
    requires Distinct(deck) && Distinct(hand) && Distinct(other)
    requires Disjoint(deck, hand) && Disjoint(deck, other) && Disjoint(hand, other)
    ensures Distinct(deck[1..]) && Distinct(hand + [deck[0]])
    ensures Disjoint(deck[1..], hand + [deck[0]]) && Disjoint(deck[1..], other)
    ensures Disjoint(hand + [deck[0]], other) && Disjoint(other, hand + [deck[0]])
  {
    DistinctSplit(deck, 1);
    assert deck[..1] == [deck[0]];
    DistinctAppend(hand, deck[0]);
    forall x | x in deck[1..] ensures x in deck { }
  }
}
