# Blackjack rules engine in Dafny

This project models the rules engine of a two-party Blackjack game (dealer
against player): the 52-card deck with its shuffle and front-of-deck deal,
the candidate totals of a hand under the dual-value Ace rule, the
classification of a hand (bust, insufficient cards, natural blackjack,
normal), the dealer's draw rule, the resolution of a round, and the game
session that owns the deck and both hands and deals cards into them.

Four modules, one per component:

- `Cards` (`cards.dfy`): the `Rank`, `Suit` and `Card` value types, the base
  value of a rank, and the "no repeats" and "nothing shared" predicates.
- `Decks` (`deck.dfy`): class `Deck` over a `seq<Card>` field, and the
  functions that specify it: `FullDeck` (the constructor's order),
  `Shuffled` (the list shuffle) and `DealCards` (n deals in a row).
- `HandRules` (`hand_rules.dfy`): the static, read-only rules as functions
  (`PossibleHandValues`, `AssessHand`, `BestTotal`, `Outcome`) and lemmas.
- `Blackjack` (`blackjack_model.dfy`): class `BlackjackModel` with the
  `dealerCards`, `playerCards` and `deck` fields and the session methods.

The dealing methods state their whole new state against the old one. They
also keep the round invariant `RoundDistinct`: no card is held twice across
the deck and the two hands. The two initial deals establish it from a deck
without repeats. Each later deal preserves it.

Java's `Random` is a parameter `rng: nat -> nat`, the stream of values the
generator yields. The shuffle follows the list shuffle of the Java
collections library: for i from the list size down to 2, exchange position
i - 1 with `nextInt(i)`. Here `rng(k) % i` stands for the k-th such draw.
Whatever the draws, the shuffle is proved to be a permutation.

Dealing from an empty deck throws an index-out-of-bounds error in the
source (`src/Deck.java:45`). The model returns `DeckEmpty` and leaves the
deck unchanged. The session methods return `ok == false` and leave the
hands and deck as the exception would: an initial deal that runs out keeps
the cards already dealt.

Two points of the code are easy to misread; the model follows the code:

- The best total used by the dealer's rule and by the comparison is the
  largest candidate total, not the largest one up to 21. The low total is
  always a candidate even above 21. So a busted dealer's best total is above
  21 and the dealer stands. The comparison is only reached when neither hand
  is bust, and then every candidate is at most 21.
- In `dealerShouldTakeCard` the Ace branch (`src/BlackjackModel.java:263-268`)
  asks whether a list of cards contains a rank. No card equals a rank, so the
  branch is never taken. The model leaves it out. What remains is "draw
  exactly when the best total is below 17".

## Model

| member | source | states |
|---|---|---|
| `Cards.Value` | src/BlackjackModel.java:148-154 | a rank's base value is 1 to 10; it is 1 exactly for the Ace and 10 exactly for Ten, Jack, Queen and King |
| `Decks.FullDeckLayout` | src/Deck.java:21-30 | a new deck holds 52 cards; position k holds the rank with ordinal k mod 13 of the suit with ordinal k div 13 (suit-major, rank-minor) |
| `Decks.FullDeckComplete` | src/Deck.java:23-27 | every (rank, suit) pair is in a new deck |
| `Decks.FullDeckDistinct` | src/Deck.java:23-27 | no card occurs twice in a new deck |
| `Decks.Shuffled` | src/Deck.java:35-37 | whatever the generator yields, the shuffle keeps the length and a deck without repeats stays without repeats |
| `Decks.ShuffledPermutes` | src/Deck.java:35-37 | whatever the generator yields, the shuffle keeps the multiset of cards |
| `Decks.ShuffledSameCards` | src/Deck.java:35-37 | a card is in the shuffled deck exactly when it was in the deck before |
| `Decks.ShuffledNewDeck` | src/BlackjackModel.java:90-93 | a new deck, shuffled, has 52 cards, no repeats, and every card |
| `Decks.DealCards` | src/Deck.java:43-48 | n deals from the front give exactly the first n cards in deal order and leave the rest in their old order |
| `Decks.DealCardsDistinct` | src/Deck.java:43-48 | n deals from a deck without repeats give n distinct cards, none of them still in the deck; n fewer remain, in their old order |
| `Decks.DealFromShuffled` | src/Deck.java:35-48 | n deals from a shuffled deck without repeats give n distinct cards; the dealt and the remaining cards are disjoint and together are the deck's cards |
| `Decks.DealFromNewDeck` | src/Deck.java:21-48 | n deals from a new shuffled deck give n distinct cards and leave 52 - n; every card is dealt or remains |
| `Decks.Deck.constructor` | src/Deck.java:21-30 | the nested loops build exactly the new-deck order: 52 cards, no repeats |
| `Decks.Deck.Shuffle` | src/Deck.java:35-37 | the deck becomes the shuffle of its old contents under the draws: same length, same multiset, still without repeats |
| `Decks.Deck.DealOneCard` | src/Deck.java:43-48 | a non-empty deck returns its former first card and keeps the rest in order; an empty deck reports the error and stays empty; from a deck without repeats the dealt card is no longer in it |
| `HandRules.Score` | src/BlackjackModel.java:147-156 | the all-Aces-low total of a hand lies between 1 and 10 per card |
| `HandRules.AceCount` | src/BlackjackModel.java:149-151 | the number of Aces is at most the number of cards, and 0 exactly when no card is an Ace |
| `HandRules.HighAceScore` | src/BlackjackModel.java:147-156 | the total with every Ace at 11 is the low total plus 10 per Ace |
| `HandRules.CountAbove` | src/BlackjackModel.java:176-184 | the count of totals above 21 is at most the number of totals; it is 0 exactly when every total is at most 21 and it is the number of totals exactly when every total exceeds 21 |
| `HandRules.PossibleHandValues` | src/BlackjackModel.java:142-164 | one or two candidate totals; the first is the all-Aces-low total even above 21; a second exists exactly when the hand has an Ace and the all-high total is at most 21, and it is that total, larger than the first |
| `HandRules.AssessHand` | src/BlackjackModel.java:174-203 | BUST exactly when the low total exceeds 21; INSUFFICIENT_CARDS exactly for fewer than two cards; NATURAL_BLACKJACK exactly for two cards, an Ace and a ten-valued card; NORMAL exactly for every other hand of two or more cards that is not bust |
| `HandRules.BustIffEveryTotalOver` | src/BlackjackModel.java:176-187 | a hand is BUST exactly when every candidate total exceeds 21 |
| `HandRules.TwoAcesAreNotNatural` | src/BlackjackModel.java:190-202 | a hand of two Aces is NORMAL, never a natural |
| `HandRules.BestTotal` | src/BlackjackModel.java:215-225 | the best total is a candidate and no candidate exceeds it: the all-high total when it is a candidate, the low total otherwise |
| `HandRules.NaturalIsTwentyOne` | src/BlackjackModel.java:190-200 | a natural has candidate totals 11 and 21 and best total 21 |
| `HandRules.Outcome` | src/BlackjackModel.java:211-244 | NATURAL_BLACKJACK exactly for a player natural against a dealer without one; PLAYER_WON exactly when the player has no natural, is not bust, and the dealer is bust or has the lower best total; PLAYER_LOST exactly when the player is bust or, without a natural, has the lower best total against a dealer who is not bust; PUSH exactly for two naturals or equal best totals with neither bust and no player natural |
| `HandRules.NaturalNeverLoses` | src/BlackjackModel.java:227-232 | a player natural pushes against a dealer natural and wins at the natural rate otherwise |
| `HandRules.DealerNaturalPushesAgainstTwentyOne` | src/BlackjackModel.java:233-243 | a dealer natural against a player 21 of three or more cards is a push |
| `HandRules.BustedDealerStands` | src/BlackjackModel.java:254-273 | a busted dealer's best total is not below 17, so the dealer does not draw |
| `HandRules.ExampleHands` | src/BlackjackModel.java:142-203 | Ace and King give totals 11 and 21 and a natural; 10, 10, 5 gives 25 and bust; Ace, Ace, 9 gives 11 and a normal hand |
| `Blackjack.HighestValue` | src/BlackjackModel.java:215-219 | the loop finds a value that is 0 or one of the totals, at least 0 and no smaller than any total |
| `Blackjack.BlackjackModel.constructor` | src/BlackjackModel.java:22-26 | both hands empty and a new, unshuffled deck; no card held twice |
| `Blackjack.BlackjackModel.GetDealerCards` | src/BlackjackModel.java:33-36 | returns a value equal to the dealer's hand and changes nothing |
| `Blackjack.BlackjackModel.SetDealerCards` | src/BlackjackModel.java:43-45 | the dealer's hand becomes the given cards; the player's hand and the deck are unchanged |
| `Blackjack.BlackjackModel.GetPlayerCards` | src/BlackjackModel.java:52-55 | returns a value equal to the player's hand and changes nothing |
| `Blackjack.BlackjackModel.SetPlayerCards` | src/BlackjackModel.java:62-64 | the player's hand becomes the given cards; the dealer's hand and the deck are unchanged |
| `Blackjack.BlackjackModel.GetDeck` | src/BlackjackModel.java:71-73 | returns the session's deck object |
| `Blackjack.BlackjackModel.SetDeck` | src/BlackjackModel.java:80-82 | the session's deck becomes the given object; the hands are unchanged |
| `Blackjack.BlackjackModel.CreateAndShuffleDeck` | src/BlackjackModel.java:90-93 | the deck becomes a fresh deck shuffled with the draws: 52 cards, no repeats, every card; the hands are unchanged |
| `Blackjack.BlackjackModel.InitialDealerCards` | src/BlackjackModel.java:100-105 | the dealer's hand becomes exactly the deck's first two cards in deal order and the deck loses them, as two deals from the front do; with fewer than two cards the hand gets what there was and the deck is empty; the player's hand is unchanged; no card is held twice afterwards when the deck had no repeats and shared nothing with the player's hand |
| `Blackjack.BlackjackModel.InitialPlayerCards` | src/BlackjackModel.java:112-117 | the same for the player's hand, the dealer's hand unchanged |
| `Blackjack.BlackjackModel.PlayerTakeCard` | src/BlackjackModel.java:122-124 | the deck's former first card is appended to the player's hand and the deck loses it; on an empty deck nothing changes; the dealer's hand is unchanged; no card is held twice if none was before |
| `Blackjack.BlackjackModel.DealerTakeCard` | src/BlackjackModel.java:129-131 | the same for the dealer's hand, the player's hand unchanged |
| `Blackjack.BlackjackModel.GameAssessment` | src/BlackjackModel.java:211-244 | the result for the current hands is the one `HandRules.Outcome` characterises |
| `Blackjack.BlackjackModel.DealerShouldTakeCard` | src/BlackjackModel.java:254-274 | the dealer draws exactly when the best total is below 17, and never when bust |
| `Blackjack.DealtStayDistinct` | src/BlackjackModel.java:100-117 | after an initial deal from a deck without repeats that shares nothing with the other hand, no card is held twice |
| `Blackjack.TakenStaysDistinct` | src/BlackjackModel.java:122-131 | moving the deck's front card to the end of a hand keeps every card held once |

## Left out

- The Java files that declare `Rank`, `Suit` and `Card` are not part of this model. The datatypes in `cards.dfy` stand for them, with a declaration order chosen here (Ace to King; Spades, Hearts, Clubs, Diamonds). The new-deck order is proved in that order.
- The pseudo-random generator is not modelled. Its draws are the parameter `rng`, and `rng(k) % i` stands for `nextInt(i)`.
- `Decks.Deck.DealOneCard`: the copy of the card made at `src/Deck.java:45` is not modelled. Cards are values, so the copy equals the original.
- Java `Integer` overflow is not modelled. A hand can outgrow 52 cards (through the setters, or by taking cards again after a new deck), but each card adds at most 11 to a total, so a total passes the 32-bit limit only for a hand of more than 195 million cards.
- The boxed-`Integer` identity test at `src/BlackjackModel.java:159` is modelled as integer inequality. It only decides anything when the high total is at most 21, and there identity and equality agree.
- The `hand == null` test at `src/BlackjackModel.java:188` is not modelled. Hands are sequences, never null, and a null hand would already fail at line 176.
- `Blackjack.BlackjackModel.DealerShouldTakeCard`: the Ace branch at `src/BlackjackModel.java:263-268` is left out, because a list of cards never contains a rank.
- Aliasing through the setters and `getDeck` is not modelled for hands. Hands are values, so the setters assign a value. The deck stays an object, so `GetDeck`/`SetDeck` share it as in Java.
- Exceptions are modelled as results: `DeckEmpty` from the deal, `ok == false` from the session methods.
- There is no presentation or input layer, betting or multiplayer in the code, so none is modelled.
