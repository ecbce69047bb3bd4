/** The pure rules of the game: the candidate totals of a hand under the
    dual-value Ace rule, the classification of a hand, and the resolution
    of a round from the two final hands. */
module HandRules {
  import opened Cards

  datatype HandAssessment = Bust | InsufficientCards | NaturalBlackjack | Normal

  datatype GameResult = PlayerWon | PlayerLost | Push | NaturalBlackjack

  /** The highest total that does not bust. */
  const TwentyOne: int := 21

  /** The total of a hand with every Ace counted as 1: every card adds
      between 1 and 10. */
  function Score(hand: seq<Card>): (s: nat)
    ensures |hand| <= s <= 10 * |hand|
  {
    if hand == [] then 0 else Value(hand[0].rank) + Score(hand[1..])
  }

  /** The number of Aces in a hand. */
  function AceCount(hand: seq<Card>): (a: nat)
    ensures a <= |hand|
    ensures a == 0 <==> forall i :: 0 <= i < |hand| ==> hand[i].rank != Ace
  {
    if hand == [] then 0 else (if hand[0].rank == Ace then 1 else 0) + AceCount(hand[1..])
  }

  /** The total of a hand with every Ace counted as 11: the low total plus
      10 per Ace. */
  function HighAceScore(hand: seq<Card>): (h: nat)
    ensures h == Score(hand) + 10 * AceCount(hand)
  {
    if hand == [] then 0
    else (if hand[0].rank == Ace then 11 else Value(hand[0].rank)) + HighAceScore(hand[1..])
  }

  /** The candidate totals of a hand: the all-low total first, then the
      all-high total when it differs and does not bust. */
  function PossibleHandValues(hand: seq<Card>): (r: seq<int>)
    ensures 1 <= |r| <= 2 && r[0] == Score(hand)
    ensures |r| == 2 <==> 0 < AceCount(hand) && Score(hand) + 10 * AceCount(hand) <= TwentyOne
    ensures |r| == 2 ==> r[1] == Score(hand) + 10 * AceCount(hand) && r[0] < r[1] <= TwentyOne
  {
    var score := Score(hand);
    var highAceScore := HighAceScore(hand);
    [score] + if score != highAceScore && highAceScore <= TwentyOne then [highAceScore] else []
  }

  /** How many of `values` exceed `bound`: none exactly when every value
      is at most `bound`, all exactly when every value exceeds it. */
  function CountAbove(values: seq<int>, bound: int): (n: nat)
    ensures n <= |values|
    ensures n == 0 <==> forall v :: v in values ==> v <= bound
    ensures n == |values| <==> forall v :: v in values ==> v > bound
  {
    if values == [] then 0
    else
      assert values[0] in values;
      assert forall v :: v in values <==> v == values[0] || v in values[1..];
      (if values[0] > bound then 1 else 0) + CountAbove(values[1..], bound)
  }

  predicate HasAce(hand: seq<Card>) {
    exists i :: 0 <= i < |hand| && hand[i].rank == Ace
  }

  /** The hand holds a card other than an Ace that is worth 10. */
  predicate HasTenValue(hand: seq<Card>) {
    exists i :: 0 <= i < |hand| && hand[i].rank != Ace && Value(hand[i].rank) == 10
  }

  /** A natural: exactly two cards, one an Ace and the other worth 10. */
  predicate IsNatural(hand: seq<Card>) {
    && |hand| == 2
    && ((hand[0].rank == Ace && Value(hand[1].rank) == 10)
        || (hand[1].rank == Ace && Value(hand[0].rank) == 10))
  }

  /** Classifies a hand. Bust is tested first, then the card count, then a
      natural. */
  function AssessHand(hand: seq<Card>): (a: HandAssessment)
    ensures a.Bust? <==> Score(hand) > TwentyOne
    ensures a.InsufficientCards? <==> |hand| < 2
    ensures a.NaturalBlackjack? <==> IsNatural(hand)
    ensures a.Normal? <==> 2 <= |hand| && Score(hand) <= TwentyOne && !IsNatural(hand)
  {
    var values := PossibleHandValues(hand);
    var count := |values| - CountAbove(values, TwentyOne);
    if count == 0 then Bust
    else if |hand| < 2 then InsufficientCards
    else if |hand| == 2 && HasAce(hand) && HasTenValue(hand) then HandAssessment.NaturalBlackjack
    else Normal
  }

  /** A hand is bust exactly when every candidate total exceeds 21. */
  lemma BustIffEveryTotalOver(hand: seq<Card>)
    ensures AssessHand(hand).Bust? <==> forall v :: v in PossibleHandValues(hand) ==> v > TwentyOne
  {
    var values := PossibleHandValues(hand);
    if !AssessHand(hand).Bust? {
      assert values[0] in values;
    }
  }

  lemma TwoCardTotals(hand: seq<Card>)
    requires |hand| == 2
    ensures Score(hand) == Value(hand[0].rank) + Value(hand[1].rank)
    ensures AceCount(hand) == (if hand[0].rank == Ace then 1 else 0) + (if hand[1].rank == Ace then 1 else 0)
  {
    var rest := hand[1..];
    assert rest[0] == hand[1] && rest[1..] == [];
    assert Score(rest) == Value(hand[1].rank);
    assert AceCount(rest) == if hand[1].rank == Ace then 1 else 0;
  }

  /** Two Aces are never a natural. */
  lemma TwoAcesAreNotNatural(a: Card, b: Card)
    requires a.rank == Ace && b.rank == Ace
    ensures AssessHand([a, b]) == Normal
  {
    TwoCardTotals([a, b]);
  }

  /** The largest candidate total of a hand: the all-high total when it is
      a candidate, the all-low total otherwise. */
  function BestTotal(hand: seq<Card>): (b: int)
    ensures b in PossibleHandValues(hand)
    ensures forall v :: v in PossibleHandValues(hand) ==> v <= b
    ensures b == if 0 < AceCount(hand) && Score(hand) + 10 * AceCount(hand) <= TwentyOne
                 then Score(hand) + 10 * AceCount(hand) else Score(hand)
  {
    var values := PossibleHandValues(hand);
    values[|values| - 1]
  }

  /** A natural is worth 11 or 21 and counts as 21. */
  lemma NaturalIsTwentyOne(hand: seq<Card>)
    requires IsNatural(hand)
    ensures PossibleHandValues(hand) == [11, 21]
    ensures BestTotal(hand) == TwentyOne
  {
    TwoCardTotals(hand);
  }

  /** The result of a round from the final player and dealer hands. A
      player natural against anything but a dealer natural wins at the
      natural rate; two naturals push; a busted player loses whatever the
      dealer holds; otherwise a busted dealer loses; otherwise the larger
      best total wins and equal totals push. */
  function Outcome(player: seq<Card>, dealer: seq<Card>): (r: GameResult)
    ensures r.NaturalBlackjack? <==> IsNatural(player) && !IsNatural(dealer)
    ensures r.PlayerWon? <==>
      && !IsNatural(player) && Score(player) <= TwentyOne
      && (Score(dealer) > TwentyOne || BestTotal(player) > BestTotal(dealer))
    ensures r.PlayerLost? <==>
      || Score(player) > TwentyOne
      || (!IsNatural(player) && Score(dealer) <= TwentyOne && BestTotal(player) < BestTotal(dealer))
    ensures r.Push? <==>
      || (IsNatural(player) && IsNatural(dealer))
      || (&& !IsNatural(player) && Score(player) <= TwentyOne && Score(dealer) <= TwentyOne
          && BestTotal(player) == BestTotal(dealer))
  {
    var p, d := AssessHand(player), AssessHand(dealer);
    if p.NaturalBlackjack? && !d.NaturalBlackjack? then GameResult.NaturalBlackjack
    else if p.NaturalBlackjack? && d.NaturalBlackjack? then Push
    else if p.Bust? then PlayerLost
    else if d.Bust? then PlayerWon
    else if BestTotal(player) > BestTotal(dealer) then PlayerWon
    else if BestTotal(player) < BestTotal(dealer) then PlayerLost
    else Push
  }

  /** A player who holds a natural never loses, and against a dealer who
      does not hold one wins at the natural rate. */
  lemma NaturalNeverLoses(player: seq<Card>, dealer: seq<Card>)
    requires IsNatural(player)
    ensures Outcome(player, dealer) == (if IsNatural(dealer) then Push else GameResult.NaturalBlackjack)
  {
  }

  /** A dealer natural does not beat a player's 21 of three or more cards:
      the totals are compared and the round is a push. */
  lemma DealerNaturalPushesAgainstTwentyOne(player: seq<Card>, dealer: seq<Card>)
    requires IsNatural(dealer) && |player| > 2 && BestTotal(player) == TwentyOne
    ensures Outcome(player, dealer) == Push
  {
    NaturalIsTwentyOne(dealer);
  }

  /** The dealer's draw rule: draw while the best total is below 17. A
      busted dealer's best total exceeds 21, so a busted dealer stands. */
  lemma BustedDealerStands(dealer: seq<Card>)
    requires AssessHand(dealer).Bust?
    ensures !(BestTotal(dealer) < 17)
  {
  }

  /** Worked hands: Ace and King, two tens and a five, two Aces and a nine. */
  lemma ExampleHands()
    ensures var h := [Card(Ace, Spades), Card(King, Hearts)];
      PossibleHandValues(h) == [11, 21] && AssessHand(h) == HandAssessment.NaturalBlackjack
    ensures var h := [Card(Ten, Spades), Card(Ten, Hearts), Card(Five, Clubs)];
      PossibleHandValues(h) == [25] && AssessHand(h) == Bust
    ensures var h := [Card(Ace, Spades), Card(Ace, Hearts), Card(Nine, Clubs)];
      PossibleHandValues(h) == [11] && AssessHand(h) == Normal
  {
  }
}
