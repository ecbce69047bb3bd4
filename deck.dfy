/** The deck: an ordered, mutable list of cards that is built in
    suit-major, rank-minor order, shuffled in place, and dealt from the
    front. */
module Decks {
  import opened Cards

  /** The cards of one suit, one per rank, in rank order. */
  function Row(s: Suit): seq<Card> {
    seq(|Ranks|, j requires 0 <= j < |Ranks| => Card(Ranks[j], s))
  }

  /** The rows of the given suits laid one after another. */
  function Rows(suits: seq<Suit>): seq<Card>
    decreases |suits|
  {
    if suits == [] then [] else Rows(suits[..|suits| - 1]) + Row(suits[|suits| - 1])
  }

  /** The order in which a new deck holds its cards. */
  function FullDeck(): (d: seq<Card>)
    ensures |d| == 52
  {
    RowsLength(Suits);
    Rows(Suits)
  }

  lemma {:induction false} RowsLength(suits: seq<Suit>)
    ensures |Rows(suits)| == 13 * |suits|
    decreases |suits|
  {
    if suits != [] {
      var front := suits[..|suits| - 1];
      RowsLength(front);
      assert |Row(suits[|suits| - 1])| == 13;
      assert |Rows(suits)| == |Rows(front)| + 13;
    }
  }

  /** Within the rows, the card of suit number `si` and rank number `ri`
      sits at position 13 * si + ri. */
  lemma {:induction false} RowsAt(suits: seq<Suit>, si: nat, ri: nat)
    requires si < |suits| && ri < |Ranks|
    ensures |Rows(suits)| == 13 * |suits|
    ensures Rows(suits)[13 * si + ri] == Card(Ranks[ri], suits[si])
    decreases |suits|
  {
    RowsLength(suits);
    var front := suits[..|suits| - 1];
    RowsLength(front);
    if si < |suits| - 1 {
      RowsAt(front, si, ri);
    }
  }

  /** A new deck holds 52 cards, suit-major then rank-minor. */
  lemma FullDeckLayout()
    ensures |FullDeck()| == 52
    ensures forall k :: 0 <= k < |FullDeck()| ==> FullDeck()[k] == Card(Ranks[k % 13], Suits[k / 13])
  {
    RowsLength(Suits);
    forall k | 0 <= k < |FullDeck()|
      ensures FullDeck()[k] == Card(Ranks[k % 13], Suits[k / 13])
    {
      RowsAt(Suits, k / 13, k % 13);
    }
  }

  /** Every (rank, suit) pair is in a new deck. */
  lemma FullDeckComplete()
    ensures forall c: Card :: c in FullDeck()
  {
    forall c: Card
      ensures c in FullDeck()
    {
      RowsAt(Suits, SuitIndex(c.suit), RankIndex(c.rank));
    }
  }

  lemma OrdinalsOfRanksAndSuits()
    ensures forall k :: 0 <= k < |Ranks| ==> RankIndex(Ranks[k]) == k
    ensures forall k :: 0 <= k < |Suits| ==> SuitIndex(Suits[k]) == k
  {
  }

  /** A new deck holds no card twice. */
  lemma FullDeckDistinct()
    ensures Distinct(FullDeck())
  {
    FullDeckLayout();
    forall i, j | 0 <= i < j < |FullDeck()|
      ensures FullDeck()[i] != FullDeck()[j]
    {
      OrdinalsOfRanksAndSuits();
      assert i % 13 != j % 13 || i / 13 != j / 13;
    }
  }

  /** `s` with the elements at `i` and `j` exchanged. */
  function Swap<T>(s: seq<T>, i: nat, j: nat): (r: seq<T>)
    requires i < |s| && j < |s|
    ensures |r| == |s|
  {
    s[i := s[j]][j := s[i]]
  }

  lemma SwapPermutes<T>(s: seq<T>, i: nat, j: nat)
    requires i < |s| && j < |s|
    ensures |Swap(s, i, j)| == |s|
    ensures multiset(Swap(s, i, j)) == multiset(s)
    ensures Distinct(s) ==> Distinct(Swap(s, i, j))
  {
    var r := Swap(s, i, j);
    if Distinct(s) {
      forall a, b | 0 <= a < b < |r|
        ensures r[a] != r[b]
      {
        var a' := if a == i then j else if a == j then i else a;
        var b' := if b == i then j else if b == j then i else b;
        assert r[a] == s[a'] && r[b] == s[b'];
      }
    }
  }

  /** The list shuffle of the Java collections library applied to the last
      `i` positions of `s`: for i, i - 1, ..., 2 it exchanges the element at
      i - 1 with one at a position below i. `rng(k) % i` stands for the k-th
      `nextInt(i)` the random generator yields; every position below i is a
      possible answer. Whatever the generator yields, the length stays and
      a sequence without repeats stays without repeats. */
  function Shuffled<T>(s: seq<T>, rng: nat -> nat, i: nat): (r: seq<T>)
    requires i <= |s|
    ensures |r| == |s|
    ensures Distinct(s) ==> Distinct(r)
    decreases i
  {
    if i <= 1 then s
    else
      var j := rng(|s| - i) % i;
      SwapPermutes(s, i - 1, j);
      Shuffled(Swap(s, i - 1, j), rng, i - 1)
  }

  /** Whatever the generator yields, a shuffle keeps the multiset. */
  lemma {:induction false} ShuffledPermutes<T>(s: seq<T>, rng: nat -> nat, i: nat)
    requires i <= |s|
    ensures multiset(Shuffled(s, rng, i)) == multiset(s)
    decreases i
  {
    if i > 1 {
      var j := rng(|s| - i) % i;
      SwapPermutes(s, i - 1, j);
      ShuffledPermutes(Swap(s, i - 1, j), rng, i - 1);
    }
  }

  /** Dealing `n` cards one at a time from the front of `s`: the cards
      dealt, in deal order, and the cards left. */
  function DealCards(s: seq<Card>, n: nat): (r: (seq<Card>, seq<Card>))
    requires n <= |s|
    ensures r.0 == s[..n] && r.1 == s[n..]
  {
    if n == 0 then ([], s)
    else
      var (dealt, rest) := DealCards(s[1..], n - 1);
      ([s[0]] + dealt, rest)
  }

  /** From a deck without repeats, n deals give n different cards that are
      no longer in the deck, and n fewer cards remain. */
  lemma DealCardsDistinct(s: seq<Card>, n: nat)
    requires n <= |s| && Distinct(s)
    ensures DealCards(s, n).0 + DealCards(s, n).1 == s
    ensures |DealCards(s, n).0| == n && |DealCards(s, n).1| == |s| - n
    ensures Distinct(DealCards(s, n).0) && Distinct(DealCards(s, n).1)
    ensures Disjoint(DealCards(s, n).0, DealCards(s, n).1)
  {
    DistinctSplit(s, n);
    assert s[..n] + s[n..] == s;
  }

  /** A shuffled deck without repeats deals n pairwise different cards and
      keeps the other |s| - n; each card of the deck is in exactly one of
      the two. */
  lemma DealFromShuffled(s: seq<Card>, rng: nat -> nat, n: nat)
    requires Distinct(s) && n <= |s|
    ensures var d := Shuffled(s, rng, |s|);
      && |DealCards(d, n).0| == n && |DealCards(d, n).1| == |s| - n
      && Distinct(DealCards(d, n).0)
      && Disjoint(DealCards(d, n).0, DealCards(d, n).1)
      && forall c :: c in s <==> c in DealCards(d, n).0 || c in DealCards(d, n).1
  {
    var d := Shuffled(s, rng, |s|);
    ShuffledPermutes(s, rng, |s|);
    DealCardsDistinct(d, n);
    var (dealt, rest) := DealCards(d, n);
    forall c
      ensures c in s <==> c in dealt || c in rest
    {
      calc {
        c in s;
        c in multiset(s);
        c in multiset(d);
        c in dealt + rest;
      }
    }
  }

  /** A shuffle keeps exactly the cards it was given. */
  lemma ShuffledSameCards<T>(s: seq<T>, rng: nat -> nat)
    ensures forall c :: c in Shuffled(s, rng, |s|) <==> c in s
  {
    var d := Shuffled(s, rng, |s|);
    ShuffledPermutes(s, rng, |s|);
    forall c
      ensures c in d <==> c in s
    {
      assert c in s <==> c in multiset(s);
    }
  }

  /** A new deck, shuffled, holds each of the 52 cards once. */
  lemma ShuffledNewDeck(rng: nat -> nat)
    ensures var d := Shuffled(FullDeck(), rng, 52);
      |d| == 52 && Distinct(d) && forall c: Card :: c in d
  {
    FullDeckDistinct();
    FullDeckComplete();
    ShuffledSameCards(FullDeck(), rng);
  }

  /** A new deck, shuffled, deals n pairwise different cards and keeps the
      other 52 - n; every card of the 52 is in exactly one of the two. */
  lemma DealFromNewDeck(rng: nat -> nat, n: nat)
    requires n <= 52
    ensures var d := Shuffled(FullDeck(), rng, 52);
      && |DealCards(d, n).0| == n && |DealCards(d, n).1| == 52 - n
      && Distinct(DealCards(d, n).0)
      && Disjoint(DealCards(d, n).0, DealCards(d, n).1)
      && forall c: Card :: c in DealCards(d, n).0 || c in DealCards(d, n).1
  {
    var full := FullDeck();
    FullDeckDistinct();
    DealFromShuffled(full, rng, n);
    assert forall c :: c in full <==> c in DealCards(Shuffled(full, rng, 52), n).0 || c in DealCards(Shuffled(full, rng, 52), n).1;
    FullDeckComplete();
  }

  /** The deck of one game. */
  class Deck {
    var cards: seq<Card>

    /** Builds the 52 cards with nested loops over the suits and ranks. */
    constructor()
      ensures cards == FullDeck()
      ensures |cards| == 52 && Distinct(cards)
    {
      var built: seq<Card> := [];
      for si := 0 to |Suits|
        invariant built == Rows(Suits[..si])
      {
        for ri := 0 to |Ranks|
          invariant built == Rows(Suits[..si]) + Row(Suits[si])[..ri]
        {
          built := built + [Card(Ranks[ri], Suits[si])];
        }
        assert Suits[..si + 1][..si] == Suits[..si];
      }
      assert Suits[..|Suits|] == Suits;
      cards := built;
      FullDeckLayout();
      FullDeckDistinct();
    }

    /** Reorders the deck in place with the generator's draws. */
    method Shuffle(rng: nat -> nat)
      modifies this
      ensures cards == Shuffled(old(cards), rng, |old(cards)|)
      ensures |cards| == |old(cards)| && multiset(cards) == multiset(old(cards))
      ensures Distinct(old(cards)) ==> Distinct(cards)
    {
      var i: nat := |cards|;
      while i > 1
        invariant i <= |cards| == |old(cards)|
        invariant Shuffled(cards, rng, i) == Shuffled(old(cards), rng, |old(cards)|)
      {
        var j := rng(|cards| - i) % i;
        cards := cards[i - 1 := cards[j]][j := cards[i - 1]];
        i := i - 1;
      }
      ShuffledPermutes(old(cards), rng, |old(cards)|);
    }

    /** Removes and returns the front card; on an empty deck the Java list
        throws an index-out-of-bounds error before anything changes. */
    method DealOneCard() returns (r: DealResult)
      modifies this
      ensures old(cards) == [] ==> r == DeckEmpty && cards == []
      ensures old(cards) != [] ==> r == Dealt(old(cards)[0]) && cards == old(cards)[1..]
      ensures r.Dealt? && Distinct(old(cards)) ==> r.card !in cards
    {
      if cards == [] {
        return DeckEmpty;
      }
      r := Dealt(cards[0]);
      cards := cards[1..];
    }
  }

  /** The outcome of dealing one card: the card, or the error an empty deck
      raises. */
  datatype DealResult = Dealt(card: Card) | DeckEmpty
}
