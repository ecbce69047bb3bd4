/** Card identity: the rank and suit enumerations and the card value type
    that the deck and the rules engine are built on. Only the facts the
    rules rely on are modelled: a rank's base value and the enumeration
    order used when a fresh deck is built. */
module Cards {

  datatype Suit = Spades | Hearts | Clubs | Diamonds

  datatype Rank = Ace | Two | Three | Four | Five | Six | Seven
                | Eight | Nine | Ten | Jack | Queen | King

  /** An immutable (rank, suit) pair. */
  datatype Card = Card(rank: Rank, suit: Suit)

  /** The suits in declaration order (what `Suit.values()` yields). */
  const Suits: seq<Suit> := [Spades, Hearts, Clubs, Diamonds]

  /** The ranks in declaration order (what `Rank.values()` yields). */
  const Ranks: seq<Rank> :=
    [Ace, Two, Three, Four, Five, Six, Seven, Eight, Nine, Ten, Jack, Queen, King]

  /** The base value of a rank: an Ace counts low (1), number cards their
      face value, and Jack, Queen and King count 10. */
  function Value(r: Rank): (v: nat)
    ensures 1 <= v <= 10
    ensures v == 1 <==> r == Ace
    ensures v == 10 <==> r == Ten || r == Jack || r == Queen || r == King
  {
    match r
    case Ace => 1
    case Two => 2
    case Three => 3
    case Four => 4
    case Five => 5
    case Six => 6
    case Seven => 7
    case Eight => 8
    case Nine => 9
    case Ten => 10
    case Jack => 10
    case Queen => 10
    case King => 10
  }

  /** The position of a rank in `Ranks` (its ordinal). */
  function RankIndex(r: Rank): (i: nat)
    ensures i < |Ranks| && Ranks[i] == r
  {
    match r
    case Ace => 0
    case Two => 1
    case Three => 2
    case Four => 3
    case Five => 4
    case Six => 5
    case Seven => 6
    case Eight => 7
    case Nine => 8
    case Ten => 9
    case Jack => 10
    case Queen => 11
    case King => 12
  }

  /** The position of a suit in `Suits` (its ordinal). */
  function SuitIndex(s: Suit): (i: nat)
    ensures i < |Suits| && Suits[i] == s
  {
    match s
    case Spades => 0
    case Hearts => 1
    case Clubs => 2
    case Diamonds => 3
  }

  /** No value occurs twice in `s`. */
  predicate Distinct<T(==)>(s: seq<T>) {
    forall i, j :: 0 <= i < j < |s| ==> s[i] != s[j]
  }

  /** No value occurs in both `a` and `b`. */
  predicate Disjoint<T(==)>(a: seq<T>, b: seq<T>) {
    forall x :: x in a ==> x !in b
  }

  /** Cutting a sequence without repeats gives two parts without repeats
      that share nothing. */
  lemma DistinctSplit<T>(s: seq<T>, k: nat)
    requires Distinct(s) && k <= |s|
    ensures Distinct(s[..k]) && Distinct(s[k..]) && Disjoint(s[..k], s[k..])
  {
    forall x | x in s[..k]
      ensures x !in s[k..]
    {
      var i :| 0 <= i < k && s[i] == x;
      if j :| 0 <= j < |s| - k && s[k..][j] == x {
        assert s[k + j] == s[i];
      }
    }
  }

  /** Adding a new value at the end keeps a sequence without repeats. */
  lemma DistinctAppend<T>(s: seq<T>, x: T)
    requires Distinct(s) && x !in s
    ensures Distinct(s + [x])
  {
  }
}
