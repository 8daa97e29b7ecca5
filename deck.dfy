/** Deck construction: two cards per image, then a Fisher-Yates shuffle
    performed in place on an array (script.js, createCards). */
module Deck {

  /** A card of the board. `matched` is set to false when the card is
      built and the game never changes it afterwards. */
  datatype Card = Card(id: int, image: string, matched: bool)

  /** The deck before shuffling: for image number k, the cards with ids
      2k and 2k+1, in image order. */
  function FreshDeck(images: seq<string>): (deck: seq<Card>)
    ensures |deck| == 2 * |images|
    ensures forall i :: 0 <= i < |deck| ==> deck[i] == Card(i, images[i / 2], false)
    ensures forall c :: c in deck ==> !c.matched
  {
    if images == [] then []
    else
      var k := |images| - 1;
      FreshDeck(images[..k]) + [Card(2 * k, images[k], false), Card(2 * k + 1, images[k], false)]
  }

  /** How many cards of `cards` show `image`. */
  function Occurrences(cards: seq<Card>, image: string): (n: nat)
    ensures n <= |cards|
  {
    if cards == [] then 0
    else
      var last := |cards| - 1;
      Occurrences(cards[..last], image) + (if cards[last].image == image then 1 else 0)
  }

  /** Each image of `images` is shown by exactly two cards for each time
      it is listed, and no other image is shown at all. */
  ghost predicate DeckWellFormed(cards: seq<Card>, images: seq<string>)
  {
    && |cards| == 2 * |images|
    && forall image :: Occurrences(cards, image) == 2 * multiset(images)[image]
  }

  lemma {:induction false} OccurrencesConcat(a: seq<Card>, b: seq<Card>, image: string)
    ensures Occurrences(a + b, image) == Occurrences(a, image) + Occurrences(b, image)
    decreases |b|
  {
    if b != [] {
      var last := |b| - 1;
      assert (a + b)[..|a + b| - 1] == a + b[..last];
      OccurrencesConcat(a, b[..last], image);
    } else {
      assert a + b == a;
    }
  }

  /** The unshuffled deck shows every image twice per listing. */
  lemma {:induction false} FreshDeckOccurrences(images: seq<string>, image: string)
    ensures Occurrences(FreshDeck(images), image) == 2 * multiset(images)[image]
    decreases |images|
  {
    if images != [] {
      var k := |images| - 1;
      var pair := [Card(2 * k, images[k], false), Card(2 * k + 1, images[k], false)];
      assert images == images[..k] + [images[k]];
      assert multiset(images) == multiset(images[..k]) + multiset{images[k]};
      FreshDeckOccurrences(images[..k], image);
      OccurrencesConcat(FreshDeck(images[..k]), pair, image);
      assert pair[..1] == [pair[0]];
      assert [pair[0]][..0] == [];
    }
  }

  /** Replacing one card changes the count of an image by the cards that
      left and came in. */
  lemma {:induction false} OccurrencesUpdate(cards: seq<Card>, k: nat, c: Card, image: string)
    requires k < |cards|
    ensures Occurrences(cards[k := c], image)
         == Occurrences(cards, image)
            - (if cards[k].image == image then 1 else 0)
            + (if c.image == image then 1 else 0)
    decreases |cards|
  {
    var last := |cards| - 1;
    if k < last {
      assert cards[k := c][..last] == cards[..last][k := c];
      OccurrencesUpdate(cards[..last], k, c, image);
    } else {
      assert cards[k := c][..last] == cards[..last];
    }
  }

  /** The destructuring swap `[a[i], a[j]] = [a[j], a[i]]`. */
  function Swap(s: seq<Card>, i: nat, j: nat): (r: seq<Card>)
    requires i < |s| && j < |s|
    ensures |r| == |s| && r[i] == s[j] && r[j] == s[i]
  {
    s[i := s[j]][j := s[i]]
  }

  lemma SwapOccurrences(s: seq<Card>, i: nat, j: nat, image: string)
    requires i < |s| && j < |s|
    ensures Occurrences(Swap(s, i, j), image) == Occurrences(s, image)
  {
    var once := s[i := s[j]];
    assert Swap(s, i, j) == once[j := s[i]];
    OccurrencesUpdate(s, i, s[j], image);
    OccurrencesUpdate(once, j, s[i], image);
  }

  lemma SwapPreserves(s: seq<Card>, i: nat, j: nat)
    requires i < |s| && j < |s|
    ensures multiset(Swap(s, i, j)) == multiset(s)
    ensures forall image :: Occurrences(Swap(s, i, j), image) == Occurrences(s, image)
  {
    forall image ensures Occurrences(Swap(s, i, j), image) == Occurrences(s, image) {
      SwapOccurrences(s, i, j, image);
    }
  }

  /** A value returned by Math.random. */
  predicate IsDraw(r: real) { 0.0 <= r < 1.0 }

  predicate AllDraws(draws: seq<real>) { forall k :: 0 <= k < |draws| ==> IsDraw(draws[k]) }

  /** The number of Math.random calls the shuffle of an n-card deck makes. */
  function DrawCount(n: nat): nat { if n == 0 then 0 else n - 1 }

  /** `Math.floor(r * (i + 1))`: a position in 0..i. */
  function Pick(r: real, i: nat): (j: nat)
    requires IsDraw(r)
    ensures j <= i
  {
    var n := (i + 1) as real;
    var x := r * n;
    assert x <= r * n && r * n < 1.0 * n by { assert (1.0 - r) * n > 0.0; }
    x.Floor
  }

  /** Swap partners for the shuffle of an n-card deck, in loop order: the
      k-th turn of the loop runs at counter n - 1 - k, so its partner is
      at most that counter. */
  predicate SwapsFit(swaps: seq<nat>, n: nat)
  {
    && |swaps| == DrawCount(n)
    && forall k :: 0 <= k < |swaps| ==> swaps[k] < n - k
  }

  /** The partners the loop picks from the draws, one per call of
      Math.random. */
  function Picks(draws: seq<real>, n: nat): (swaps: seq<nat>)
    requires AllDraws(draws) && |draws| == DrawCount(n)
    ensures SwapsFit(swaps, n)
  {
    seq(|draws|, k requires 0 <= k < |draws| => Pick(draws[k], n - 1 - k))
  }

  /** The shuffle loop started at counter i: it swaps position i with its
      partner, then goes on with i - 1, and stops once i is no longer
      positive. The partner for counter i is the (|s| - 1 - i)-th one. */
  function ShuffleFrom(s: seq<Card>, swaps: seq<nat>, i: int): (r: seq<Card>)
    requires SwapsFit(swaps, |s|)
    requires -1 <= i < |s|
    ensures |r| == |s|
    decreases i
  {
    if i <= 0 then s
    else ShuffleFrom(Swap(s, i, swaps[|s| - 1 - i]), swaps, i - 1)
  }

  /** The whole shuffle loop, from the last position down. */
  function Shuffled(s: seq<Card>, swaps: seq<nat>): seq<Card>
    requires SwapsFit(swaps, |s|)
  {
    ShuffleFrom(s, swaps, |s| - 1)
  }

  /** The shuffle only ever swaps, so its result is a permutation of its
      input and shows each image as often. */
  lemma {:induction false} ShufflePreserves(s: seq<Card>, swaps: seq<nat>, i: int)
    requires SwapsFit(swaps, |s|)
    requires -1 <= i < |s|
    ensures multiset(ShuffleFrom(s, swaps, i)) == multiset(s)
    ensures forall image :: Occurrences(ShuffleFrom(s, swaps, i), image) == Occurrences(s, image)
    decreases i
  {
    if i > 0 {
      var j := swaps[|s| - 1 - i];
      var swapped := Swap(s, i, j);
      assert ShuffleFrom(s, swaps, i) == ShuffleFrom(swapped, swaps, i - 1);
      SwapPreserves(s, i, j);
      ShufflePreserves(swapped, swaps, i - 1);
    }
  }

  /** The shuffled fresh deck has 2 × |images| unmatched cards, is a
      permutation of the fresh deck, and shows every image twice per
      listing. */
  lemma ShuffledDeck(images: seq<string>, swaps: seq<nat>)
    requires SwapsFit(swaps, 2 * |images|)
    ensures |Shuffled(FreshDeck(images), swaps)| == 2 * |images|
    ensures multiset(Shuffled(FreshDeck(images), swaps)) == multiset(FreshDeck(images))
    ensures forall image :: Occurrences(Shuffled(FreshDeck(images), swaps), image) == 2 * multiset(images)[image]
    ensures forall i :: 0 <= i < 2 * |images| ==> !Shuffled(FreshDeck(images), swaps)[i].matched
  {
    var unshuffled := FreshDeck(images);
    var deck := Shuffled(unshuffled, swaps);
    ShufflePreserves(unshuffled, swaps, |unshuffled| - 1);
    forall image ensures Occurrences(deck, image) == 2 * multiset(images)[image] {
      FreshDeckOccurrences(images, image);
    }
    UnmatchedKept(unshuffled, deck);
  }

  /** The pair-building loop followed by the in-place shuffle; the deck it
      returns is the shuffle of the fresh deck and shows every image
      exactly twice. */
  method CreateCards(images: seq<string>, draws: seq<real>) returns (deck: seq<Card>)
    requires AllDraws(draws) && |draws| == DrawCount(2 * |images|)
    ensures deck == Shuffled(FreshDeck(images), Picks(draws, 2 * |images|))
    ensures |deck| == 2 * |images|
    ensures multiset(deck) == multiset(FreshDeck(images))
    ensures forall image :: Occurrences(deck, image) == 2 * multiset(images)[image]
    ensures forall i :: 0 <= i < |deck| ==> !deck[i].matched
  {
    var gameCards := BuildPairs(images);
    ShuffleInPlace(gameCards, draws);
    deck := gameCards[..];
    ShuffledDeck(images, Picks(draws, 2 * |images|));
  }

  /** The forEach loop of createCards: for each image, in order, its two
      cards are added. */
  method BuildPairs(images: seq<string>) returns (gameCards: array<Card>)
    ensures fresh(gameCards) && gameCards[..] == FreshDeck(images)
  {
    gameCards := new Card[2 * |images|];
    var k := 0;
    while k < |images|
      invariant 0 <= k <= |images|
      invariant gameCards[..2 * k] == FreshDeck(images[..k])
    {
      gameCards[2 * k] := Card(2 * k, images[k], false);
      gameCards[2 * k + 1] := Card(2 * k + 1, images[k], false);
      assert images[..k + 1][..k] == images[..k];
      assert gameCards[..2 * (k + 1)] == gameCards[..2 * k] + [gameCards[2 * k], gameCards[2 * k + 1]];
      k := k + 1;
    }
    assert images[..k] == images;
    assert gameCards[..] == gameCards[..2 * k];
  }

  /** A permutation of a deck with no matched card has no matched card. */
  lemma UnmatchedKept(s: seq<Card>, t: seq<Card>)
    requires multiset(t) == multiset(s)
    requires forall c :: c in s ==> !c.matched
    ensures forall i :: 0 <= i < |t| ==> !t[i].matched
  {
    forall i | 0 <= i < |t| ensures !t[i].matched {
      assert t[i] in multiset(s);
    }
  }

  /** One turn of the shuffle loop at counter i > 0. */
  lemma ShuffleStep(s: seq<Card>, swaps: seq<nat>, i: int, j: nat)
    requires SwapsFit(swaps, |s|)
    requires 0 < i < |s| && j == swaps[|s| - 1 - i]
    ensures ShuffleFrom(s, swaps, i) == ShuffleFrom(s[i := s[j]][j := s[i]], swaps, i - 1)
  {
    assert Swap(s, i, j) == s[i := s[j]][j := s[i]];
  }

  /** The Fisher-Yates loop of createCards, on the array in place. */
  method ShuffleInPlace(a: array<Card>, draws: seq<real>)
    requires AllDraws(draws) && |draws| == DrawCount(a.Length)
    modifies a
    ensures a[..] == Shuffled(old(a[..]), Picks(draws, a.Length))
  {
    ghost var swaps := Picks(draws, a.Length);
    ghost var result := Shuffled(a[..], swaps);
    var i := a.Length - 1;
    while i > 0
      invariant -1 <= i < a.Length
      invariant ShuffleFrom(a[..], swaps, i) == result
    {
      var j := Pick(draws[a.Length - 1 - i], i);
      assert j == swaps[a.Length - 1 - i];
      ghost var before := a[..];
      ShuffleStep(before, swaps, i, j);
      var t := a[i];
      a[i] := a[j];
      a[j] := t;
      assert a[..] == before[i := before[j]][j := before[i]];
      i := i - 1;
    }
  }
}
