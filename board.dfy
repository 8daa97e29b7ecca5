/** The board rules of the memory game: which slots are face up, which
    pairs are matched, and the facts that make the win test sound. */
module Board {
  import opened Deck

  /** A matched pair `[firstIndex, secondIndex]` of board slots. */
  datatype Pair = Pair(first: int, second: int) {
    /** `pair.includes(index)` */
    predicate Includes(index: int) { first == index || second == index }
  }

  /** `matchedPairs.some(pair => pair.includes(index))` */
  predicate IsMatched(pairs: seq<Pair>, index: int)
  {
    exists p :: p in pairs && p.Includes(index)
  }

  predicate Distinct<T(==)>(s: seq<T>)
  {
    forall i, j :: 0 <= i < j < |s| ==> s[i] != s[j]
  }

  /** The images the game is played with: at least one, none listed twice. */
  predicate ImagesOk(images: seq<string>)
  {
    |images| > 0 && Distinct(images)
  }

  /** A matched pair: two different slots of the board showing one image. */
  predicate PairOk(cards: seq<Card>, p: Pair)
  {
    && 0 <= p.first < |cards| && 0 <= p.second < |cards|
    && p.first != p.second
    && cards[p.first].image == cards[p.second].image
  }

  /** The image of each matched pair, in the order the pairs were found. */
  ghost function MatchedImages(cards: seq<Card>, pairs: seq<Pair>): (r: seq<string>)
    requires forall k :: 0 <= k < |pairs| ==> 0 <= pairs[k].first < |cards|
    ensures |r| == |pairs|
    ensures forall k :: 0 <= k < |pairs| ==> r[k] == cards[pairs[k].first].image
  {
    seq(|pairs|, k requires 0 <= k < |pairs| => cards[pairs[k].first].image)
  }

  /** Every recorded pair is a real pair, and no image was matched twice. */
  ghost predicate PairsOk(cards: seq<Card>, pairs: seq<Pair>)
  {
    && (forall k {:trigger pairs[k]} :: 0 <= k < |pairs| ==> PairOk(cards, pairs[k]))
    && Distinct(MatchedImages(cards, pairs))
  }

  /** At most two face-up slots, each on the board, distinct, and not part
      of a matched pair. */
  predicate SelectionOk(cards: seq<Card>, pairs: seq<Pair>, flipped: seq<int>)
  {
    && |flipped| <= 2
    && (forall k :: 0 <= k < |flipped| ==> 0 <= flipped[k] < |cards| && !IsMatched(pairs, flipped[k]))
    && Distinct(flipped)
  }

  /** Two face-up slots are only ever a mismatch waiting to be turned back. */
  predicate PendingIsMismatch(cards: seq<Card>, flipped: seq<int>)
    requires forall k :: 0 <= k < |flipped| ==> 0 <= flipped[k] < |cards|
  {
    |flipped| == 2 ==> cards[flipped[0]].image != cards[flipped[1]].image
  }

  /** The deck built from `images` (each image on exactly two cards). */
  ghost predicate DeckOk(images: seq<string>, cards: seq<Card>)
  {
    ImagesOk(images) && DeckWellFormed(cards, images)
  }

  /** The board invariant of a game in play (or saved). */
  ghost predicate Consistent(images: seq<string>, cards: seq<Card>, flipped: seq<int>, pairs: seq<Pair>, won: bool)
  {
    && DeckOk(images, cards)
    && PairsOk(cards, pairs)
    && SelectionOk(cards, pairs, flipped)
    && PendingIsMismatch(cards, flipped)
    && (won <==> |pairs| == |images|)
  }

  // ---------------------------------------------------------------------
  // Counting

  /** Positions that show `image` are at most as many as its occurrences. */
  lemma {:induction false} OccurrencesAtLeast(cards: seq<Card>, image: string, at: set<int>)
    requires forall i :: i in at ==> 0 <= i < |cards| && cards[i].image == image
    ensures |at| <= Occurrences(cards, image)
    decreases |cards|
  {
    if cards == [] {
      assert forall i :: i !in at;
      assert at == {};
    } else {
      var last := |cards| - 1;
      var rest := at - {last};
      OccurrencesAtLeast(cards[..last], image, rest);
    }
  }

  lemma {:induction false} DistinctMultiplicity(images: seq<string>, image: string)
    requires Distinct(images)
    ensures multiset(images)[image] <= 1
    decreases |images|
  {
    if images != [] {
      var k := |images| - 1;
      assert images == images[..k] + [images[k]];
      assert multiset(images) == multiset(images[..k]) + multiset{images[k]};
      DistinctMultiplicity(images[..k], image);
      if images[k] == image {
        assert image !in images[..k];
      }
    }
  }

  /** Every card shows one of the game's images. */
  lemma CardImageListed(images: seq<string>, cards: seq<Card>, i: int)
    requires DeckOk(images, cards) && 0 <= i < |cards|
    ensures cards[i].image in images
  {
    OccurrencesAtLeast(cards, cards[i].image, {i});
    assert multiset(images)[cards[i].image] > 0;
  }

  /** No image is on a third card: a card showing the image of two
      different slots i and j is one of them. */
  lemma OnlyTwo(images: seq<string>, cards: seq<Card>, i: int, j: int, k: int)
    requires DeckOk(images, cards)
    requires 0 <= i < |cards| && 0 <= j < |cards| && 0 <= k < |cards| && i != j
    requires cards[i].image == cards[j].image == cards[k].image
    ensures k == i || k == j
  {
    var image := cards[i].image;
    if k != i && k != j {
      OccurrencesAtLeast(cards, image, {i, j, k});
      DistinctMultiplicity(images, image);
      assert false;
    }
  }

  ghost function Elements<T>(s: seq<T>): set<T> { set x | x in s }

  lemma {:induction false} DistinctElements<T>(s: seq<T>)
    requires Distinct(s)
    ensures |Elements(s)| == |s|
    decreases |s|
  {
    if s != [] {
      var k := |s| - 1;
      assert Elements(s) == Elements(s[..k]) + {s[k]};
      assert s[k] !in Elements(s[..k]);
      DistinctElements(s[..k]);
    }
  }

  lemma SubsetSize<T>(a: set<T>, b: set<T>)
    requires a <= b
    ensures |a| <= |b|
    ensures |a| == |b| ==> a == b
  {
    assert b == a + (b - a);
    assert a * (b - a) == {};
  }

  /** The pigeonhole argument behind the win test: there are never more
      matched pairs than images, and when there are as many, every image
      has been matched. */
  lemma MatchBound(images: seq<string>, cards: seq<Card>, pairs: seq<Pair>)
    requires DeckOk(images, cards) && PairsOk(cards, pairs)
    ensures |pairs| <= |images|
    ensures |pairs| == |images| ==> forall image :: image in images ==> image in MatchedImages(cards, pairs)
  {
    var matched := MatchedImages(cards, pairs);
    forall x | x in Elements(matched) ensures x in Elements(images) {
      var k :| 0 <= k < |pairs| && matched[k] == x;
      CardImageListed(images, cards, pairs[k].first);
    }
    DistinctElements(matched);
    DistinctElements(images);
    SubsetSize(Elements(matched), Elements(images));
    if |pairs| == |images| {
      forall image | image in images ensures image in matched {
        assert image in Elements(images);
      }
    }
  }

  /** Once there are as many pairs as images, every slot is in a pair. */
  lemma AllSlotsMatched(images: seq<string>, cards: seq<Card>, pairs: seq<Pair>)
    requires DeckOk(images, cards) && PairsOk(cards, pairs)
    requires |pairs| == |images|
    ensures forall i :: 0 <= i < |cards| ==> IsMatched(pairs, i)
  {
    MatchBound(images, cards, pairs);
    forall i | 0 <= i < |cards| ensures IsMatched(pairs, i) {
      CardImageListed(images, cards, i);
      var matched := MatchedImages(cards, pairs);
      var k :| 0 <= k < |pairs| && matched[k] == cards[i].image;
      OnlyTwo(images, cards, pairs[k].first, pairs[k].second, i);
      assert pairs[k] in pairs && pairs[k].Includes(i);
    }
  }

  /** A slot outside every pair shows an image no pair has matched, so
      fewer pairs than images have been found. */
  lemma UnmatchedSlotLeavesRoom(images: seq<string>, cards: seq<Card>, pairs: seq<Pair>, i: int)
    requires DeckOk(images, cards) && PairsOk(cards, pairs)
    requires 0 <= i < |cards| && !IsMatched(pairs, i)
    ensures |pairs| < |images|
    ensures cards[i].image !in MatchedImages(cards, pairs)
  {
    MatchBound(images, cards, pairs);
    if |pairs| == |images| {
      AllSlotsMatched(images, cards, pairs);
    }
    var matched := MatchedImages(cards, pairs);
    if cards[i].image in matched {
      var k :| 0 <= k < |pairs| && matched[k] == cards[i].image;
      OnlyTwo(images, cards, pairs[k].first, pairs[k].second, i);
      assert pairs[k] in pairs && pairs[k].Includes(i);
    }
  }

  /** The game is won exactly when every image has been matched. */
  lemma WonIffEveryImageMatched(images: seq<string>, cards: seq<Card>, flipped: seq<int>, pairs: seq<Pair>, won: bool)
    requires Consistent(images, cards, flipped, pairs, won)
    ensures won <==> forall image :: image in images ==> image in MatchedImages(cards, pairs)
  {
    MatchBound(images, cards, pairs);
    var matched := MatchedImages(cards, pairs);
    if forall image :: image in images ==> image in matched {
      forall x | x in Elements(matched) ensures x in Elements(images) {
        var k :| 0 <= k < |pairs| && matched[k] == x;
        CardImageListed(images, cards, pairs[k].first);
      }
      assert Elements(images) <= Elements(matched);
      DistinctElements(matched);
      DistinctElements(images);
      SubsetSize(Elements(images), Elements(matched));
    }
  }

  /** A new deck with nothing turned and nothing matched is a consistent
      board, not yet won. */
  lemma NewBoard(images: seq<string>, cards: seq<Card>)
    requires ImagesOk(images) && DeckWellFormed(cards, images)
    ensures Consistent(images, cards, [], [], false)
  {
    assert MatchedImages(cards, []) == [];
  }

  /** Adding a pair of two unmatched slots that show one image keeps the
      pairs well formed. */
  lemma AddPair(images: seq<string>, cards: seq<Card>, pairs: seq<Pair>, p: Pair)
    requires DeckOk(images, cards) && PairsOk(cards, pairs) && PairOk(cards, p)
    requires !IsMatched(pairs, p.first)
    ensures PairsOk(cards, pairs + [p])
    ensures |pairs| < |images|
  {
    UnmatchedSlotLeavesRoom(images, cards, pairs, p.first);
    var extended := pairs + [p];
    assert forall k :: 0 <= k < |extended| ==> PairOk(cards, extended[k]);
    assert MatchedImages(cards, extended) == MatchedImages(cards, pairs) + [cards[p.first].image];
  }
}
