/**
 * The board state machine of `GameViewModel`: building the grid when the
 * view model is created, and the flip / match / flip-back cycle of play.
 */
module Game {
  import opened Wrappers
  import opened Model
  import opened Shuffling

  // ---------------------------------------------------------------------
  // Building the grid
  // ---------------------------------------------------------------------

  /** Why building the grid throws: `first()` on an empty catalog, or `take` of a negative count. */
  datatype LoadError = NoPuzzles | NegativeCellCount(totalCells: int)

  const TWO_32: int := 0x1_0000_0000
  const INT_MIN: int := -0x8000_0000
  const INT_MAX: int := 0x7fff_ffff

  /** A mathematical integer reduced to a Kotlin `Int`, two's complement wrap-around. */
  function WrapInt(x: int): (r: int)
    ensures INT_MIN <= r <= INT_MAX
    ensures (x - r) % TWO_32 == 0
    ensures INT_MIN <= x <= INT_MAX ==> r == x
  {
    (x - INT_MIN) % TWO_32 + INT_MIN
  }

  /** `gridSize * gridSize` evaluated in Kotlin `Int` arithmetic. */
  function TotalCells(gridSize: int): (r: int)
    requires INT_MIN <= gridSize <= INT_MAX
    ensures INT_MIN <= r <= INT_MAX
    ensures (gridSize * gridSize - r) % TWO_32 == 0
  {
    WrapInt(gridSize * gridSize)
  }

  /** For every grid side up to 46340 the product does not wrap. */
  lemma TotalCellsExact(gridSize: int)
    requires -46340 <= gridSize <= 46340
    ensures TotalCells(gridSize) == gridSize * gridSize
  {
    var a := if gridSize < 0 then -gridSize else gridSize;
    MulMonotone(a, 46340, a);
    MulMonotone(a, 46340, 46340);
    assert gridSize * gridSize == a * a;
  }

  /** Multiplying by a natural number keeps the order of two naturals. */
  lemma MulMonotone(a: nat, b: nat, c: nat)
    requires a <= b
    ensures a * c <= b * c
  {
  }

  /** `images.flatMap { listOf(it, it) }`: every face twice, side by side. */
  function Pairs<T>(images: seq<T>): (r: seq<T>)
    ensures |r| == 2 * |images|
  {
    if images == [] then [] else [images[0], images[0]] + Pairs(images[1..])
  }

  /** Pairing holds every face exactly twice as often as the puzzle does. */
  lemma {:induction false} PairsMultiset<T>(images: seq<T>)
    ensures multiset(Pairs(images)) == multiset(images) + multiset(images)
  {
    if images != [] {
      PairsMultiset(images[1..]);
      assert images == [images[0]] + images[1..];
    }
  }

  /** Pairing puts each face at positions `2 i` and `2 i + 1`. */
  lemma {:induction false} PairsAt<T>(images: seq<T>, i: nat)
    requires i < |images|
    ensures Pairs(images)[2 * i] == images[i] && Pairs(images)[2 * i + 1] == images[i]
  {
    if i > 0 {
      PairsAt(images[1..], i - 1);
    }
  }

  /** Kotlin's `take(n)`: the first `n` elements, or all of them when there are fewer. */
  function Take<T>(s: seq<T>, n: nat): (r: seq<T>)
    ensures |r| == if n < |s| then n else |s|
    ensures r == s[..|r|]
    ensures multiset(r) <= multiset(s)
  {
    if n < |s| then
      assert s == s[..n] + s[n..];
      s[..n]
    else s
  }

  /** `List(n) { PuzzleCard.EMPTY }`. */
  function Padding(n: nat): (r: seq<PuzzleCard>)
    ensures |r| == n
    ensures forall i :: 0 <= i < n ==> r[i] == EMPTY
    ensures multiset(r)[EMPTY] == n
    ensures forall c :: c != EMPTY ==> multiset(r)[c] == 0
  {
    if n == 0 then [] else [EMPTY] + Padding(n - 1)
  }

  /** The smaller of two integers. */
  function Min(a: int, b: int): (r: int) {
    if a < b then a else b
  }

  /**
   * `loadPuzzles`: the first puzzle's faces, each twice, shuffled, cut to
   * `gridSize * gridSize`, padded with `EMPTY` and shuffled again. The two
   * pick streams stand for the randomness of the two `shuffled()` calls.
   */
  function BuildGrid(puzzles: seq<Puzzle>, pairPicks: seq<nat>, gridPicks: seq<nat>): (r: Result<seq<PuzzleCard>, LoadError>)
    requires forall i :: 0 <= i < |puzzles| ==> INT_MIN <= puzzles[i].gridSize <= INT_MAX
    ensures |puzzles| == 0 <==> r == Failure(NoPuzzles)
    ensures |puzzles| > 0 ==> (r.Success? <==> TotalCells(puzzles[0].gridSize) >= 0)
    ensures r.Success? ==> |r.value| == TotalCells(puzzles[0].gridSize)
  {
    if |puzzles| == 0 then Failure(NoPuzzles)
    else
      var puzzle := puzzles[0];
      var totalCells := TotalCells(puzzle.gridSize);
      if totalCells < 0 then Failure(NegativeCellCount(totalCells))
      else Success(Shuffle(Deal(puzzle.images, pairPicks, totalCells), gridPicks))
  }

  /** The list before the final shuffle: the shuffled pairs cut to `totalCells`, then the padding. */
  function Deal(images: seq<PuzzleCard>, pairPicks: seq<nat>, totalCells: nat): (r: seq<PuzzleCard>)
    ensures |r| == totalCells
  {
    var imagePairs := Pairs(images);
    var imageCards := Take(Shuffle(imagePairs, pairPicks), totalCells);
    var emptySlots := totalCells - |imageCards|;
    imageCards + Padding(emptySlots)
  }

  /**
   * What the grid holds: at least `totalCells - min(2 |images|, totalCells)`
   * padding cards, and no face more often than twice its count in the puzzle;
   * when the puzzle itself holds no padding card, exactly that many.
   */
  lemma DealContents(images: seq<PuzzleCard>, pairPicks: seq<nat>, totalCells: nat)
    ensures var m := multiset(Deal(images, pairPicks, totalCells));
      var pad := totalCells - Min(2 * |images|, totalCells);
      && m[EMPTY] >= pad
      && (EMPTY !in images ==> m[EMPTY] == pad)
      && forall c :: c != EMPTY ==> m[c] <= 2 * multiset(images)[c]
  {
    var imageCards := Take(Shuffle(Pairs(images), pairPicks), totalCells);
    ShuffleMultiset(Pairs(images), pairPicks);
    var pad := totalCells - |imageCards|;
    assert pad == totalCells - Min(2 * |images|, totalCells);
    var m := multiset(Deal(images, pairPicks, totalCells));
    assert m == multiset(imageCards) + multiset(Padding(pad));
    PairsMultiset(images);
    assert multiset(imageCards) <= multiset(images) + multiset(images);
    if EMPTY !in images {
      assert multiset(images)[EMPTY] == 0;
    }
  }

  /** The grid built from the catalog, with the contents `DealContents` describes. */
  lemma GridContents(puzzles: seq<Puzzle>, pairPicks: seq<nat>, gridPicks: seq<nat>)
    requires forall i :: 0 <= i < |puzzles| ==> INT_MIN <= puzzles[i].gridSize <= INT_MAX
    requires |puzzles| > 0 && TotalCells(puzzles[0].gridSize) >= 0
    ensures var grid := BuildGrid(puzzles, pairPicks, gridPicks).value;
      var images := puzzles[0].images;
      var total := TotalCells(puzzles[0].gridSize);
      var pad := total - Min(2 * |images|, total);
      && multiset(grid)[EMPTY] >= pad
      && (EMPTY !in images ==> multiset(grid)[EMPTY] == pad)
      && forall c :: c != EMPTY ==> multiset(grid)[c] <= 2 * multiset(images)[c]
  {
    DealContents(puzzles[0].images, pairPicks, TotalCells(puzzles[0].gridSize));
    ShuffleMultiset(Deal(puzzles[0].images, pairPicks, TotalCells(puzzles[0].gridSize)), gridPicks);
  }

  /** Every card of the grid is padding or one of the puzzle's faces. */
  lemma GridCardsComeFromPuzzle(puzzles: seq<Puzzle>, pairPicks: seq<nat>, gridPicks: seq<nat>)
    requires forall i :: 0 <= i < |puzzles| ==> INT_MIN <= puzzles[i].gridSize <= INT_MAX
    requires |puzzles| > 0 && TotalCells(puzzles[0].gridSize) >= 0
    ensures var grid := BuildGrid(puzzles, pairPicks, gridPicks).value;
      forall k :: 0 <= k < |grid| ==> grid[k] == EMPTY || grid[k] in puzzles[0].images
  {
    GridContents(puzzles, pairPicks, gridPicks);
    var grid := BuildGrid(puzzles, pairPicks, gridPicks).value;
    forall k | 0 <= k < |grid| ensures grid[k] == EMPTY || grid[k] in puzzles[0].images {
      assert grid[k] in multiset(grid);
    }
  }

  /** A catalog of face-down, unmatched faces gives a face-down, unmatched grid. */
  lemma GridStartsFaceDown(puzzles: seq<Puzzle>, pairPicks: seq<nat>, gridPicks: seq<nat>)
    requires forall i :: 0 <= i < |puzzles| ==> INT_MIN <= puzzles[i].gridSize <= INT_MAX
    requires |puzzles| > 0 && TotalCells(puzzles[0].gridSize) >= 0
    requires forall c :: c in puzzles[0].images ==> !c.isFlipped && !c.isMatched
    ensures var grid := BuildGrid(puzzles, pairPicks, gridPicks).value;
      forall k :: 0 <= k < |grid| ==> !grid[k].isFlipped && !grid[k].isMatched
  {
    GridCardsComeFromPuzzle(puzzles, pairPicks, gridPicks);
  }

  /** The ids of a list of cards, in order. */
  function Ids(cards: seq<PuzzleCard>): (r: seq<int>)
    ensures |r| == |cards|
    ensures forall i :: 0 <= i < |cards| ==> r[i] == cards[i].Id()
  {
    seq(|cards|, i requires 0 <= i < |cards| => cards[i].Id())
  }

  /** Ids of a concatenation. */
  lemma IdsAppend(a: seq<PuzzleCard>, b: seq<PuzzleCard>)
    ensures Ids(a + b) == Ids(a) + Ids(b)
  {
  }

  /** Ids of a slice. */
  lemma IdsSlice(a: seq<PuzzleCard>, i: nat, j: nat)
    requires i <= j <= |a|
    ensures Ids(a[i..j]) == Ids(a)[i..j]
  {
  }

  /** Ids of a list with one element removed. */
  lemma IdsOfRemoveAt(s: seq<PuzzleCard>, k: nat)
    requires k < |s|
    ensures Ids(RemoveAt(s, k)) == RemoveAt(Ids(s), k)
  {
  }

  /** Taking ids commutes with shuffling. */
  lemma {:induction false} IdsOfShuffle(s: seq<PuzzleCard>, picks: seq<nat>)
    ensures Ids(Shuffle(s, picks)) == Shuffle(Ids(s), picks)
    decreases |s|
  {
    var ids := Ids(s);
    if s == [] {
      assert ids == [];
    } else {
      var k := PickIndex(picks, |s|);
      var rest := RestPicks(picks);
      IdsOfShuffle(RemoveAt(s, k), rest);
      IdsOfRemoveAt(s, k);
      IdsAppend([s[k]], Shuffle(RemoveAt(s, k), rest));
    }
  }

  /** Taking ids commutes with pairing. */
  lemma {:induction false} IdsOfPairs(images: seq<PuzzleCard>)
    ensures Ids(Pairs(images)) == Pairs(Ids(images))
  {
    if images == [] {
      assert Ids(images) == [];
    } else {
      var ids := Ids(images);
      IdsOfPairs(images[1..]);
      assert Ids(images[1..]) == ids[1..];
      IdsAppend([images[0], images[0]], Pairs(images[1..]));
      assert Ids([images[0], images[0]]) == [ids[0], ids[0]];
      assert Pairs(ids) == [ids[0], ids[0]] + Pairs(ids[1..]);
    }
  }

  /** In a list without repeated values, each value occurs at most once. */
  lemma {:induction false} DistinctOccursOnce(xs: seq<int>, x: int)
    requires forall i, j :: 0 <= i < j < |xs| ==> xs[i] != xs[j]
    ensures multiset(xs)[x] <= 1
  {
    if xs != [] {
      DistinctOccursOnce(xs[1..], x);
      assert xs == [xs[0]] + xs[1..];
      if xs[0] == x {
        assert x !in xs[1..];
      }
    }
  }

  /** The padding cards carry only the padding id. */
  lemma PaddingIds(n: nat, id: int)
    requires id != EMPTY_ID
    ensures multiset(Ids(Padding(n)))[id] == 0
  {
    assert id !in Ids(Padding(n));
  }

  /** A prefix carries no id more often than the whole list. */
  lemma TakeIds(s: seq<PuzzleCard>, n: nat)
    ensures multiset(Ids(Take(s, n))) <= multiset(Ids(s))
  {
    var m := |Take(s, n)|;
    IdsSlice(s, 0, m);
    assert Ids(s) == Ids(s)[..m] + Ids(s)[m..];
  }

  /** The shuffled pairs of faces with distinct ids carry each id other than the padding id at most twice. */
  lemma ShuffledPairsIds(images: seq<PuzzleCard>, pairPicks: seq<nat>, id: int)
    requires forall i, j :: 0 <= i < j < |images| ==> images[i].Id() != images[j].Id()
    ensures multiset(Ids(Shuffle(Pairs(images), pairPicks)))[id] <= 2
  {
    IdsOfShuffle(Pairs(images), pairPicks);
    ShuffleMultiset(Ids(Pairs(images)), pairPicks);
    IdsOfPairs(images);
    PairsMultiset(Ids(images));
    DistinctOccursOnce(Ids(images), id);
  }

  /** Before the final shuffle, no id except the padding id occurs more than twice. */
  lemma DealIdsAtMostTwice(images: seq<PuzzleCard>, pairPicks: seq<nat>, totalCells: nat, id: int)
    requires forall i, j :: 0 <= i < j < |images| ==> images[i].Id() != images[j].Id()
    requires id != EMPTY_ID
    ensures multiset(Ids(Deal(images, pairPicks, totalCells)))[id] <= 2
  {
    var shuffledPairs := Shuffle(Pairs(images), pairPicks);
    var imageCards := Take(shuffledPairs, totalCells);
    var padding := Padding(totalCells - |imageCards|);
    IdsAppend(imageCards, padding);
    PaddingIds(totalCells - |imageCards|, id);
    TakeIds(shuffledPairs, totalCells);
    ShuffledPairsIds(images, pairPicks, id);
  }

  /** Faces with distinct ids give a grid where no id except the padding id occurs more than twice. */
  lemma GridIdsAtMostTwice(puzzles: seq<Puzzle>, pairPicks: seq<nat>, gridPicks: seq<nat>, id: int)
    requires forall i :: 0 <= i < |puzzles| ==> INT_MIN <= puzzles[i].gridSize <= INT_MAX
    requires |puzzles| > 0 && TotalCells(puzzles[0].gridSize) >= 0
    requires var images := puzzles[0].images;
      forall i, j :: 0 <= i < j < |images| ==> images[i].Id() != images[j].Id()
    requires id != EMPTY_ID
    ensures multiset(Ids(BuildGrid(puzzles, pairPicks, gridPicks).value))[id] <= 2
  {
    var dealt := Deal(puzzles[0].images, pairPicks, TotalCells(puzzles[0].gridSize));
    DealIdsAtMostTwice(puzzles[0].images, pairPicks, TotalCells(puzzles[0].gridSize), id);
    IdsOfShuffle(dealt, gridPicks);
    ShuffleMultiset(Ids(dealt), gridPicks);
  }

  // ---------------------------------------------------------------------
  // Rewriting the card list
  // ---------------------------------------------------------------------

  /** `updateCard`'s `mapIndexed`: the card at `index` is replaced, every other card kept. */
  function ReplaceAt(cards: seq<PuzzleCard>, index: int, card: PuzzleCard): (r: seq<PuzzleCard>)
    ensures |r| == |cards|
    ensures 0 <= index < |cards| ==> r[index] == card
    ensures forall i :: 0 <= i < |cards| && i != index ==> r[i] == cards[i]
  {
    seq(|cards|, i requires 0 <= i < |cards| => if i == index then card else cards[i])
  }

  /** `matchCards`' `map`: every card with the id becomes matched, keeping its face and its face-up state. */
  function MatchAll(cards: seq<PuzzleCard>, id: int): (r: seq<PuzzleCard>)
    ensures |r| == |cards|
    ensures forall i :: 0 <= i < |cards| ==>
      && r[i].SameFace(cards[i]) && r[i].isFlipped == cards[i].isFlipped
      && r[i].isMatched == (cards[i].isMatched || cards[i].Id() == id)
  {
    seq(|cards|, i requires 0 <= i < |cards| => if cards[i].Id() == id then cards[i].WithMatched(true) else cards[i])
  }

  /** `flipBackCards`' `map`: every card with either id is turned face down, keeping its face and its match. */
  function FlipBackAll(cards: seq<PuzzleCard>, id1: int, id2: int): (r: seq<PuzzleCard>)
    ensures |r| == |cards|
    ensures forall i :: 0 <= i < |cards| ==>
      && r[i].SameFace(cards[i]) && r[i].isMatched == cards[i].isMatched
      && r[i].isFlipped == (cards[i].isFlipped && cards[i].Id() != id1 && cards[i].Id() != id2)
  {
    seq(|cards|, i requires 0 <= i < |cards| =>
      if cards[i].Id() == id1 || cards[i].Id() == id2 then cards[i].WithFlipped(false) else cards[i])
  }

  /** Some card with the id is face up and not yet matched. */
  ghost predicate HasOpenCard(cards: seq<PuzzleCard>, id: int) {
    exists k :: 0 <= k < |cards| && cards[k].Id() == id && cards[k].isFlipped && !cards[k].isMatched
  }

  /** No card that was matched in `before` is unmatched in `after`, and the list keeps its length. */
  ghost predicate MatchesKept(before: seq<PuzzleCard>, after: seq<PuzzleCard>) {
    |after| == |before| && forall i :: 0 <= i < |before| && before[i].isMatched ==> after[i].isMatched
  }

  // ---------------------------------------------------------------------
  // The view model
  // ---------------------------------------------------------------------

  /**
   * `GameViewModel`: the card list, the two pending picks and the flip lock.
   * The deferred flip-back that the source schedules after a mismatch is the
   * method `FlipBackCards`, which the caller runs when the delay has passed.
   */
  class GameViewModel {
    var cards: seq<PuzzleCard>
    var firstSelectedCard: Option<PuzzleCard>
    var secondSelectedCard: Option<PuzzleCard>
    var isFlipAllowed: bool

    /**
     * The state invariant: while flips are allowed no second pick is pending;
     * a first pick names a card that is face up and unmatched; while the lock
     * is engaged two picks with different ids are pending, the second also face up.
     */
    ghost predicate Valid()
      reads this
    {
      && (isFlipAllowed ==> secondSelectedCard.None?)
      && (firstSelectedCard.Some? ==> HasOpenCard(cards, firstSelectedCard.value.Id()))
      && (!isFlipAllowed ==>
            && firstSelectedCard.Some? && secondSelectedCard.Some?
            && firstSelectedCard.value.Id() != secondSelectedCard.value.Id()
            && HasOpenCard(cards, secondSelectedCard.value.Id()))
    }

    /** `init { loadPuzzles() }`: created only when building the grid does not throw. */
    constructor (puzzles: seq<Puzzle>, pairPicks: seq<nat>, gridPicks: seq<nat>)
      requires forall i :: 0 <= i < |puzzles| ==> INT_MIN <= puzzles[i].gridSize <= INT_MAX
      requires |puzzles| > 0 && TotalCells(puzzles[0].gridSize) >= 0
      ensures Valid()
      ensures cards == BuildGrid(puzzles, pairPicks, gridPicks).value
      ensures firstSelectedCard.None? && secondSelectedCard.None? && isFlipAllowed
    {
      cards := BuildGrid(puzzles, pairPicks, gridPicks).value;
      firstSelectedCard := None;
      secondSelectedCard := None;
      isFlipAllowed := true;
    }

    /**
     * `flipCard`: ignored while the lock is engaged or when the card is
     * already face up or matched; otherwise the card is turned face up and
     * recorded as the first pick, or as the second, which is then checked.
     */
    method FlipCard(cardIndex: int)
      requires Valid()
      requires 0 <= cardIndex < |cards|
      modifies this
      ensures Valid()
      ensures MatchesKept(old(cards), cards)
      ensures var card := old(cards)[cardIndex];
        var faceUp := ReplaceAt(old(cards), cardIndex, card.WithFlipped(true));
        if !old(isFlipAllowed) || card.isFlipped || card.isMatched then
          && cards == old(cards) && firstSelectedCard == old(firstSelectedCard)
          && secondSelectedCard == old(secondSelectedCard) && isFlipAllowed == old(isFlipAllowed)
        else if old(firstSelectedCard).None? then
          cards == faceUp && firstSelectedCard == Some(card) && secondSelectedCard.None? && isFlipAllowed
        else if old(firstSelectedCard).value.Id() == card.Id() then
          cards == MatchAll(faceUp, card.Id()) && firstSelectedCard.None? && secondSelectedCard.None? && isFlipAllowed
        else
          && cards == faceUp && firstSelectedCard == old(firstSelectedCard)
          && secondSelectedCard == Some(card) && !isFlipAllowed
    {
      if !isFlipAllowed {
        return;
      }
      var card := cards[cardIndex];
      if card.isFlipped || card.isMatched {
        return;
      }
      UpdateCard(cardIndex, card.WithFlipped(true));
      OpenCardSurvives(old(cards), cards, cardIndex, firstSelectedCard);
      if firstSelectedCard.None? {
        firstSelectedCard := Some(card);
        assert cards[cardIndex].Id() == card.Id();
      } else if secondSelectedCard.None? {
        secondSelectedCard := Some(card);
        assert cards[cardIndex].Id() == card.Id();
        CheckForMatch();
      }
    }

    /**
     * `checkForMatch`: with both picks present, engage the lock; equal ids
     * match all cards with that id and release the lock at once, different
     * ids keep the lock until `FlipBackCards` runs.
     */
    method CheckForMatch()
      requires isFlipAllowed
      requires firstSelectedCard.Some? ==> HasOpenCard(cards, firstSelectedCard.value.Id())
      requires secondSelectedCard.Some? ==> firstSelectedCard.Some? && HasOpenCard(cards, secondSelectedCard.value.Id())
      modifies this
      ensures Valid()
      ensures MatchesKept(old(cards), cards)
      ensures if old(firstSelectedCard).None? || old(secondSelectedCard).None? then
          && cards == old(cards) && firstSelectedCard == old(firstSelectedCard)
          && secondSelectedCard == old(secondSelectedCard) && isFlipAllowed
        else if old(firstSelectedCard).value.Id() == old(secondSelectedCard).value.Id() then
          && cards == MatchAll(old(cards), old(firstSelectedCard).value.Id())
          && firstSelectedCard.None? && secondSelectedCard.None? && isFlipAllowed
        else
          && cards == old(cards) && firstSelectedCard == old(firstSelectedCard)
          && secondSelectedCard == old(secondSelectedCard) && !isFlipAllowed
    {
      if firstSelectedCard.None? || secondSelectedCard.None? {
        return;
      }
      isFlipAllowed := false;
      if firstSelectedCard.value.Id() == secondSelectedCard.value.Id() {
        MatchCards(firstSelectedCard.value);
        ResetSelection();
      }
      // On a mismatch the source launches a coroutine that waits 1000 ms and
      // then runs flipBackCards; until then the lock stays engaged.
    }

    /** `updateCard`: replace the card at `index`. */
    method UpdateCard(index: int, card: PuzzleCard)
      modifies this
      ensures cards == ReplaceAt(old(cards), index, card)
      ensures firstSelectedCard == old(firstSelectedCard) && secondSelectedCard == old(secondSelectedCard)
      ensures isFlipAllowed == old(isFlipAllowed)
    {
      cards := ReplaceAt(cards, index, card);
    }

    /** `matchCards`: every card with the id of `card` becomes matched; the picks are cleared. */
    method MatchCards(card: PuzzleCard)
      modifies this
      ensures cards == MatchAll(old(cards), card.Id())
      ensures firstSelectedCard.None? && secondSelectedCard.None? && isFlipAllowed
      ensures Valid()
    {
      cards := MatchAll(cards, card.Id());
      ResetSelection();
    }

    /**
     * `flipBackCards`, the deferred step after a mismatch: every card with
     * either pick's id is turned face down, the picks are cleared and the
     * lock is released.
     */
    method FlipBackCards()
      requires Valid() && !isFlipAllowed
      modifies this
      ensures cards == FlipBackAll(old(cards), old(firstSelectedCard).value.Id(), old(secondSelectedCard).value.Id())
      ensures firstSelectedCard.None? && secondSelectedCard.None? && isFlipAllowed
      ensures Valid()
      ensures MatchesKept(old(cards), cards)
    {
      cards := FlipBackAll(cards, firstSelectedCard.value.Id(), secondSelectedCard.value.Id());
      ResetSelection();
    }

    /** `resetSelection`: clear both picks and release the lock. */
    method ResetSelection()
      modifies this
      ensures cards == old(cards)
      ensures firstSelectedCard.None? && secondSelectedCard.None? && isFlipAllowed
      ensures Valid()
    {
      firstSelectedCard := None;
      secondSelectedCard := None;
      isFlipAllowed := true;
    }
  }

  /** Turning a face-down card face up keeps every open card open. */
  lemma OpenCardSurvives(before: seq<PuzzleCard>, after: seq<PuzzleCard>, index: int, pick: Option<PuzzleCard>)
    requires 0 <= index < |before| && !before[index].isFlipped
    requires after == ReplaceAt(before, index, before[index].WithFlipped(true))
    requires pick.Some? ==> HasOpenCard(before, pick.value.Id())
    ensures pick.Some? ==> HasOpenCard(after, pick.value.Id())
    ensures !before[index].isMatched ==> HasOpenCard(after, before[index].Id())
    ensures MatchesKept(before, after)
  {
    if pick.Some? {
      var k :| 0 <= k < |before| && before[k].Id() == pick.value.Id() && before[k].isFlipped && !before[k].isMatched;
      assert after[k] == before[k];
    }
    assert after[index] == before[index].WithFlipped(true);
  }

  /** The two faces of the test catalog, used by the scenarios below. */
  const FACE_A: PuzzleCard := Face(1, None, Some("\U{2705}"), false, false)
  const FACE_B: PuzzleCard := Face(2, None, Some("\U{1F992}"), false, false)

  /** With empty pick streams a 2x2 puzzle of two faces is dealt in catalog order. */
  lemma TwoPairGrid()
    ensures BuildGrid([Puzzle(1, "easy", 2, [FACE_A, FACE_B])], [], []) == Success([FACE_A, FACE_A, FACE_B, FACE_B])
  {
    var a, b := FACE_A, FACE_B;
    TotalCellsExact(2);
    ShuffleWithoutPicks(Pairs([a, b]));
    assert Take(Pairs([a, b]), 4) == [a, a, b, b];
    assert Padding(0) == [];
    assert Deal([a, b], [], 4) == [a, a, b, b];
    ShuffleWithoutPicks([a, a, b, b]);
  }

  /** A mismatch keeps the lock, refuses further flips, and the deferred flip-back restores the grid. */
  method MismatchScenario()
  {
    var a, b := FACE_A, FACE_B;
    TwoPairGrid();
    var game := new GameViewModel([Puzzle(1, "easy", 2, [a, b])], [], []);
    game.FlipCard(0);
    assert game.cards[0].isFlipped && game.firstSelectedCard == Some(a);
    game.FlipCard(2);
    assert !game.isFlipAllowed && game.cards[2].isFlipped;
    game.FlipCard(3);
    assert !game.cards[3].isFlipped;
    game.FlipBackCards();
    assert game.cards == [a, a, b, b] && game.isFlipAllowed;
  }

  /** Flipping both halves of each pair matches them at once and leaves the lock released. */
  method MatchScenario()
  {
    var a, b := FACE_A, FACE_B;
    TwoPairGrid();
    var game := new GameViewModel([Puzzle(1, "easy", 2, [a, b])], [], []);
    game.FlipCard(0);
    game.FlipCard(1);
    assert game.cards[0].isMatched && game.cards[1].isMatched && game.isFlipAllowed;
    assert game.cards[2] == b && game.cards[3] == b;
    game.FlipCard(2);
    assert game.firstSelectedCard == Some(b) && game.cards[3] == b;
    game.FlipCard(3);
    assert game.cards[0].isMatched && game.cards[1].isMatched;
    assert game.cards[2].isMatched && game.cards[3].isMatched && game.isFlipAllowed;
  }
}
