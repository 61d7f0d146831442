/**
 * The data records of the game: a card face (`PuzzleCard`), the padding
 * card `PuzzleCard.EMPTY`, and a puzzle definition (`Puzzle`).
 */
module Model {
  import opened Wrappers

  /** The identifier of the padding card; the click handler of the grid refuses cards with it. */
  const EMPTY_ID: int := -1

  /**
   * A card. `Face` is a `PuzzleCard` built from the catalog; `Empty` is the
   * padding card, which has no image and no emoji. Both carry the two mutable
   * flags that the game rewrites through `copy`.
   */
  datatype PuzzleCard =
    | Face(id: int, imageRes: Option<int>, emoji: Option<string>, isFlipped: bool, isMatched: bool)
    | Empty(isFlipped: bool, isMatched: bool)
  {
    /** The pairing key: two cards form a pair exactly when their ids are equal. */
    function Id(): (r: int) {
      if Face? then id else EMPTY_ID
    }

    /** The check of the `init` block: a face shows an image or an emoji. */
    predicate HasContent() {
      Face? ==> imageRes.Some? || emoji.Some?
    }

    /** Same variant, same id and the same image and emoji. */
    predicate SameFace(other: PuzzleCard) {
      && Face? == other.Face?
      && Id() == other.Id()
      && (Face? ==> imageRes == other.imageRes && emoji == other.emoji)
    }

    /** `copy(isFlipped = b)`. */
    function WithFlipped(b: bool): (c: PuzzleCard)
      ensures c.isFlipped == b && c.isMatched == isMatched
      ensures c.SameFace(this) && (HasContent() ==> c.HasContent())
    {
      this.(isFlipped := b)
    }

    /** `copy(isMatched = b)`. */
    function WithMatched(b: bool): (c: PuzzleCard)
      ensures c.isMatched == b && c.isFlipped == isFlipped
      ensures c.SameFace(this) && (HasContent() ==> c.HasContent())
    {
      this.(isMatched := b)
    }
  }

  /**
   * `PuzzleCard.EMPTY`, the padding card. Its declaration is not part of this
   * revision; the model takes it to have no image, no emoji and the default
   * flags (face down, unmatched).
   */
  const EMPTY: PuzzleCard := Empty(false, false)

  /** The `IllegalArgumentException` raised by the `require` in `init`. */
  datatype CardError = NoImageOrEmoji

  /**
   * The `PuzzleCard` constructor, with its defaults: no image, no emoji,
   * face down, unmatched. It fails exactly when neither image nor emoji is given.
   */
  function NewPuzzleCard(id: int, imageRes: Option<int> := None, emoji: Option<string> := None,
                         isFlipped: bool := false, isMatched: bool := false): (r: Result<PuzzleCard, CardError>)
    ensures r.Success? <==> imageRes.Some? || emoji.Some?
    ensures r.Failure? ==> r.error == NoImageOrEmoji
    ensures r.Success? ==> && r.value.Face? && r.value.HasContent() && r.value.Id() == id
                           && r.value.imageRes == imageRes && r.value.emoji == emoji
                           && r.value.isFlipped == isFlipped && r.value.isMatched == isMatched
  {
    if imageRes.None? && emoji.None? then Failure(NoImageOrEmoji)
    else Success(Face(id, imageRes, emoji, isFlipped, isMatched))
  }

  /** A card built with the default flags starts face down and unmatched. */
  lemma NewCardStartsFaceDown(id: int, imageRes: Option<int>, emoji: Option<string>)
    requires imageRes.Some? || emoji.Some?
    ensures NewPuzzleCard(id, imageRes, emoji).Success?
    ensures !NewPuzzleCard(id, imageRes, emoji).value.isFlipped
    ensures !NewPuzzleCard(id, imageRes, emoji).value.isMatched
  {
  }

  /** A puzzle of the catalog: `gridSize` is the side of the square grid. */
  datatype Puzzle = Puzzle(id: int, difficulty: string, gridSize: int, images: seq<PuzzleCard>)
}
