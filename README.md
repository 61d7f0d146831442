# Flip & Match: a Dafny model of the board and its data rules

This project models the core of the Flip & Match memory game, an Android
app in Kotlin:

- the board state machine of `GameViewModel`: building the grid from the
  first puzzle of the catalog, and the flip, match and flip-back cycle;
- the `PuzzleCard` record, its construction check and the padding card
  `PuzzleCard.EMPTY`;
- the score merge written by `updateUserScore`, and the leaderboard
  completion `getTopUsersWithCurrent` of `UserRepositoryImpl`;
- the settings encoding of `DataStoreManager`.

Files and modules:

| file | module | models |
|---|---|---|
| wrappers.dfy | `Wrappers` | Kotlin nullables (`Option`) and thrown exceptions (`Result`) |
| model.dfy | `Model` | `PuzzleCard`, `PuzzleCard.EMPTY`, `Puzzle` |
| shuffling.dfy | `Shuffling` | Kotlin's `shuffled()` |
| game.dfy | `Game` | `GameViewModel`: `loadPuzzles` as pure functions, and the class with its fields and methods |
| users.dfy | `Users` | the merge inside `updateUserScore`, `getTopUsersWithCurrent` |
| settings.dfy | `Settings` | `DataStoreManager`: readers as functions, setters as methods of a class |

How the model is built:

- `GameViewModel` updates its fields step by step, so it is a class.
  Its fields are `cards`, `firstSelectedCard`, `secondSelectedCard` and
  `isFlipAllowed`. Each private function of the source except
  `loadPuzzles` is a method of that class; `loadPuzzles` only computes the
  initial grid, so it is the pure function `BuildGrid`. `Valid()` is the
  invariant that the constructor, `FlipCard` and `FlipBackCards` keep,
  and that `MatchCards` and `ResetSelection` re-establish. `UpdateCard` and `CheckForMatch` are steps inside
  `flipCard`: they run while the invariant is briefly broken, and their
  contracts say exactly what they change.
  The per-card rewrites (`mapIndexed` and `map`) are the functions
  `ReplaceAt`, `MatchAll` and `FlipBackAll`.
- The randomness of `shuffled()` is a stream of picks given by the caller.
  Each pick chooses the next element, modulo the number of elements left.
  `Shuffling.ShuffleMultiset` proves that every stream yields a
  permutation. `Shuffling.PicksFor` proves that every permutation is
  yielded by some stream.
- `gridSize * gridSize` is computed in 32-bit `Int` arithmetic
  (`Game.TotalCells`). A negative product makes `take` throw, and an
  empty catalog makes `first()` throw. Both are `LoadError` values.
  The view model is only constructed when neither happens, because an
  exception in `init` yields no object.
- `PuzzleCard.EMPTY` is its own variant, `Empty`, and its id is -1.
  In this revision `data/model/PuzzleCard.kt` does not declare `EMPTY`. The id
  -1 comes from the grid's click handler, which skips cards with that id
  (`app/src/main/java/com/example/flipmatch/ui/components/GameGrid.kt:35`).
  The model assumes that `EMPTY` has neither an image nor an emoji and
  carries the default flags (face down, unmatched). Under the `init`
  check of this revision's `PuzzleCard` (`PuzzleCard.kt:14-16`, re-run by
  every `copy`), such a card could not exist, so the model gives it a
  variant of its own.
  Two components keep padding cards away from `flipCard`:
  `app/src/main/java/com/example/flipmatch/ui/components/GameGrid.kt:35`
  skips id -1, and `ui/components/FlipCard.kt:27-35` draws an `isEmpty`
  card as a box with no click handler. The screen that this revision
  wires to `flipCard` refuses nothing. It is `ui/game/GameScreen.kt:39-43`,
  which lays out its cells at lines 72-77 and uses its own `FlipCard` at
  lines 86-96. `flipCard` itself has no guard, and the model follows
  `flipCard`, so two padding cards flipped in turn match every padding
  card.
- The delayed coroutine that `checkForMatch` launches after a mismatch is
  the method `FlipBackCards`. The caller runs it once the delay has
  passed. It may run only while the lock is engaged.
- The preferences store is a map from key names to typed values.

In this revision of `app/src/main/java/com/example/flipmatch/ui/game/GameViewModel.kt`:

- `GameViewModel` has no score, moves, timer, hints, extra time or completion;
- the flip-back delay is 1000 ms;
- `flipCard` does not check the index, so `FlipCard` requires it to be
  in range (its one caller passes an index of the displayed grid);
- `flipCard` does not refuse padding cards.

In this revision `data/model/User.kt` declares only `uid`, `name`,
`profileImageUrl` and `score`, while `UserRepositoryImpl.kt` reads and
writes `totalScore` and `bestScores`. The model's `User` takes those two
fields from their use in `UserRepositoryImpl.kt` and its tests.

The methods `Game.MismatchScenario` and `Game.MatchScenario` are worked
examples of the play cycle on the 2x2 grid of `Game.TwoPairGrid`. They
have no contract of their own. They follow the flip-then-lock flow of
`app/src/test/java/com/example/flipmatch/ui/game/GameViewModelTest.kt:65-76`
and `:100-117`, without the score, which belongs to a later revision.
Their asserts check the flips, the lock, the deferred flip-back and the
matching of both halves of each pair.

## Model

| member | source | states |
|---|---|---|
| `Model.NewPuzzleCard` | app/src/main/java/com/example/flipmatch/data/model/PuzzleCard.kt:5-16 | construction fails exactly when neither an image nor an emoji is given; otherwise it yields a face with exactly the given id, image, emoji and flags |
| `Model.NewCardStartsFaceDown` | app/src/main/java/com/example/flipmatch/data/model/PuzzleCard.kt:10-11 | a card built with the default flags is face down and unmatched |
| `Model.PuzzleCard.WithFlipped` | app/src/main/java/com/example/flipmatch/data/model/PuzzleCard.kt:5-12 | `copy(isFlipped = b)` sets the face-up flag, keeps the match flag, and keeps the id, image, emoji and variant |
| `Model.PuzzleCard.WithMatched` | app/src/main/java/com/example/flipmatch/data/model/PuzzleCard.kt:5-12 | `copy(isMatched = b)` sets the match flag, keeps the face-up flag, and keeps the id, image, emoji and variant |
| `Shuffling.Shuffle` | app/src/main/java/com/example/flipmatch/ui/game/GameViewModel.kt:38 | the result of `shuffled()` under a pick stream: a list of the same length (its contents are the subject of `ShuffleMultiset` and `PicksFor`) |
| `Shuffling.ShuffleMultiset` | app/src/main/java/com/example/flipmatch/ui/game/GameViewModel.kt:38 | a shuffle keeps every element with its multiplicity |
| `Shuffling.PicksFor` | app/src/main/java/com/example/flipmatch/ui/game/GameViewModel.kt:38 | for every permutation `t` of `s` there is a pick stream whose shuffle of `s` is `t` |
| `Shuffling.EveryPermutationIsAShuffle` | app/src/main/java/com/example/flipmatch/ui/game/GameViewModel.kt:44 | every permutation of the input is a possible result of `shuffled()` |
| `Shuffling.ShuffleWithoutPicks` | app/src/main/java/com/example/flipmatch/ui/game/GameViewModel.kt:38 | an empty pick stream leaves the list in order |
| `Game.TotalCells` | app/src/main/java/com/example/flipmatch/ui/game/GameViewModel.kt:32 | `gridSize * gridSize` as a Kotlin `Int`: a value in the 32-bit range that agrees with the exact square modulo 2^32 |
| `Game.TotalCellsExact` | app/src/main/java/com/example/flipmatch/ui/game/GameViewModel.kt:31-32 | for grid sides of at most 46340 in absolute value, the 32-bit product is the exact square |
| `Game.BuildGrid` | app/src/main/java/com/example/flipmatch/ui/game/GameViewModel.kt:28-44 | fails with NoPuzzles exactly on an empty catalog; otherwise it fails exactly when the 32-bit cell count is negative; on success the grid has exactly that many cards |
| `Game.Pairs` | app/src/main/java/com/example/flipmatch/ui/game/GameViewModel.kt:35 | `flatMap { listOf(it, it) }`: twice as many cards as faces (their order and multiplicities are the subject of `PairsAt` and `PairsMultiset`) |
| `Game.PairsMultiset` | app/src/main/java/com/example/flipmatch/ui/game/GameViewModel.kt:35 | pairing holds every face exactly twice as often as the puzzle does |
| `Game.PairsAt` | app/src/main/java/com/example/flipmatch/ui/game/GameViewModel.kt:35 | pairing puts face `i` at positions `2i` and `2i+1` |
| `Game.Take` | app/src/main/java/com/example/flipmatch/ui/game/GameViewModel.kt:38 | `take(n)` is the prefix of length `min(n, size)` and a sub-multiset of the list |
| `Game.Padding` | app/src/main/java/com/example/flipmatch/ui/game/GameViewModel.kt:41-42 | the padding has the requested length and holds nothing but `EMPTY` |
| `Game.Deal` | app/src/main/java/com/example/flipmatch/ui/game/GameViewModel.kt:35-42 | the list before the final shuffle has exactly `totalCells` cards (which cards, `DealContents` states) |
| `Game.DealContents` | app/src/main/java/com/example/flipmatch/ui/game/GameViewModel.kt:35-42 | before the final shuffle there are at least `totalCells - min(2 * faces, totalCells)` padding cards, where `faces` is the number of the puzzle's images, exactly that many when the puzzle has no padding card, and no face more often than twice its count in the puzzle |
| `Game.GridContents` | app/src/main/java/com/example/flipmatch/ui/game/GameViewModel.kt:28-44 | the built grid has the padding count and face bounds of `DealContents` |
| `Game.GridCardsComeFromPuzzle` | app/src/main/java/com/example/flipmatch/ui/game/GameViewModel.kt:35-44 | every card of the built grid is `EMPTY` or one of the first puzzle's faces |
| `Game.GridStartsFaceDown` | app/src/main/java/com/example/flipmatch/ui/game/GameViewModel.kt:35-44 | a catalog of face-down, unmatched faces gives a grid that is all face down and unmatched |
| `Game.IdsOfShuffle` | app/src/main/java/com/example/flipmatch/ui/game/GameViewModel.kt:38 | the ids of a shuffled list are the same shuffle of the ids |
| `Game.GridIdsAtMostTwice` | app/src/main/java/com/example/flipmatch/ui/game/GameViewModel.kt:35-44 | when the puzzle's faces have distinct ids, no id other than the padding id occurs more than twice in the grid |
| `Game.ReplaceAt` | app/src/main/java/com/example/flipmatch/ui/game/GameViewModel.kt:81-89 | `updateCard` replaces the card at the index and keeps every other card and the length |
| `Game.MatchAll` | app/src/main/java/com/example/flipmatch/ui/game/GameViewModel.kt:91-95 | every card with the id becomes matched; faces, face-up flags, other cards and the length are kept |
| `Game.FlipBackAll` | app/src/main/java/com/example/flipmatch/ui/game/GameViewModel.kt:99-107 | every card with either id is turned face down; faces, match flags, other cards and the length are kept |
| `Game.GameViewModel.constructor` | app/src/main/java/com/example/flipmatch/ui/game/GameViewModel.kt:17-44 | the view model holds the built grid, no picks and an open lock, and satisfies the invariant |
| `Game.GameViewModel.FlipCard` | app/src/main/java/com/example/flipmatch/ui/game/GameViewModel.kt:47-64 | nothing changes while the lock is engaged or the card is face up or matched. Otherwise only the target card turns face up. It becomes the first pick when there is none. As a second pick with the first pick's id, every card with that id is matched, the picks are cleared and the lock is released. As a second pick with a different id, it is recorded and the lock stays engaged. The invariant is kept, and no match flag or length changes |
| `Game.GameViewModel.CheckForMatch` | app/src/main/java/com/example/flipmatch/ui/game/GameViewModel.kt:66-79 | with a missing pick nothing changes; with equal ids every card with that id is matched and the selection is reset at once; with different ids the cards and picks are kept and the lock is engaged |
| `Game.GameViewModel.UpdateCard` | app/src/main/java/com/example/flipmatch/ui/game/GameViewModel.kt:81-89 | the card list becomes `ReplaceAt` of the old list; picks and lock are unchanged |
| `Game.GameViewModel.MatchCards` | app/src/main/java/com/example/flipmatch/ui/game/GameViewModel.kt:91-97 | every card with the card's id is matched, then the picks are cleared and the lock released |
| `Game.GameViewModel.FlipBackCards` | app/src/main/java/com/example/flipmatch/ui/game/GameViewModel.kt:99-109 | callable only while the lock is engaged; every card with either pick's id is turned face down, the picks are cleared and the lock released, and no match is undone |
| `Game.GameViewModel.ResetSelection` | app/src/main/java/com/example/flipmatch/ui/game/GameViewModel.kt:111-115 | both picks cleared, lock released, cards unchanged; the invariant then holds |
| `Game.TwoPairGrid` | app/src/test/java/com/example/flipmatch/ui/game/GameViewModelTest.kt:49-61 | the test's 2x2 puzzle of two faces, shuffled with empty pick streams, is dealt as A, A, B, B |
| `Users.PreviousBest` | app/src/main/java/com/example/flipmatch/data/repository/UserRepositoryImpl.kt:60 | the stored best of the puzzle type, or 0 when there is none |
| `Users.MergeScore` | app/src/main/java/com/example/flipmatch/data/repository/UserRepositoryImpl.kt:52-63 | a missing document is read as `User()`. The total grows by the new score. The puzzle type's best becomes the larger of the new score and the previous best (or 0). Every other best, the uid and the name are kept, and no key is removed |
| `Users.FirstMerge` | app/src/main/java/com/example/flipmatch/data/repository/UserRepositoryImpl.kt:52-60 | the first merge for a user without a document gives total `newScore`, the single best `max(newScore, 0)` and an empty uid |
| `Users.MergeKeepsBests` | app/src/main/java/com/example/flipmatch/data/repository/UserRepositoryImpl.kt:60 | no best score ever decreases, and when all earlier bests are non-negative all bests stay non-negative, even for a negative new score |
| `Users.TotalIsSumOfRounds` | app/src/main/java/com/example/flipmatch/data/repository/UserRepositoryImpl.kt:57 | after any sequence of merges the total is the stored total plus the sum of the round scores |
| `Users.BestIsHighestRound` | app/src/main/java/com/example/flipmatch/data/repository/UserRepositoryImpl.kt:56-61 | after any sequence of merges a puzzle type has a best exactly when it had one or was played. That best is the highest of its round scores and its earlier best (0 if none). The uid and the name are those of the stored document |
| `Users.HasUid` | app/src/main/java/com/example/flipmatch/data/repository/UserRepositoryImpl.kt:79 | true exactly when some listed user has the uid |
| `Users.TopUsersWithCurrent` | app/src/main/java/com/example/flipmatch/data/repository/UserRepositoryImpl.kt:75-84 | the top users are returned unchanged when there is no current user or its uid is listed. Otherwise the current user is appended last. The result keeps the top users as its prefix, has one more element at most, contains the current uid whenever there is a current user, and adds no duplicate uid |
| `Settings.ReadDarkMode` | app/src/main/java/com/example/flipmatch/data/DataStoreManager.kt:27-33 | the stored string "DARK" reads as DARK and "LIGHT" as LIGHT; anything else, and no value, reads as SYSTEM |
| `Settings.ReadSound` | app/src/main/java/com/example/flipmatch/data/DataStoreManager.kt:36 | reads true when the key is absent; reads false exactly when false is stored |
| `Settings.ReadNotifications` | app/src/main/java/com/example/flipmatch/data/DataStoreManager.kt:37 | reads true when the key is absent; reads false exactly when false is stored |
| `Settings.Name` | app/src/main/java/com/example/flipmatch/data/DataStoreManager.kt:41 | `mode.name`: each of the three names belongs to exactly one mode |
| `Settings.DarkModeRoundTrip` | app/src/main/java/com/example/flipmatch/data/DataStoreManager.kt:27-42 | storing a mode's name and reading it back gives that mode, for all three modes |
| `Settings.NameInjective` | app/src/main/java/com/example/flipmatch/data/DataStoreManager.kt:41 | distinct modes are stored under distinct names |
| `Settings.DataStoreManager.SetDarkMode` | app/src/main/java/com/example/flipmatch/data/DataStoreManager.kt:39-43 | only the dark-mode key is written; the mode reads back, the other two settings read as before |
| `Settings.DataStoreManager.SetSound` | app/src/main/java/com/example/flipmatch/data/DataStoreManager.kt:45-47 | only the sound key is written; it reads back, the other two settings read as before |
| `Settings.DataStoreManager.SetNotifications` | app/src/main/java/com/example/flipmatch/data/DataStoreManager.kt:49-51 | only the notifications key is written; it reads back, the other two settings read as before |

## Left out

- The Compose UI (screens, grid, card, dialogs, progress bar) is rendering and layout. The `sqrt` grid width of the UI is floating point.
- Navigation, the app's theme lookup and dependency injection are wiring with no logic to prove.
- Firebase I/O is left out. This covers `getUserData`, `getCurrentUser`, `logout`, the ordered and limited query of `getTopUsers`, the transaction and `await` mechanics, and the mapping of exceptions to `null`, `false` or an empty list. The merge and the leaderboard rule take their inputs as parameters instead.
- Puzzle loading (JSON decoding, and an empty list on an I/O error) is a library call. The catalog is a parameter of `BuildGrid`.
- Time and concurrency: the `delay(1000)` and the coroutine launch are not modelled. The deferred step is the method `FlipBackCards`, which the caller invokes.
- The randomness of `shuffled()` is a caller-supplied pick stream. Its distribution is not modelled.
- Score, moves, timer, hints, extra time, completion and `startNewGame` are not part of the modelled `GameViewModel`. Its tests refer to them, but they belong to a later revision.
- `SettingsViewModel` and `SettingsRepository` only forward to `DataStoreManager`. They are not modelled.
- Settings.ReadSound: a non-boolean value stored under a boolean key reads as the default `true`, where Kotlin would throw a `ClassCastException`. Only the setters of this class write these keys.
- Settings.ReadNotifications: the same simplification as `ReadSound` for a non-boolean value under its key.
- Settings.ReadDarkMode: a non-string value stored under `"dark_mode"` reads as `SYSTEM`, where Kotlin's typed lookup would throw a `ClassCastException`. Only `SetDarkMode` writes this key, and it writes a string.
- Users.MergeScore: the total is an unbounded integer, so 32-bit overflow of `totalScore + newScore` is not modelled. This revision's `User.kt` does not declare the field, so its width is unknown.
- Users.MergeScore: the user record has only `uid`, `name`, `totalScore` and `bestScores`. Other document fields are not modelled; `copy` keeps them.
- Model.EMPTY: this revision does not declare `PuzzleCard.EMPTY`. The model takes its id -1 from `GameGrid.kt:35` and assumes no image, no emoji and the default flags (face down, unmatched). The padding half of `Game.GridStartsFaceDown` depends on these flags.
- Game.BuildGrid: the grid side is required to be a Kotlin `Int`. That is its declared type, so the requirement excludes no input of the source.
