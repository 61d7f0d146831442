/**
 * The two pure rules inside `UserRepositoryImpl`: how a finished round's
 * score is merged into the user's document, and how the leaderboard list
 * is completed with the signed-in user.
 */
module Users {
  import opened Wrappers

  /** A user document: running total and the best score per puzzle type. */
  datatype User = User(uid: string, name: string, totalScore: int, bestScores: map<string, int>)

  /** `User()`: the value a missing document is read as. */
  const DEFAULT_USER: User := User("", "", 0, map[])

  /** `maxOf(a, b)`. */
  function Max(a: int, b: int): (r: int) {
    if a < b then b else a
  }

  /** `bestScores[puzzleType] ?: 0`. */
  function PreviousBest(user: User, puzzleType: string): (r: int)
    ensures puzzleType in user.bestScores ==> r == user.bestScores[puzzleType]
    ensures puzzleType !in user.bestScores ==> r == 0
  {
    if puzzleType in user.bestScores then user.bestScores[puzzleType] else 0
  }

  /**
   * The document written by the transaction of `updateUserScore`: the stored
   * user (or `User()` when there is none) with `newScore` added to the total
   * and the best score of `puzzleType` raised to `newScore` if that is higher.
   */
  function MergeScore(stored: Option<User>, puzzleType: string, newScore: int): (r: User)
    ensures var user := stored.GetOr(DEFAULT_USER);
      && r.uid == user.uid && r.name == user.name
      && r.totalScore == user.totalScore + newScore
      && r.bestScores.Keys == user.bestScores.Keys + {puzzleType}
      && r.bestScores[puzzleType] >= newScore
      && r.bestScores[puzzleType] >= PreviousBest(user, puzzleType)
      && (r.bestScores[puzzleType] == newScore || r.bestScores[puzzleType] == PreviousBest(user, puzzleType))
      && forall t :: t in user.bestScores && t != puzzleType ==> r.bestScores[t] == user.bestScores[t]
  {
    var user := stored.GetOr(DEFAULT_USER);
    user.(totalScore := user.totalScore + newScore,
          bestScores := user.bestScores[puzzleType := Max(newScore, PreviousBest(user, puzzleType))])
  }

  /** The first score of a user without a document: the total is that score, the best is it or 0. */
  lemma FirstMerge(puzzleType: string, newScore: int)
    ensures MergeScore(None, puzzleType, newScore).totalScore == newScore
    ensures MergeScore(None, puzzleType, newScore).bestScores == map[puzzleType := Max(newScore, 0)]
    ensures MergeScore(None, puzzleType, newScore).uid == ""
  {
  }

  /** A merge never lowers any best score, and never lowers a non-negative best below 0. */
  lemma MergeKeepsBests(user: User, puzzleType: string, newScore: int)
    ensures var r := MergeScore(Some(user), puzzleType, newScore);
      forall t :: t in user.bestScores ==> t in r.bestScores && r.bestScores[t] >= user.bestScores[t]
    ensures (forall t :: t in user.bestScores ==> user.bestScores[t] >= 0) ==>
      var r := MergeScore(Some(user), puzzleType, newScore);
      forall t :: t in r.bestScores ==> r.bestScores[t] >= 0
  {
  }

  /** One finished round: its puzzle type and score. */
  datatype RoundScore = RoundScore(puzzleType: string, score: int)

  /** The document after merging the rounds one after another, starting from `stored`. */
  function MergeAll(stored: Option<User>, rounds: seq<RoundScore>): (r: User)
    decreases |rounds|
  {
    if rounds == [] then stored.GetOr(DEFAULT_USER)
    else
      var last := rounds[|rounds| - 1];
      MergeScore(Some(MergeAll(stored, rounds[..|rounds| - 1])), last.puzzleType, last.score)
  }

  /** The sum of the scores of the rounds. */
  function SumScores(rounds: seq<RoundScore>): (r: int)
    decreases |rounds|
  {
    if rounds == [] then 0 else SumScores(rounds[..|rounds| - 1]) + rounds[|rounds| - 1].score
  }

  /** The highest score among the rounds of one puzzle type, never below `floor`. */
  function BestOf(rounds: seq<RoundScore>, puzzleType: string, floor: int): (r: int)
    decreases |rounds|
  {
    if rounds == [] then floor
    else
      var last := rounds[|rounds| - 1];
      var before := BestOf(rounds[..|rounds| - 1], puzzleType, floor);
      if last.puzzleType == puzzleType then Max(last.score, before) else before
  }

  /** After any sequence of rounds the total is the stored total plus the sum of all round scores. */
  lemma {:induction false} TotalIsSumOfRounds(stored: Option<User>, rounds: seq<RoundScore>)
    ensures MergeAll(stored, rounds).totalScore == stored.GetOr(DEFAULT_USER).totalScore + SumScores(rounds)
    decreases |rounds|
  {
    if rounds != [] {
      TotalIsSumOfRounds(stored, rounds[..|rounds| - 1]);
    }
  }

  /**
   * After any sequence of rounds the best score of a puzzle type that has
   * been played is the highest of its round scores and its earlier best
   * (0 when it had none); uid and name are those of the stored document.
   */
  lemma {:induction false} BestIsHighestRound(stored: Option<User>, rounds: seq<RoundScore>, puzzleType: string)
    ensures var user := stored.GetOr(DEFAULT_USER);
      var r := MergeAll(stored, rounds);
      && r.uid == user.uid && r.name == user.name
      && (puzzleType in r.bestScores <==> puzzleType in user.bestScores || exists i :: 0 <= i < |rounds| && rounds[i].puzzleType == puzzleType)
      && (puzzleType in r.bestScores ==> r.bestScores[puzzleType] == BestOf(rounds, puzzleType, PreviousBest(user, puzzleType)))
    decreases |rounds|
  {
    if rounds != [] {
      var init := rounds[..|rounds| - 1];
      BestIsHighestRound(stored, init, puzzleType);
      var user := stored.GetOr(DEFAULT_USER);
      var prev := MergeAll(stored, init);
      var last := rounds[|rounds| - 1];
      if last.puzzleType != puzzleType {
        assert forall i :: 0 <= i < |init| ==> init[i] == rounds[i];
      } else if puzzleType !in prev.bestScores {
        // The type is played for the first time in the last round.
        NoRoundKeepsFloor(init, puzzleType, PreviousBest(user, puzzleType));
      }
    }
  }

  /** Without a round of the type, `BestOf` is its floor. */
  lemma {:induction false} NoRoundKeepsFloor(rounds: seq<RoundScore>, puzzleType: string, floor: int)
    requires forall i :: 0 <= i < |rounds| ==> rounds[i].puzzleType != puzzleType
    ensures BestOf(rounds, puzzleType, floor) == floor
    decreases |rounds|
  {
    if rounds != [] {
      NoRoundKeepsFloor(rounds[..|rounds| - 1], puzzleType, floor);
    }
  }

  /** `topUsers.none { it.uid == uid }`, negated: some user in the list has the uid. */
  function HasUid(users: seq<User>, uid: string): (r: bool)
    ensures r <==> exists i :: 0 <= i < |users| && users[i].uid == uid
  {
    if users == [] then false
    else users[0].uid == uid || HasUid(users[1..], uid)
  }

  /** No two users of the list share a uid. */
  predicate DistinctUids(users: seq<User>) {
    forall i, j :: 0 <= i < j < |users| ==> users[i].uid != users[j].uid
  }

  /**
   * `getTopUsersWithCurrent`: the top users, with the signed-in user added
   * last when there is one and no top user has its uid.
   */
  function TopUsersWithCurrent(topUsers: seq<User>, currentUser: Option<User>): (r: seq<User>)
    ensures currentUser.None? ==> r == topUsers
    ensures currentUser.Some? && (exists i :: 0 <= i < |topUsers| && topUsers[i].uid == currentUser.value.uid) ==> r == topUsers
    ensures currentUser.Some? && (forall i :: 0 <= i < |topUsers| ==> topUsers[i].uid != currentUser.value.uid) ==>
      r == topUsers + [currentUser.value]
    ensures |r| == |topUsers| || |r| == |topUsers| + 1
    ensures r[..|topUsers|] == topUsers
    ensures currentUser.Some? ==> exists i :: 0 <= i < |r| && r[i].uid == currentUser.value.uid
    ensures DistinctUids(topUsers) ==> DistinctUids(r)
  {
    if currentUser.Some? && !HasUid(topUsers, currentUser.value.uid) then
      var r := topUsers + [currentUser.value];
      assert r[|topUsers|] == currentUser.value;
      r
    else topUsers
  }
}
