/**
 * The per-session scoreboard: how many questions each player answered
 * first, and its competition ranking.
 */
module Scoreboard {
  import opened Wrappers
  import opened Dict
  import opened Ranking

  type PlayerId = int

  /** One line of a ranking: the rank, who, and the score. */
  datatype Row<T> = Row(rank: nat, who: T, score: int)

  /**
   * Row i shows the i-th of the `sorted` entries with its competition rank
   * among the scores `all`.
   */
  predicate RankedRows<T(==)>(rows: seq<Row<T>>, sorted: seq<(T, int)>, all: seq<int>) {
    |rows| <= |sorted|
    && forall i :: 0 <= i < |rows| ==> rows[i] == Row(RankOf(all, sorted[i].1), sorted[i].0, sorted[i].1)
  }

  /** The ranking loops append the next entry with its rank. */
  lemma RankedRowsSnoc<T>(rows: seq<Row<T>>, sorted: seq<(T, int)>, all: seq<int>)
    requires RankedRows(rows, sorted, all) && |rows| < |sorted|
    ensures RankedRows(rows + [Row(RankOf(all, sorted[|rows|].1), sorted[|rows|].0, sorted[|rows|].1)], sorted, all)
  {
  }

  /** The scores after `scores[p] = 0` for each listed player in turn. */
  function ZeroAll(d: Dict<PlayerId, int>, players: seq<PlayerId>): Dict<PlayerId, int>
  {
    if players == [] then d
    else Put(ZeroAll(d, players[..|players| - 1]), players[|players| - 1], 0)
  }

  /**
   * Resetting listed players: each of them ends up with score 0 and every
   * other player keeps presence and score.
   */
  lemma {:induction false} ZeroAllScores(d: Dict<PlayerId, int>, players: seq<PlayerId>, p: PlayerId)
    ensures p in players ==> p in Keys(ZeroAll(d, players)) && Get(ZeroAll(d, players), p) == 0
    ensures p !in players ==> (p in Keys(ZeroAll(d, players)) <==> p in Keys(d))
    ensures p !in players && p in Keys(d) ==> Get(ZeroAll(d, players), p) == Get(d, p)
  {
    if players != [] {
      var init, last := players[..|players| - 1], players[|players| - 1];
      assert players == init + [last];
      ZeroAllScores(d, init, p);
      if p != last {
        PutOther(ZeroAll(d, init), last, 0, p);
      }
    }
  }

  lemma {:induction false} ZeroAllDistinct(d: Dict<PlayerId, int>, players: seq<PlayerId>)
    requires DistinctKeys(d)
    ensures DistinctKeys(ZeroAll(d, players))
  {
    if players != [] {
      ZeroAllDistinct(d, players[..|players| - 1]);
      PutDistinct(ZeroAll(d, players[..|players| - 1]), players[|players| - 1], 0);
    }
  }

  class Leaderboard {
    /** `scores`: player to score, in the order players were first scored. */
    var scores: Dict<PlayerId, int>
    /**
     * Whether `scores` is still the `defaultdict(int)` the constructor made,
     * which reads a missing player as 0; `sort` rebinds it to a plain `dict`.
     */
    var defaulting: bool

    ghost predicate Valid()
      reads this
    {
      DistinctKeys(scores)
    }

    constructor ()
      ensures Valid() && scores == [] && defaulting
    {
      scores := [];
      defaulting := true;
    }

    /** `initialize`: every listed player starts (again) at 0. */
    method Initialize(players: seq<PlayerId>)
      requires Valid()
      modifies this
      ensures Valid()
      ensures scores == ZeroAll(old(scores), players)
      ensures defaulting == old(defaulting)
    {
      ghost var start := scores;
      for i := 0 to |players|
        invariant scores == ZeroAll(start, players[..i])
        invariant DistinctKeys(scores) && defaulting == old(defaulting)
      {
        assert players[..i + 1][..i] == players[..i];
        PutDistinct(scores, players[i], 0);
        scores := Put(scores, players[i], 0);
      }
      assert players[..|players|] == players;
    }

    /**
     * `increment_score`: one more point for this player, who starts from 0 if
     * unseen while the board is still a `defaultdict`; once `sort` has made it
     * a plain `dict`, an unseen player raises a KeyError and nothing changes.
     */
    method IncrementScore(userId: PlayerId) returns (r: Result<()>)
      requires Valid()
      modifies this
      ensures Valid() && defaulting == old(defaulting)
      ensures r.Err? <==> !old(defaulting) && userId !in Keys(old(scores))
      ensures r.Err? ==> r.error == KeyError && scores == old(scores)
      ensures r.Ok? ==> scores == Put(old(scores), userId, GetOr(old(scores), userId, 0) + 1)
      ensures r.Ok? ==> userId in Keys(scores) && Get(scores, userId) == GetOr(old(scores), userId, 0) + 1
      ensures forall p :: p != userId ==> (p in Keys(scores) <==> p in Keys(old(scores)))
      ensures forall p :: p != userId && p in Keys(old(scores)) ==> Get(scores, p) == Get(old(scores), p)
    {
      if !defaulting && userId !in Keys(scores) {
        return Err(KeyError);
      }
      var value := GetOr(scores, userId, 0) + 1;
      PutDistinct(scores, userId, value);
      forall p | p != userId ensures (p in Keys(Put(scores, userId, value)) <==> p in Keys(scores))
        && (p in Keys(scores) ==> Get(Put(scores, userId, value), p) == Get(scores, p))
      {
        PutOther(scores, userId, value, p);
      }
      scores := Put(scores, userId, value);
      r := Ok(());
    }

    /**
     * `sort`: reorders the players by score, highest first, ties in their old
     * order, into a plain `dict` that no longer defaults a missing player to 0.
     */
    method Sort()
      requires Valid()
      modifies this
      ensures Valid() && !defaulting
      ensures scores == SortDesc(old(scores))
      ensures NonIncreasing(scores) && multiset(scores) == multiset(old(scores))
      ensures forall v :: WithScore(scores, v) == WithScore(old(scores), v)
    {
      SortDescProperties(scores);
      SortDescDistinct(scores);
      forall v ensures WithScore(SortDesc(scores), v) == WithScore(scores, v) {
        SortDescStable(scores, v);
      }
      scores := SortDesc(scores);
      defaulting := false;
    }

    /** `reset`: back to an empty scoreboard, a `defaultdict` again. */
    method Reset()
      modifies this
      ensures Valid() && scores == [] && defaulting
    {
      scores := [];
      defaulting := true;
    }

    /** `__len__`: the number of players. */
    function Len(): (n: nat)
      reads this
      ensures n == |Keys(scores)|
    {
      |scores|
    }

    /**
     * `get_leaderboard`: one row per player, highest score first, where each
     * rank is 1 + the number of players with a strictly higher score.
     */
    method GetLeaderboard() returns (lb: seq<Row<PlayerId>>)
      requires Valid()
      ensures |lb| == |scores| && RankedRows(lb, SortDesc(scores), Scores(scores))
      ensures NonIncreasing(SortDesc(scores)) && multiset(SortDesc(scores)) == multiset(scores)
    {
      var sortedPlayers := SortDesc(scores);
      SortDescProperties(scores);
      lb := [];
      var currentRank := 1;
      var currentScore: Option<int> := None;
      for index := 0 to |sortedPlayers|
        invariant |lb| == index && RankedRows(lb, sortedPlayers, Scores(scores))
        invariant index == 0 ==> currentScore == None
        invariant index > 0 ==> currentScore == Some(sortedPlayers[index - 1].1)
        invariant index > 0 ==> currentRank == RankOf(Scores(scores), sortedPlayers[index - 1].1)
      {
        var (playerId, score) := sortedPlayers[index];
        if currentScore != Some(score) {
          RankAtScoreChange(sortedPlayers, index);
          CountAboveSort(scores, score);
          currentRank := index + 1;
          currentScore := Some(score);
        }
        RankedRowsSnoc(lb, sortedPlayers, Scores(scores));
        lb := lb + [Row(currentRank, playerId, score)];
      }
    }
  }

  /** The ranking of 5, 5, 3, 1 is 1, 1, 3, 4. */
  lemma CompetitionRankingExample()
    ensures RankOf([5, 5, 3, 1], 5) == 1 && RankOf([5, 5, 3, 1], 3) == 3 && RankOf([5, 5, 3, 1], 1) == 4
  {
  }
}
