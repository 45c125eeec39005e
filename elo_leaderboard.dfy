/**
 * The persistent rating store: guild -> player -> {name, elo?}.  Ratings
 * are read with a default, records are created lazily, and the end of a
 * ranked session updates every player's rating in one batch computed from
 * a frozen snapshot.
 */
module EloStore {
  import opened Wrappers
  import opened Dict
  import opened Ranking
  import Scoreboard

  type GuildId = int
  type PlayerId = int

  const DEFAULT_ELO: int := 1000
  const LEADERBOARD_MAX_DISPLAY: nat := 20
  /** The elo value at which the rated leaderboard stops listing. */
  const STOP_ELO: int := -1

  /** A stored record: the display name and, once rated, the elo. */
  datatype PlayerInfo = PlayerInfo(name: Option<string>, elo: Option<int>)

  type Table = Dict<PlayerId, PlayerInfo>
  type Store = map<GuildId, Table>

  /** The foreign rating step `elo_formula(elo, score, opponent_elo, opponent_score)`. */
  type EloFormula = (int, int, int, int) -> int

  ghost predicate WellFormed(data: Store) {
    forall g :: g in data ==> DistinctKeys(data[g])
  }

  function TableOf(data: Store, g: GuildId): Table {
    if g in data then data[g] else []
  }

  predicate HasRecord(data: Store, g: GuildId, p: PlayerId) {
    g in data && p in Keys(data[g])
  }

  /** The rating `get_elo` reports: the stored elo, or the default. */
  function Rating(data: Store, g: GuildId, p: PlayerId): int {
    if HasRecord(data, g, p) then Get(data[g], p).elo.GetOr(DEFAULT_ELO) else DEFAULT_ELO
  }

  /** `default_info`: a name-only record. */
  function DefaultInfo(name: Option<string>): (info: PlayerInfo)
    ensures info.elo == None && info.name == name
  {
    PlayerInfo(name, None)
  }

  /** The store once `get_elo` has looked a player up: the guild and a record exist. */
  function Touch(data: Store, g: GuildId, p: PlayerId, name: Option<string>): Store {
    if HasRecord(data, g, p) then data
    else data[g := Put(TableOf(data, g), p, DefaultInfo(name))]
  }

  /** The store after looking up each listed player (without a name) in turn. */
  function TouchAll(data: Store, g: GuildId, ps: seq<PlayerId>): Store {
    if ps == [] then data
    else Touch(TouchAll(data, g, ps[..|ps| - 1]), g, ps[|ps| - 1], None)
  }

  /** `_update_elo`: the record's elo is replaced, its name kept. */
  function SetElo(data: Store, g: GuildId, p: PlayerId, e: int): Store {
    if HasRecord(data, g, p) then data[g := Put(data[g], p, PlayerInfo(Get(data[g], p).name, Some(e)))]
    else data
  }

  /** The store after `_update_elo` for each computed rating in turn. */
  function SetElos(data: Store, g: GuildId, updates: Dict<PlayerId, (int, int)>): Store {
    if updates == [] then data
    else SetElo(SetElos(data, g, updates[..|updates| - 1]), g, updates[|updates| - 1].0, updates[|updates| - 1].1.0)
  }

  /**
   * A lookup changes no rating anywhere, keeps every existing record, and
   * leaves a record for the player looked up.
   */
  lemma TouchEffect(data: Store, g: GuildId, p: PlayerId, name: Option<string>, g': GuildId, q: PlayerId)
    requires WellFormed(data)
    ensures WellFormed(Touch(data, g, p, name))
    ensures Rating(Touch(data, g, p, name), g', q) == Rating(data, g', q)
    ensures HasRecord(Touch(data, g, p, name), g', q) <==> HasRecord(data, g', q) || (g' == g && q == p)
    ensures HasRecord(data, g', q) ==> Get(Touch(data, g, p, name)[g'], q) == Get(data[g'], q)
    ensures !HasRecord(data, g, p) ==> Get(Touch(data, g, p, name)[g], p) == DefaultInfo(name)
    ensures g' != g ==> (g' in Touch(data, g, p, name) <==> g' in data)
  {
    if !HasRecord(data, g, p) {
      PutDistinct(TableOf(data, g), p, DefaultInfo(name));
      if g' == g && q != p {
        PutOther(TableOf(data, g), p, DefaultInfo(name), q);
      }
    }
  }

  /** Looking up the same player twice is the same as looking them up once. */
  lemma TouchIdempotent(data: Store, g: GuildId, p: PlayerId, name: Option<string>, name': Option<string>)
    ensures Touch(Touch(data, g, p, name), g, p, name') == Touch(data, g, p, name)
  {
  }

  lemma {:induction false} TouchAllEffect(data: Store, g: GuildId, ps: seq<PlayerId>, g': GuildId, q: PlayerId)
    requires WellFormed(data)
    ensures WellFormed(TouchAll(data, g, ps))
    ensures Rating(TouchAll(data, g, ps), g', q) == Rating(data, g', q)
    ensures HasRecord(TouchAll(data, g, ps), g', q) <==> HasRecord(data, g', q) || (g' == g && q in ps)
    ensures HasRecord(data, g', q) ==> Get(TouchAll(data, g, ps)[g'], q) == Get(data[g'], q)
  {
    if ps != [] {
      var init, last := ps[..|ps| - 1], ps[|ps| - 1];
      assert ps == init + [last];
      TouchAllEffect(data, g, init, g', q);
      TouchEffect(TouchAll(data, g, init), g, last, None, g', q);
    }
  }

  lemma SetEloEffect(data: Store, g: GuildId, p: PlayerId, e: int, g': GuildId, q: PlayerId)
    requires WellFormed(data)
    ensures WellFormed(SetElo(data, g, p, e))
    ensures HasRecord(SetElo(data, g, p, e), g', q) <==> HasRecord(data, g', q)
    ensures HasRecord(data, g, p) ==> Get(SetElo(data, g, p, e)[g], p) == PlayerInfo(Get(data[g], p).name, Some(e))
    ensures HasRecord(data, g', q) && (g', q) != (g, p) ==> Get(SetElo(data, g, p, e)[g'], q) == Get(data[g'], q)
  {
    if HasRecord(data, g, p) {
      var info := PlayerInfo(Get(data[g], p).name, Some(e));
      PutDistinct(data[g], p, info);
      if g' == g && q != p {
        PutOther(data[g], p, info, q);
      }
    }
  }

  /** A batch of updates keeps the store well formed and creates or drops no record. */
  lemma {:induction false} SetElosShape(data: Store, g: GuildId, updates: Dict<PlayerId, (int, int)>, g': GuildId, q: PlayerId)
    requires WellFormed(data)
    ensures WellFormed(SetElos(data, g, updates))
    ensures HasRecord(SetElos(data, g, updates), g', q) <==> HasRecord(data, g', q)
  {
    if updates != [] {
      var init, last := updates[..|updates| - 1], updates[|updates| - 1];
      SetElosShape(data, g, init, g', q);
      SetEloEffect(SetElos(data, g, init), g, last.0, last.1.0, g', q);
    }
  }

  /** A batch of updates leaves the record of every player it does not list as it was. */
  lemma {:induction false} SetElosOther(data: Store, g: GuildId, updates: Dict<PlayerId, (int, int)>, g': GuildId, q: PlayerId)
    requires WellFormed(data) && HasRecord(data, g', q)
    requires !(g' == g && q in Keys(updates))
    ensures HasRecord(SetElos(data, g, updates), g', q)
    ensures Get(SetElos(data, g, updates)[g'], q) == Get(data[g'], q)
  {
    if updates != [] {
      var init, last := updates[..|updates| - 1], updates[|updates| - 1];
      assert Keys(updates) == Keys(init) + [last.0];
      SetElosOther(data, g, init, g', q);
      SetElosShape(data, g, init, g', q);
      SetEloEffect(SetElos(data, g, init), g, last.0, last.1.0, g', q);
    }
  }

  /** The last update of a batch, for a player listed only there, sets their rating. */
  lemma SetElosLast(data: Store, g: GuildId, updates: Dict<PlayerId, (int, int)>)
    requires WellFormed(data) && updates != [] && HasRecord(data, g, updates[|updates| - 1].0)
    requires updates[|updates| - 1].0 !in Keys(updates[..|updates| - 1])
    ensures HasRecord(SetElos(data, g, updates), g, updates[|updates| - 1].0)
    ensures Get(SetElos(data, g, updates)[g], updates[|updates| - 1].0)
         == PlayerInfo(Get(data[g], updates[|updates| - 1].0).name, Some(updates[|updates| - 1].1.0))
  {
    var init, last := updates[..|updates| - 1], updates[|updates| - 1];
    SetElosOther(data, g, init, g, last.0);
    SetElosShape(data, g, init, g, last.0);
    SetEloEffect(SetElos(data, g, init), g, last.0, last.1.0, g, last.0);
  }

  /**
   * A batch of updates with distinct players, all on record: each listed
   * player holds its new rating under its old name.
   */
  lemma {:induction false} SetElosListed(data: Store, g: GuildId, updates: Dict<PlayerId, (int, int)>, q: PlayerId)
    requires WellFormed(data) && DistinctKeys(updates)
    requires forall p :: p in Keys(updates) ==> HasRecord(data, g, p)
    requires q in Keys(updates) && HasRecord(data, g, q)
    ensures HasRecord(SetElos(data, g, updates), g, q)
    ensures Get(SetElos(data, g, updates)[g], q) == PlayerInfo(Get(data[g], q).name, Some(Get(updates, q).0))
    decreases |updates|, 1
  {
    var init, last := updates[..|updates| - 1], updates[|updates| - 1];
    assert updates == init + [last];
    assert Keys(updates) == Keys(init) + [last.0];
    if q == last.0 {
      assert q !in Keys(init);
      SetElosLast(data, g, updates);
      GetAt(updates, |updates| - 1);
    } else {
      SetElosListedInit(data, g, updates, q);
    }
  }

  /** The inductive case of SetElosListed: the player was listed before the last update. */
  lemma {:induction false} SetElosListedInit(data: Store, g: GuildId, updates: Dict<PlayerId, (int, int)>, q: PlayerId)
    requires WellFormed(data) && DistinctKeys(updates)
    requires forall p :: p in Keys(updates) ==> HasRecord(data, g, p)
    requires updates != [] && q in Keys(updates[..|updates| - 1]) && HasRecord(data, g, q)
    ensures HasRecord(SetElos(data, g, updates), g, q)
    ensures Get(SetElos(data, g, updates)[g], q) == PlayerInfo(Get(data[g], q).name, Some(Get(updates, q).0))
    decreases |updates|, 0
  {
    var init, last := updates[..|updates| - 1], updates[|updates| - 1];
    var k :| 0 <= k < |init| && init[k].0 == q;
    assert updates == init + [last];
    assert Keys(updates) == Keys(init) + [last.0];
    assert q != last.0;
    forall p | p in Keys(init) ensures HasRecord(data, g, p) {
      assert p in Keys(updates);
    }
    SetElosListed(data, g, init, q);
    SetElosShape(data, g, init, g, q);
    SetEloEffect(SetElos(data, g, init), g, last.0, last.1.0, g, q);
    GetAt(updates, k);
    GetAt(init, k);
  }

  /** The snapshot `current_elo`: each listed player's rating before the batch. */
  function Snapshot(data: Store, g: GuildId, board: Dict<PlayerId, int>): (snap: map<PlayerId, int>)
    ensures forall q :: q in snap <==> q in Keys(board)
  {
    map q | q in Keys(board) :: Rating(data, g, q)
  }

  lemma KeysSnoc(board: Dict<PlayerId, int>, i: nat)
    requires i < |board|
    ensures Keys(board[..i + 1]) == Keys(board[..i]) + [board[i].0]
  {
    assert board[..i + 1] == board[..i] + [board[i]];
  }

  /** Looking up one more leaderboard player extends the lookups... */
  lemma TouchStep(data: Store, g: GuildId, board: Dict<PlayerId, int>, i: nat)
    requires i < |board|
    ensures TouchAll(data, g, Keys(board[..i + 1]))
         == Touch(TouchAll(data, g, Keys(board[..i])), g, board[i].0, None)
  {
    KeysSnoc(board, i);
    var ks := Keys(board[..i + 1]);
    assert ks[..|ks| - 1] == Keys(board[..i]);
  }

  /** ... and the snapshot. */
  lemma SnapshotStep(data: Store, g: GuildId, board: Dict<PlayerId, int>, i: nat)
    requires i < |board|
    ensures Snapshot(data, g, board[..i + 1])
         == Snapshot(data, g, board[..i])[board[i].0 := Rating(data, g, board[i].0)]
  {
    KeysSnoc(board, i);
    var m := Snapshot(data, g, board[..i + 1]);
    var m' := Snapshot(data, g, board[..i])[board[i].0 := Rating(data, g, board[i].0)];
    forall q ensures q in m <==> q in m' {
      assert q in Keys(board[..i + 1]) <==> q in Keys(board[..i]) || q == board[i].0;
    }
  }

  /**
   * A snapshot lookup.  Every id the batch looks up is in the snapshot, so
   * the fallback value is never used.
   */
  function Lookup(snap: map<PlayerId, int>, q: PlayerId): int {
    if q in snap then snap[q] else DEFAULT_ELO
  }

  /**
   * `additionnal_elo`: the sum of the formula over the opponents, i.e. every
   * entry other than the player's own, read from the snapshot.
   */
  function Gain(f: EloFormula, snap: map<PlayerId, int>, p: PlayerId, score: int, opponents: Dict<PlayerId, int>): int
  {
    if opponents == [] then 0
    else
      var (o, os) := opponents[0];
      (if o != p then f(Lookup(snap, p), score, Lookup(snap, o), os) else 0) + Gain(f, snap, p, score, opponents[1..])
  }

  /** The opponent sum is additive over a split of the opponents. */
  lemma {:induction false} GainAppend(f: EloFormula, snap: map<PlayerId, int>, p: PlayerId, score: int, a: Dict<PlayerId, int>, b: Dict<PlayerId, int>)
    ensures Gain(f, snap, p, score, a + b) == Gain(f, snap, p, score, a) + Gain(f, snap, p, score, b)
  {
    assert forall i :: 0 <= i < |a| ==> (a + b)[i] == a[i];
    assert forall i :: 0 <= i < |b| ==> (a + b)[|a| + i] == b[i];
    if a == [] {
      assert a + b == b;
    } else {
      assert (a + b)[1..] == a[1..] + b;
      GainAppend(f, snap, p, score, a[1..], b);
    }
  }

  /** Moving one opponent to the front does not change the sum. */
  lemma GainMoveFront(f: EloFormula, snap: map<PlayerId, int>, p: PlayerId, score: int, b1: Dict<PlayerId, int>, x: (PlayerId, int), b2: Dict<PlayerId, int>)
    ensures Gain(f, snap, p, score, b1 + [x] + b2) == Gain(f, snap, p, score, [x] + (b1 + b2))
  {
    GainAppend(f, snap, p, score, b1 + [x], b2);
    GainAppend(f, snap, p, score, b1, [x]);
    GainAppend(f, snap, p, score, b1, b2);
    assert ([x] + (b1 + b2))[1..] == b1 + b2;
    assert ([x] + [])[1..] == [];
  }

  /** A permutation of `a` is some `b1 + [a[0]] + b2` with `b1 + b2` a permutation of the rest. */
  lemma SplitAt<T>(a: seq<T>, b: seq<T>) returns (b1: seq<T>, b2: seq<T>)
    requires multiset(a) == multiset(b) && a != []
    ensures b == b1 + [a[0]] + b2 && multiset(a[1..]) == multiset(b1 + b2)
  {
    var x := a[0];
    assert x in multiset(b);
    var k :| 0 <= k < |b| && b[k] == x;
    b1, b2 := b[..k], b[k + 1..];
    assert b == b1 + [x] + b2;
    assert a == [x] + a[1..];
    assert multiset(a[1..]) == multiset(a) - multiset{x};
    assert multiset(b1 + b2) == multiset(b) - multiset{x};
  }

  /**
   * The gain depends only on which opponents there are, not on the order in
   * which the leaderboard lists them.
   */
  lemma {:induction false} GainPermutation(f: EloFormula, snap: map<PlayerId, int>, p: PlayerId, score: int, a: Dict<PlayerId, int>, b: Dict<PlayerId, int>)
    requires multiset(a) == multiset(b)
    ensures Gain(f, snap, p, score, a) == Gain(f, snap, p, score, b)
  {
    if a != [] {
      var b1, b2 := SplitAt(a, b);
      GainPermutation(f, snap, p, score, a[1..], b1 + b2);
      GainMoveFront(f, snap, p, score, b1, a[0], b2);
      assert a == [a[0]] + a[1..];
    }
  }

  /** What the batch records for entry `k` of the leaderboard: new elo and delta. */
  function Change(f: EloFormula, snap: map<PlayerId, int>, board: Dict<PlayerId, int>, k: nat): (PlayerId, (int, int))
    requires k < |board|
  {
    var (p, score) := board[k];
    var gain := Gain(f, snap, p, score, board);
    (p, (Lookup(snap, p) + gain, gain))
  }

  lemma ChangeValue(f: EloFormula, snap: map<PlayerId, int>, board: Dict<PlayerId, int>, k: nat, p: PlayerId, score: int, elo: int, gain: int)
    requires k < |board| && board[k] == (p, score)
    requires p in snap && elo == snap[p] && gain == Gain(f, snap, p, score, board)
    ensures Change(f, snap, board, k) == (p, (elo + gain, gain))
  {
  }

  /** The changes for the first `n` leaderboard entries, in leaderboard order. */
  function Changes(f: EloFormula, snap: map<PlayerId, int>, board: Dict<PlayerId, int>, n: nat): (r: Dict<PlayerId, (int, int)>)
    requires n <= |board|
    ensures |r| == n
  {
    if n == 0 then [] else Changes(f, snap, board, n - 1) + [Change(f, snap, board, n - 1)]
  }

  /** Entry `k` of the changes is the change for leaderboard entry `k`. */
  lemma {:induction false} ChangesAt(f: EloFormula, snap: map<PlayerId, int>, board: Dict<PlayerId, int>, n: nat, k: nat)
    requires n <= |board| && k < n
    ensures Changes(f, snap, board, n)[k] == Change(f, snap, board, k)
  {
    if k < n - 1 {
      ChangesAt(f, snap, board, n - 1, k);
    }
  }

  /** The changes name the leaderboard's players, in leaderboard order. */
  lemma {:induction false} ChangesKeys(f: EloFormula, snap: map<PlayerId, int>, board: Dict<PlayerId, int>, n: nat)
    requires n <= |board|
    ensures Keys(Changes(f, snap, board, n)) == Keys(board[..n])
  {
    forall k | 0 <= k < n ensures Changes(f, snap, board, n)[k].0 == board[k].0 {
      ChangesAt(f, snap, board, n, k);
    }
  }

  /**
   * One step of the batch: the next change goes to a player not yet updated,
   * so recording it extends the result in leaderboard order.
   */
  lemma BatchChanges(f: EloFormula, snap: map<PlayerId, int>, board: Dict<PlayerId, int>, i: nat)
    requires DistinctKeys(board) && i < |board|
    ensures DistinctKeys(Changes(f, snap, board, i))
    ensures forall p :: p in Keys(Changes(f, snap, board, i)) ==> p in Keys(board)
    ensures board[i].0 !in Keys(Changes(f, snap, board, i))
    ensures Put(Changes(f, snap, board, i), board[i].0, Change(f, snap, board, i).1) == Changes(f, snap, board, i + 1)
    ensures Changes(f, snap, board, i + 1) == Changes(f, snap, board, i) + [Change(f, snap, board, i)]
  {
    var done := Changes(f, snap, board, i);
    ChangesKeys(f, snap, board, i);
    assert forall k :: 0 <= k < i ==> done[k].0 == board[k].0;
  }

  /** Updating one more player whose record exists extends the update sequence. */
  lemma BatchStore(touched: Store, g: GuildId, done: Dict<PlayerId, (int, int)>, x: (PlayerId, (int, int)))
    requires WellFormed(touched) && DistinctKeys(done) && HasRecord(touched, g, x.0)
    requires forall p :: p in Keys(done) ==> HasRecord(touched, g, p)
    ensures WellFormed(SetElos(touched, g, done))
    ensures HasRecord(SetElos(touched, g, done), g, x.0)
    ensures SetElos(touched, g, done + [x]) == SetElo(SetElos(touched, g, done), g, x.0, x.1.0)
  {
    SetElosShape(touched, g, done, g, x.0);
    assert (done + [x])[..|done|] == done;
  }

  /** One turn of the update loop: the next change, and the store it leads to. */
  lemma ApplyStep(f: EloFormula, snap: map<PlayerId, int>, board: Dict<PlayerId, int>, touched: Store, g: GuildId, i: nat,
                  p: PlayerId, score: int, elo: int, gain: int)
    requires WellFormed(touched) && DistinctKeys(board) && i < |board|
    requires forall q :: q in Keys(board) ==> HasRecord(touched, g, q)
    requires board[i] == (p, score) && p in snap && elo == snap[p] && gain == Gain(f, snap, p, score, board)
    ensures HasRecord(SetElos(touched, g, Changes(f, snap, board, i)), g, p)
    ensures Put(Changes(f, snap, board, i), p, (elo + gain, gain)) == Changes(f, snap, board, i + 1)
    ensures SetElo(SetElos(touched, g, Changes(f, snap, board, i)), g, p, elo + gain)
         == SetElos(touched, g, Changes(f, snap, board, i + 1))
  {
    var done := Changes(f, snap, board, i);
    var change := Change(f, snap, board, i);
    ChangeValue(f, snap, board, i, p, score, elo, gain);
    BatchChanges(f, snap, board, i);
    assert board[i].0 == Keys(board)[i];
    forall q | q in Keys(done) ensures HasRecord(touched, g, q) {
    }
    BatchStore(touched, g, done, change);
  }

  /** Applying all the changes of a session keeps every guild's keys distinct. */
  lemma ChangesStore(f: EloFormula, snap: map<PlayerId, int>, board: Dict<PlayerId, int>, touched: Store, g: GuildId)
    requires WellFormed(touched) && DistinctKeys(board)
    requires forall q :: q in Keys(board) ==> HasRecord(touched, g, q)
    ensures WellFormed(SetElos(touched, g, Changes(f, snap, board, |board|)))
  {
    var all := Changes(f, snap, board, |board|);
    ChangesKeys(f, snap, board, |board|);
    assert board[..|board|] == board;
    forall i, j | 0 <= i < j < |all| ensures all[i].0 != all[j].0 {
      assert all[i].0 == Keys(all)[i] && all[j].0 == Keys(all)[j];
    }
    SetElosShape(touched, g, all, g, 0);
  }

  /**
   * The update loop of `calc_and_save_new_elo`: in leaderboard order, each
   * player gets their snapshot elo plus the sum over the other players,
   * written to the store as `_update_elo` does and recorded as (new elo, gain).
   */
  method ApplyChanges(data: Store, guildId: GuildId, board: Dict<PlayerId, int>, currentElo: map<PlayerId, int>,
                      formula: EloFormula)
    returns (newElo: Dict<PlayerId, (int, int)>, updated: Store)
    requires WellFormed(data) && DistinctKeys(board)
    requires forall p :: p in Keys(board) ==> HasRecord(data, guildId, p) && p in currentElo
    ensures WellFormed(updated)
    ensures newElo == Changes(formula, currentElo, board, |board|)
    ensures updated == SetElos(data, guildId, newElo)
  {
    newElo, updated := [], data;
    for i := 0 to |board|
      invariant newElo == Changes(formula, currentElo, board, i)
      invariant updated == SetElos(data, guildId, newElo)
    {
      var (playerId, playerScore) := board[i];
      assert playerId == Keys(board)[i];
      var playerElo := currentElo[playerId];
      var additionnalElo := Gain(formula, currentElo, playerId, playerScore, board);
      ApplyStep(formula, currentElo, board, data, guildId, i, playerId, playerScore, playerElo, additionnalElo);
      ghost var next := Changes(formula, currentElo, board, i + 1);
      newElo := Put(newElo, playerId, (playerElo + additionnalElo, additionnalElo));
      assert newElo == next;
      updated := SetElo(updated, guildId, playerId, playerElo + additionnalElo);
      assert updated == SetElos(data, guildId, next);
    }
    ChangesStore(formula, currentElo, board, data, guildId);
  }

  /** The rated records of a table as (name, elo), in table order. */
  function RatedEntries(t: Table): (r: seq<(Option<string>, int)>)
    ensures |r| <= |t|
  {
    if t == [] then []
    else if t[0].1.elo.Some? then [(t[0].1.name, t[0].1.elo.value)] + RatedEntries(t[1..])
    else RatedEntries(t[1..])
  }

  /** Exactly the records holding an elo are listed. */
  lemma {:induction false} RatedEntriesMember(t: Table, e: (Option<string>, int))
    ensures e in RatedEntries(t) <==> (exists p :: p in t && p.1 == PlayerInfo(e.0, Some(e.1)))
  {
    if t != [] {
      RatedEntriesMember(t[1..], e);
      assert forall p :: p in t <==> p == t[0] || p in t[1..];
    }
  }

  /** The first position of a rated entry with this name, scanning in order. */
  function FirstNamed(s: seq<(Option<string>, int)>, name: string): (r: Option<nat>)
    ensures r.None? ==> forall j :: 0 <= j < |s| ==> s[j].0 != Some(name)
    ensures r.Some? ==> r.value < |s| && s[r.value].0 == Some(name)
    ensures r.Some? ==> forall j :: 0 <= j < r.value ==> s[j].0 != Some(name)
  {
    if s == [] then None
    else if s[0].0 == Some(name) then Some(0)
    else match FirstNamed(s[1..], name)
      case None => None
      case Some(i) => Some(i + 1)
  }

  /**
   * `rows` is the displayed rated leaderboard of `rated`: the leading rows of
   * the entries sorted highest first, each with its competition rank, stopping
   * after 20 rows or before the first elo of -1.
   */
  ghost predicate RatedBoard(rows: seq<Scoreboard.Row<Option<string>>>, rated: seq<(Option<string>, int)>) {
    var sorted := SortDesc(rated);
    |rows| <= |sorted| && |rows| <= LEADERBOARD_MAX_DISPLAY
    && Scoreboard.RankedRows(rows, sorted, Scores(rated))
    && (forall i :: 0 <= i < |rows| ==> sorted[i].1 != STOP_ELO)
    && (|rows| < |sorted| ==> |rows| == LEADERBOARD_MAX_DISPLAY || sorted[|rows|].1 == STOP_ELO)
  }

  /**
   * The ranking answer for `name`: (elo, rank, number of rated players) at the
   * first matching entry, highest first, or none.
   */
  ghost function PlayerRanking(rated: seq<(Option<string>, int)>, name: string): Option<(int, nat, nat)> {
    var sorted := SortDesc(rated);
    match FirstNamed(sorted, name)
    case None => None
    case Some(i) => Some((sorted[i].1, RankOf(Scores(rated), sorted[i].1), |sorted|))
  }

  /** A match at `index` with no match before it is the ranking answer. */
  lemma FoundRanking(rated: seq<(Option<string>, int)>, name: string, index: nat, rank: nat)
    requires index < |SortDesc(rated)| && SortDesc(rated)[index].0 == Some(name)
    requires forall j :: 0 <= j < index ==> SortDesc(rated)[j].0 != Some(name)
    requires rank == RankOf(Scores(rated), SortDesc(rated)[index].1)
    ensures PlayerRanking(rated, name) == Some((SortDesc(rated)[index].1, rank, |SortDesc(rated)|))
  {
    FirstNamedAt(SortDesc(rated), name, index);
  }

  /** The first match is the one with no match before it. */
  lemma {:induction false} FirstNamedAt(s: seq<(Option<string>, int)>, name: string, i: nat)
    requires i < |s| && s[i].0 == Some(name)
    requires forall j :: 0 <= j < i ==> s[j].0 != Some(name)
    ensures FirstNamed(s, name) == Some(i)
  {
    if i > 0 {
      FirstNamedAt(s[1..], name, i - 1);
    }
  }

  class EloLeaderboard {
    /** `_data`. */
    var data: Store
    /** The content `_save` last wrote. */
    var saved: Store
    /** How many times `_save` ran. */
    var saves: nat

    ghost predicate Valid()
      reads this
    {
      WellFormed(data)
    }

    /** The store starts from the saved file (or empty when there is none). */
    constructor (loaded: Store)
      requires WellFormed(loaded)
      ensures Valid() && data == loaded && saved == loaded && saves == 0
    {
      data := loaded;
      saved := loaded;
      saves := 0;
    }

    /** `get_elo`: the player's rating, creating the guild and a name-only record if missing. */
    method GetElo(guildId: GuildId, playerId: PlayerId, playerName: Option<string>) returns (elo: int)
      requires Valid()
      modifies this
      ensures Valid()
      ensures elo == Rating(old(data), guildId, playerId)
      ensures data == Touch(old(data), guildId, playerId, playerName)
      ensures saved == old(saved) && saves == old(saves)
    {
      TouchEffect(data, guildId, playerId, playerName, guildId, playerId);
      if guildId !in data {
        data := data[guildId := []];
      }
      if playerId !in Keys(data[guildId]) {
        data := data[guildId := Put(data[guildId], playerId, DefaultInfo(playerName))];
        return DEFAULT_ELO;
      }
      var info := Get(data[guildId], playerId);
      if info.elo.Some? {
        return info.elo.value;
      }
      return DEFAULT_ELO;
    }

    /** `_update_elo`: sets the elo of an existing record. */
    method UpdateElo(guildId: GuildId, playerId: PlayerId, newElo: int)
      requires HasRecord(data, guildId, playerId)
      modifies this
      ensures data == SetElo(old(data), guildId, playerId, newElo)
      ensures saved == old(saved) && saves == old(saves)
    {
      var info := Get(data[guildId], playerId);
      data := data[guildId := Put(data[guildId], playerId, PlayerInfo(info.name, Some(newElo)))];
    }

    /** `_save`: writes the whole store out. */
    method Save()
      modifies this
      ensures data == old(data) && saved == data && saves == old(saves) + 1
    {
      saved := data;
      saves := saves + 1;
    }

    /**
     * The snapshot comprehension `current_elo` of `calc_and_save_new_elo`:
     * each leaderboard player's rating, looked up (creating missing records).
     */
    method CurrentElos(guildId: GuildId, board: Dict<PlayerId, int>) returns (currentElo: map<PlayerId, int>)
      requires Valid()
      modifies this
      ensures Valid()
      ensures currentElo == Snapshot(old(data), guildId, board)
      ensures data == TouchAll(old(data), guildId, Keys(board))
      ensures saved == old(saved) && saves == old(saves)
    {
      ghost var start := data;
      currentElo := map[];
      for i := 0 to |board|
        invariant WellFormed(data) && saved == old(saved) && saves == old(saves)
        invariant data == TouchAll(start, guildId, Keys(board[..i]))
        invariant currentElo == Snapshot(start, guildId, board[..i])
      {
        var playerId := board[i].0;
        TouchStep(start, guildId, board, i);
        SnapshotStep(start, guildId, board, i);
        TouchAllEffect(start, guildId, Keys(board[..i]), guildId, playerId);
        var elo := GetElo(guildId, playerId, None);
        currentElo := currentElo[playerId := elo];
      }
      assert board[..|board|] == board;
    }

    /**
     * `calc_and_save_new_elo`: looks every player up (creating missing
     * records), then, unless the session had a single player, gives each
     * player snapshot elo + the opponent sum and saves once.
     */
    method CalcAndSaveNewElo(guildId: GuildId, leaderboard: Scoreboard.Leaderboard, formula: EloFormula)
      returns (newElo: Dict<PlayerId, (int, int)>)
      requires Valid() && leaderboard.Valid()
      modifies this
      ensures Valid()
      ensures |leaderboard.scores| == 1 ==>
        newElo == [(leaderboard.scores[0].0, (Rating(old(data), guildId, leaderboard.scores[0].0), 0))]
        && data == TouchAll(old(data), guildId, Keys(leaderboard.scores))
        && saved == old(saved) && saves == old(saves)
      ensures |leaderboard.scores| != 1 ==>
        var snap := Snapshot(old(data), guildId, leaderboard.scores);
        newElo == Changes(formula, snap, leaderboard.scores, |leaderboard.scores|)
        && data == SetElos(TouchAll(old(data), guildId, Keys(leaderboard.scores)), guildId, newElo)
        && saved == data && saves == old(saves) + 1
    {
      var board := leaderboard.scores;
      ghost var start := data;
      var currentElo := CurrentElos(guildId, board);
      var snap := Snapshot(start, guildId, board);

      if |board| == 1 {
        return [(board[0].0, (currentElo[board[0].0], 0))];
      }

      forall p | p in Keys(board) ensures HasRecord(data, guildId, p) {
        TouchAllEffect(start, guildId, Keys(board), guildId, p);
      }
      var updated;
      newElo, updated := ApplyChanges(data, guildId, board, currentElo, formula);
      data := updated;
      Save();
    }

    /**
     * `get_leaderboard`: the rated players, highest first, cut after 20 rows
     * or at the first elo of -1, ranked like the session scoreboard.
     */
    method GetLeaderboard(guildId: GuildId) returns (r: Result<seq<Scoreboard.Row<Option<string>>>>)
      ensures guildId !in data ==> r == Err(KeyError)
      ensures guildId in data ==> r.Ok? && RatedBoard(r.value, RatedEntries(data[guildId]))
    {
      if guildId !in data {
        return Err(KeyError);
      }
      var rated := RatedEntries(data[guildId]);
      var sortedPlayers := SortDesc(rated);
      SortDescProperties(rated);
      var lb: seq<Scoreboard.Row<Option<string>>> := [];
      var currentRank := 1;
      var currentScore: Option<int> := None;
      var index := 0;
      while index < |sortedPlayers|
        invariant index <= |sortedPlayers| && index <= LEADERBOARD_MAX_DISPLAY
        invariant |lb| == index && Scoreboard.RankedRows(lb, sortedPlayers, Scores(rated))
        invariant forall i :: 0 <= i < index ==> sortedPlayers[i].1 != STOP_ELO
        invariant index == 0 ==> currentScore == None
        invariant index > 0 ==> currentScore == Some(sortedPlayers[index - 1].1)
        invariant index > 0 ==> currentRank == RankOf(Scores(rated), sortedPlayers[index - 1].1)
      {
        var (playerName, score) := sortedPlayers[index];
        if index == LEADERBOARD_MAX_DISPLAY || score == STOP_ELO {
          break;
        }
        if currentScore != Some(score) {
          RankAtScoreChange(sortedPlayers, index);
          CountAboveSort(rated, score);
          currentRank := index + 1;
          currentScore := Some(score);
        }
        Scoreboard.RankedRowsSnoc(lb, sortedPlayers, Scores(rated));
        lb := lb + [Scoreboard.Row(currentRank, playerName, score)];
        index := index + 1;
      }
      assert RatedBoard(lb, rated);
      return Ok(lb);
    }

    /**
     * `get_player_ranking`: (elo, rank, number of rated players) for the
     * first rated player, highest first, whose name matches; none if no one.
     */
    method GetPlayerRanking(guildId: GuildId, userName: string) returns (r: Result<Option<(int, nat, nat)>>)
      ensures guildId !in data ==> r == Err(KeyError)
      ensures guildId in data ==> r == Ok(PlayerRanking(RatedEntries(data[guildId]), userName))
    {
      if guildId !in data {
        return Err(KeyError);
      }
      var rated := RatedEntries(data[guildId]);
      var sortedPlayers := SortDesc(rated);
      SortDescProperties(rated);
      var currentRank := 1;
      var currentScore: Option<int> := None;
      for index := 0 to |sortedPlayers|
        invariant forall j :: 0 <= j < index ==> sortedPlayers[j].0 != Some(userName)
        invariant index == 0 ==> currentScore == None
        invariant index > 0 ==> currentScore == Some(sortedPlayers[index - 1].1)
        invariant index > 0 ==> currentRank == RankOf(Scores(rated), sortedPlayers[index - 1].1)
      {
        var (playerName, score) := sortedPlayers[index];
        if currentScore != Some(score) {
          RankAtScoreChange(sortedPlayers, index);
          CountAboveSort(rated, score);
          currentRank := index + 1;
          currentScore := Some(score);
        }
        if playerName == Some(userName) {
          FoundRanking(rated, userName, index, currentRank);
          return Ok(Some((score, currentRank, |sortedPlayers|)));
        }
      }
      return Ok(None);
    }
  }
}
