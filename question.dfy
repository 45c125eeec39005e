/**
 * One question of a quiz session: the accepted answer in each allowed
 * language, the masked hint shown for each language and the shuffled order
 * in which its letters get revealed, the hint timer, and the answer check.
 */
module QuestionRound {
  import opened Wrappers
  import opened Dict
  import Config

  type Lang = string

  /** What a hint shows for a space: a space between two zero-width spaces. */
  const SPACE_TOKEN: string := "\U{200B} \U{200B}"
  /** What a hint shows for a letter not yet revealed: an underlined blank. */
  const LETTER_TOKEN: string := "__\U{200B} \U{200B} \U{200B}__"

  /** A revealed character, underlined; `(` is escaped for the chat markup. */
  function Shown(c: char): string {
    "__" + (if c == '(' then "\\(" else [c]) + "__"
  }

  /** What the hint shows for character `c`, depending on whether it is still hidden. */
  function Token(c: char, hidden: bool): string {
    if c == ' ' then SPACE_TOKEN else if hidden then LETTER_TOKEN else Shown(c)
  }

  /** The hint for `answer` when exactly the positions in `hidden` are still hidden. */
  function Mask(answer: string, hidden: set<nat>): seq<string> {
    seq(|answer|, j requires 0 <= j < |answer| => Token(answer[j], j in hidden))
  }

  /** `_get_default_hint`: a blank per character, a space placeholder per space. */
  function DefaultHint(answer: string): seq<string> {
    seq(|answer|, j requires 0 <= j < |answer| => if answer[j] == ' ' then SPACE_TOKEN else LETTER_TOKEN)
  }

  /** `order` lists every position 0 .. n-1 exactly once (what `rd.shuffle` produces). */
  predicate IsPermutation(order: seq<nat>, n: nat) {
    |order| == n
    && (forall k :: 0 <= k < n ==> order[k] < n)
    && (forall j :: 0 <= j < n ==> j in order)
    && (forall k, l :: 0 <= k < l < n ==> order[k] != order[l])
  }

  /** The pairs still to reveal are (position, character) pairs of `answer`, positions distinct. */
  predicate ShuffleOf(answer: string, sh: seq<(nat, char)>) {
    (forall k :: 0 <= k < |sh| ==> sh[k].0 < |answer| && sh[k].1 == answer[sh[k].0])
    && (forall k, l :: 0 <= k < l < |sh| ==> sh[k].0 != sh[l].0)
  }

  /** The positions still to reveal. */
  function Positions(sh: seq<(nat, char)>): set<nat> {
    set k | 0 <= k < |sh| :: sh[k].0
  }

  /** `_get_hint_shuffle`: `list(enumerate(answer))` put in the shuffled order `order`. */
  function InitialShuffle(answer: string, order: seq<nat>): seq<(nat, char)>
    requires IsPermutation(order, |answer|)
  {
    seq(|answer|, k requires 0 <= k < |answer| => (order[k], answer[order[k]]))
  }

  /** The default hint is the mask that hides every position of a fresh shuffle. */
  lemma DefaultHintHidesAll(answer: string, order: seq<nat>)
    requires IsPermutation(order, |answer|)
    ensures ShuffleOf(answer, InitialShuffle(answer, order))
    ensures DefaultHint(answer) == Mask(answer, Positions(InitialShuffle(answer, order)))
  {
    var sh := InitialShuffle(answer, order);
    forall j | 0 <= j < |answer| ensures j in Positions(sh) {
      assert j in order;
      var k :| 0 <= k < |order| && order[k] == j;
      assert sh[k].0 == j;
    }
  }

  /**
   * Popping the last pair to reveal: the rest is still a shuffle, its position
   * is no longer hidden, and the mask changes exactly at that position (a
   * space looks the same hidden or not).
   */
  lemma PopReveal(answer: string, sh: seq<(nat, char)>)
    requires ShuffleOf(answer, sh) && sh != []
    ensures ShuffleOf(answer, sh[..|sh| - 1])
    ensures Positions(sh[..|sh| - 1]) == Positions(sh) - {sh[|sh| - 1].0}
    ensures sh[|sh| - 1].1 == ' ' ==> Mask(answer, Positions(sh[..|sh| - 1])) == Mask(answer, Positions(sh))
    ensures sh[|sh| - 1].1 != ' ' ==>
      Mask(answer, Positions(sh[..|sh| - 1])) == Mask(answer, Positions(sh))[sh[|sh| - 1].0 := Shown(sh[|sh| - 1].1)]
  {
    var last := sh[|sh| - 1];
    var rest := sh[..|sh| - 1];
    assert Positions(rest) == Positions(sh) - {last.0} by {
      forall p | p in Positions(sh) - {last.0} ensures p in Positions(rest) {
        var k :| 0 <= k < |sh| && sh[k].0 == p;
        assert k < |sh| - 1 && rest[k] == sh[k];
      }
      forall p | p in Positions(rest) ensures p in Positions(sh) - {last.0} {
        var k :| 0 <= k < |rest| && rest[k].0 == p;
        assert sh[k] == rest[k];
      }
    }
  }

  /** `len(shuffle) // hints_left` pairs are popped per hint; the rest stays in order. */
  function Remaining(sh: seq<(nat, char)>, hintsLeft: nat): (r: seq<(nat, char)>)
    requires hintsLeft > 0
    ensures |r| == |sh| - |sh| / hintsLeft
  {
    DivAtMost(|sh|, hintsLeft);
    sh[..|sh| - |sh| / hintsLeft]
  }

  lemma DivAtMost(a: nat, b: nat)
    requires b > 0
    ensures a / b <= a
  {
    var q := a / b;
    assert b * q <= a;
    MulAtLeast(q, b);
  }

  lemma {:induction false} MulAtLeast(n: nat, m: nat)
    requires m >= 1
    ensures n * m >= n
  {
    if m > 1 {
      MulAtLeast(n, m - 1);
      assert n * m == n * (m - 1) + n;
    }
  }

  /** The last hint pops everything that is left. */
  lemma LastHintEmpties(sh: seq<(nat, char)>)
    ensures Remaining(sh, 1) == []
  {
  }

  /** The hint timer after one more poll: (counter, whether a hint is due). */
  function Tick(count: nat, timeBetweenHints: int): (nat, bool) {
    if (count + 1) * Config.CHECK_ANSWER_PERIOD >= timeBetweenHints then (0, true) else (count + 1, false)
  }

  /** The counter after `k` polls from `count`. */
  function Ticks(count: nat, timeBetweenHints: int, k: nat): nat {
    if k == 0 then count else Tick(Ticks(count, timeBetweenHints, k - 1), timeBetweenHints).0
  }

  /** With `time_between_hints` = T >= 1, the first T - 1 polls from a fresh counter just count. */
  lemma {:induction false} TicksBeforeDue(t: nat, k: nat)
    requires 1 <= t && k < t
    ensures Ticks(0, t, k) == k
    ensures k < t - 1 ==> !Tick(Ticks(0, t, k), t).1
  {
    assert Config.CHECK_ANSWER_PERIOD == 1;
    if k > 0 {
      TicksBeforeDue(t, k - 1);
    }
  }

  /** ... and poll T makes a hint due and starts the counter over: a hint every T polls. */
  lemma HintDueEvery(t: nat)
    requires 1 <= t
    ensures Tick(Ticks(0, t, t - 1), t) == (0, true)
    ensures Ticks(0, t, t) == 0
  {
    TicksBeforeDue(t, t - 1);
    assert Config.CHECK_ANSWER_PERIOD == 1;
  }

  /** `_filter_answer`: the answers in the allowed languages, in their order. */
  function FilterAnswers(answers: Dict<Lang, string>, allowed: seq<Lang>): (r: Dict<Lang, string>)
    ensures forall e :: e in r <==> e in answers && e.0 in allowed
    ensures DistinctKeys(answers) ==> DistinctKeys(r)
    ensures |r| <= |answers|
  {
    if answers == [] then []
    else
      var rest := FilterAnswers(answers[1..], allowed);
      assert forall e :: e in answers <==> e == answers[0] || e in answers[1..];
      if answers[0].0 in allowed then
        assert DistinctKeys(answers) ==> forall e :: e in rest ==> e.0 != answers[0].0 by {
          if DistinctKeys(answers) {
            forall e | e in rest ensures e.0 != answers[0].0 {
              var k :| 0 <= k < |answers[1..]| && answers[1..][k] == e;
              assert answers[k + 1] == e;
            }
          }
        }
        [answers[0]] + rest
      else rest
  }

  /** Filtering a concatenation filters each part, so the kept answers stay in their order. */
  lemma {:induction false} FilterAnswersAppend(a: Dict<Lang, string>, b: Dict<Lang, string>, allowed: seq<Lang>)
    ensures FilterAnswers(a + b, allowed) == FilterAnswers(a, allowed) + FilterAnswers(b, allowed)
  {
    if a == [] {
      assert a + b == b;
    } else {
      var u := a + b;
      var head: Dict<Lang, string> := if a[0].0 in allowed then [a[0]] else [];
      assert u[0] == a[0];
      assert u[1..] == a[1..] + b;
      calc {
        FilterAnswers(u, allowed);
        head + FilterAnswers(a[1..] + b, allowed);
        { FilterAnswersAppend(a[1..], b, allowed); }
        head + (FilterAnswers(a[1..], allowed) + FilterAnswers(b, allowed));
        (head + FilterAnswers(a[1..], allowed)) + FilterAnswers(b, allowed);
      }
    }
  }

  /** A single answer is kept exactly when its language is allowed. */
  lemma FilterAnswersOne(e: (Lang, string), allowed: seq<Lang>)
    ensures FilterAnswers([e], allowed) == if e.0 in allowed then [e] else []
  {
    assert [e][1..] == [];
  }

  /** `_get_default_hints`: the default hint of each answer, language by language. */
  function DefaultHints(answers: Dict<Lang, string>): (r: Dict<Lang, seq<string>>) {
    seq(|answers|, i requires 0 <= i < |answers| => (answers[i].0, DefaultHint(answers[i].1)))
  }

  /** `rd.shuffle` gave a permutation of each answer's positions. */
  predicate OrdersFor(answers: Dict<Lang, string>, orders: map<Lang, seq<nat>>) {
    forall i :: 0 <= i < |answers| ==> answers[i].0 in orders && IsPermutation(orders[answers[i].0], |answers[i].1|)
  }

  /** `_get_hints_shuffle`: the shuffled (position, character) list of each answer. */
  function Shuffles(answers: Dict<Lang, string>, orders: map<Lang, seq<nat>>): (r: Dict<Lang, seq<(nat, char)>>)
    requires OrdersFor(answers, orders)
  {
    seq(|answers|, i requires 0 <= i < |answers| => (answers[i].0, InitialShuffle(answers[i].1, orders[answers[i].0])))
  }

  /** `_get_formatted_answers`: each answer normalised, in answer order. */
  function FormattedAnswers(format: string -> string, answers: Dict<Lang, string>): (r: seq<string>) {
    seq(|answers|, i requires 0 <= i < |answers| => format(answers[i].1))
  }

  /**
   * The hints and the shuffles follow the answers language by language, and
   * each hint hides exactly the positions still waiting in its shuffle.
   */
  ghost predicate Consistent(answers: Dict<Lang, string>, hints: Dict<Lang, seq<string>>,
                             shuffles: Dict<Lang, seq<(nat, char)>>) {
    |hints| == |answers| && |shuffles| == |answers|
    && forall i :: 0 <= i < |answers| ==>
         hints[i].0 == answers[i].0 && shuffles[i].0 == answers[i].0
         && ShuffleOf(answers[i].1, shuffles[i].1)
         && hints[i].1 == Mask(answers[i].1, Positions(shuffles[i].1))
  }

  /** Replacing one language's hint and shuffle by a matching pair keeps them consistent. */
  lemma ConsistentUpdate(answers: Dict<Lang, string>, hints: Dict<Lang, seq<string>>,
                         shuffles: Dict<Lang, seq<(nat, char)>>, li: nat, h: seq<string>, sh: seq<(nat, char)>)
    requires Consistent(answers, hints, shuffles) && li < |answers|
    requires ShuffleOf(answers[li].1, sh) && h == Mask(answers[li].1, Positions(sh))
    ensures Consistent(answers, hints[li := (hints[li].0, h)], shuffles[li := (shuffles[li].0, sh)])
  {
  }

  /**
   * `_get_hint` for one language: pops `len(shuffle) // hints_left` pairs off
   * the end of the shuffle and reveals each popped character that is not a
   * space, so the hint keeps hiding exactly what is left to pop.
   */
  method GetHint(ghost answer: string, hint: seq<string>, shuffle: seq<(nat, char)>, hintsLeft: nat)
    returns (newHint: seq<string>, newShuffle: seq<(nat, char)>)
    requires hintsLeft > 0 && ShuffleOf(answer, shuffle) && hint == Mask(answer, Positions(shuffle))
    ensures newShuffle == Remaining(shuffle, hintsLeft)
    ensures ShuffleOf(answer, newShuffle) && newHint == Mask(answer, Positions(newShuffle))
  {
    newHint, newShuffle := hint, shuffle;
    var charToShowNumber := |shuffle| / hintsLeft;
    DivAtMost(|shuffle|, hintsLeft);
    for k := 0 to charToShowNumber
      invariant newShuffle == shuffle[..|shuffle| - k]
      invariant ShuffleOf(answer, newShuffle) && newHint == Mask(answer, Positions(newShuffle))
    {
      var (pos, c) := newShuffle[|newShuffle| - 1];
      PopReveal(answer, newShuffle);
      assert shuffle[..|shuffle| - (k + 1)] == newShuffle[..|newShuffle| - 1];
      newShuffle := newShuffle[..|newShuffle| - 1];
      if c == ' ' {
        continue;
      }
      var shown := if c == '(' then "\\(" else [c];
      newHint := newHint[pos := "__" + shown + "__"];
    }
  }

  /**
   * The loop of `get_hints` on values: one hint step for every language, in
   * hint order. Every shuffle shrinks to what `Remaining` leaves of it, and
   * once the hints left reach one everything is revealed.
   */
  method HintRound(answers: Dict<Lang, string>, hints: Dict<Lang, seq<string>>,
                   shuffles: Dict<Lang, seq<(nat, char)>>, hintsLeft: nat)
    returns (hs: Dict<Lang, seq<string>>, shs: Dict<Lang, seq<(nat, char)>>)
    requires hintsLeft > 0 && Consistent(answers, hints, shuffles)
    ensures Consistent(answers, hs, shs) && |shs| == |shuffles|
    ensures forall i :: 0 <= i < |shs| ==> shs[i].1 == Remaining(shuffles[i].1, hintsLeft)
    ensures hintsLeft == 1 ==>
      forall i :: 0 <= i < |hs| ==> shs[i].1 == [] && hs[i].1 == Mask(answers[i].1, {})
  {
    hs, shs := hints, shuffles;
    for li := 0 to |hs|
      invariant Consistent(answers, hs, shs) && |shs| == |shuffles|
      invariant forall i :: 0 <= i < |shs| ==>
        shs[i].1 == (if i < li then Remaining(shuffles[i].1, hintsLeft) else shuffles[i].1)
    {
      var lang := hs[li].0;
      var newHint, newShuffle := GetHint(answers[li].1, hs[li].1, shs[li].1, hintsLeft);
      ConsistentUpdate(answers, hs, shs, li, newHint, newShuffle);
      hs := hs[li := (lang, newHint)];
      shs := shs[li := (shs[li].0, newShuffle)];
    }
    if hintsLeft == 1 {
      forall i | 0 <= i < |shs| ensures shs[i].1 == [] && Positions(shs[i].1) == {} {
        LastHintEmpties(shuffles[i].1);
      }
    }
  }

  class Question {
    const imagePath: string
    const allowedLangs: seq<Lang>
    /** Player ids allowed to answer; empty means everybody. */
    const allowedPlayers: set<int>
    const timeBetweenHints: int
    /** The cap on hints (the difficulty's `max_hint`). */
    const maxHint: nat
    const format: string -> string
    const fuzzThreshold: int
    /** The answers in the allowed languages, and their normalised forms. */
    const answers: Dict<Lang, string>
    const formattedAnswers: seq<string>

    /** Per language, in answer order: the hint shown, and the pairs still to reveal (popped from the end). */
    var hints: Dict<Lang, seq<string>>
    var hintsShuffle: Dict<Lang, seq<(nat, char)>>
    var waitingForAnswer: bool
    var checkAnswerCount: nat
    var hintShown: nat

    ghost predicate Valid()
      reads this
    {
      DistinctKeys(answers) && hintShown <= maxHint && Consistent(answers, hints, hintsShuffle)
    }

    constructor (imagePath: string, allowedLangs: seq<Lang>, allowedPlayers: set<int>, timeBetweenHints: int,
                 format: string -> string, fuzzThreshold: int, maxHint: nat,
                 answers: Dict<Lang, string>, orders: map<Lang, seq<nat>>)
      requires DistinctKeys(answers)
      requires OrdersFor(FilterAnswers(answers, allowedLangs), orders)
      ensures Valid()
      ensures this.answers == FilterAnswers(answers, allowedLangs)
      ensures formattedAnswers == FormattedAnswers(format, this.answers)
      ensures hints == DefaultHints(this.answers)
      ensures hintsShuffle == Shuffles(this.answers, orders)
      ensures this.imagePath == imagePath && this.allowedLangs == allowedLangs && this.allowedPlayers == allowedPlayers
      ensures this.timeBetweenHints == timeBetweenHints && this.format == format
      ensures this.fuzzThreshold == fuzzThreshold && this.maxHint == maxHint
      ensures waitingForAnswer && checkAnswerCount == 0 && hintShown == 0
    {
      this.imagePath := imagePath;
      this.allowedLangs := allowedLangs;
      this.allowedPlayers := allowedPlayers;
      this.timeBetweenHints := timeBetweenHints;
      this.format := format;
      this.fuzzThreshold := fuzzThreshold;
      this.maxHint := maxHint;
      var kept := FilterAnswers(answers, allowedLangs);
      this.answers := kept;
      this.formattedAnswers := FormattedAnswers(format, kept);
      this.hints := DefaultHints(kept);
      this.hintsShuffle := Shuffles(kept, orders);
      this.waitingForAnswer := true;
      this.checkAnswerCount := 0;
      this.hintShown := 0;
      new;
      forall i | 0 <= i < |kept| ensures ShuffleOf(kept[i].1, hintsShuffle[i].1)
        && hints[i].1 == Mask(kept[i].1, Positions(hintsShuffle[i].1))
      {
        DefaultHintHidesAll(kept[i].1, orders[kept[i].0]);
      }
    }

    /**
     * `show_hint`: one more poll; a hint is due once the polls reach
     * `time_between_hints`, and the counter then starts over.
     */
    method ShowHint() returns (due: bool)
      modifies this
      ensures (checkAnswerCount, due) == Tick(old(checkAnswerCount), timeBetweenHints)
      ensures hints == old(hints) && hintsShuffle == old(hintsShuffle) && hintShown == old(hintShown)
      ensures waitingForAnswer == old(waitingForAnswer)
    {
      checkAnswerCount := checkAnswerCount + 1;
      if checkAnswerCount * Config.CHECK_ANSWER_PERIOD >= timeBetweenHints {
        checkAnswerCount := 0;
        return true;
      }
      return false;
    }

    /** `exceed_max_hint`: true while fewer hints than the cap have been shown. */
    function ExceedMaxHint(): (r: bool)
      reads this
      ensures r <==> hintShown < maxHint
    {
      hintShown < maxHint
    }

    /**
     * `get_hints`: the hint step of `_get_hint` for every language, in hint
     * order, then one more hint shown. After the last allowed hint every
     * character is revealed.
     */
    method GetHints()
      requires Valid() && ExceedMaxHint()
      modifies this
      ensures Valid() && hintShown == old(hintShown) + 1
      ensures |hintsShuffle| == |old(hintsShuffle)|
      ensures forall i :: 0 <= i < |hintsShuffle| ==>
        hintsShuffle[i].1 == Remaining(old(hintsShuffle[i].1), maxHint - old(hintShown))
      ensures old(hintShown) + 1 == maxHint ==>
        forall i :: 0 <= i < |hints| ==> hintsShuffle[i].1 == [] && hints[i].1 == Mask(answers[i].1, {})
      ensures checkAnswerCount == old(checkAnswerCount) && waitingForAnswer == old(waitingForAnswer)
    {
      var hs, shs := HintRound(answers, hints, hintsShuffle, maxHint - hintShown);
      hints, hintsShuffle := hs, shs;
      hintShown := hintShown + 1;
    }

    /** `is_correct_answer`: some normalised answer is similar enough to the normalised guess. */
    method IsCorrectAnswer(userAnswer: string, ratio: (string, string) -> int) returns (r: bool)
      ensures r <==> exists i :: 0 <= i < |formattedAnswers|
                       && ratio(format(userAnswer), formattedAnswers[i]) >= fuzzThreshold
    {
      var formattedUserAnswer := format(userAnswer);
      for i := 0 to |formattedAnswers|
        invariant forall j :: 0 <= j < i ==> ratio(formattedUserAnswer, formattedAnswers[j]) < fuzzThreshold
      {
        if ratio(formattedUserAnswer, formattedAnswers[i]) >= fuzzThreshold {
          return true;
        }
      }
      return false;
    }

    /** `is_winner`: an allowed player (anyone if none are registered) gave a correct answer. */
    method IsWinner(messageContent: string, authorId: int, ratio: (string, string) -> int) returns (r: bool)
      ensures r <==> (allowedPlayers == {} || authorId in allowedPlayers)
                     && exists i :: 0 <= i < |formattedAnswers|
                          && ratio(format(messageContent), formattedAnswers[i]) >= fuzzThreshold
    {
      if allowedPlayers != {} && authorId !in allowedPlayers {
        return false;
      }
      r := IsCorrectAnswer(messageContent, ratio);
    }
  }
}
