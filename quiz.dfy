/**
 * A quiz session and the registry of sessions in progress: the settings a
 * session reads from its difficulty, the settings message, the clean-up of
 * in-game names, the choice between a question's two images, and the map
 * from channel to running session.
 */
module QuizSession {
  import opened Wrappers
  import opened Dict
  import opened PyStrings
  import Config
  import Metin2Api
  import Scoreboard
  import EloStore

  type Lang = string

  /** The in-game names by vnum, one per language: monsters and items. */
  datatype GameNames = GameNames(mobNames: map<int, Dict<Lang, string>>, itemNames: map<int, Dict<Lang, string>>)

  /** `multilang_plural`: the plural ending used when answers are accepted in several languages. */
  function MultilangPlural(allowedLangs: seq<Lang>): (r: string)
    ensures r == "s" <==> |allowedLangs| >= 2
    ensures r == "" <==> |allowedLangs| < 2
  {
    if |allowedLangs| >= 2 then "s" else ""
  }

  /** Python's `str(n)` for a non-negative integer. */
  function NatToString(n: nat): string
    decreases n
  {
    var digit := ["0123456789"[n % 10]];
    if n < 10 then digit else NatToString(n / 10) + digit
  }

  /** Python's `str(n)`. */
  function IntToString(n: int): string {
    if n < 0 then "-" + NatToString(-n) else NatToString(n)
  }

  /** The year setting that stands for "every year". */
  const ALL_YEARS: int := -1

  function YearLine(year: int): string {
    "- year: **" + (IntToString(year) + " and before**")
  }

  /** The lines of the settings message that every session shows. */
  function FixedLines(numberOfQuestion: int, configName: string, gameCategory: string): seq<string> {
    [
      "- questions: **" + (IntToString(numberOfQuestion) + "**"),
      "- difficulty: **" + (configName + "**"),
      "- category: **" + (gameCategory + "**")
    ]
  }

  /** The lines of the settings message: the year line only when a year was chosen. */
  function SettingsLines(numberOfQuestion: int, configName: string, gameCategory: string, year: int): seq<string> {
    var base := FixedLines(numberOfQuestion, configName, gameCategory);
    if year != ALL_YEARS then base + [YearLine(year)] else base
  }

  /**
   * `create_settings`: the settings lines joined by newlines; choosing a year
   * appends a newline and the year line to the message of a quiz over every year.
   */
  function CreateSettings(numberOfQuestion: int, configName: string, gameCategory: string, year: int): (r: string)
    ensures year == ALL_YEARS ==> r == Join("\n", FixedLines(numberOfQuestion, configName, gameCategory))
    ensures year != ALL_YEARS ==> r == Join("\n", FixedLines(numberOfQuestion, configName, gameCategory)) + "\n" + YearLine(year)
  {
    var base := FixedLines(numberOfQuestion, configName, gameCategory);
    if year != ALL_YEARS then
      JoinSnoc("\n", base, YearLine(year));
      Join("\n", base + [YearLine(year)])
    else Join("\n", base)
  }

  predicate IsYearLine(line: string) {
    |line| >= 7 && line[..7] == "- year:"
  }

  lemma FixedLineNotYear(head: string, body: string)
    requires |head| >= 3 && head[2] != 'y'
    ensures !IsYearLine(head + body)
  {
    assert (head + body)[2] == head[2];
  }

  /**
   * The settings hold a year line exactly when a year was chosen, and it is
   * the last of its four lines; without a year there are three lines.
   */
  lemma SettingsYearLine(numberOfQuestion: int, configName: string, gameCategory: string, year: int)
    ensures var lines := SettingsLines(numberOfQuestion, configName, gameCategory, year);
      && |lines| == (if year != ALL_YEARS then 4 else 3)
      && ((exists i :: 0 <= i < |lines| && IsYearLine(lines[i])) <==> year != ALL_YEARS)
      && (year != ALL_YEARS ==> lines[3] == YearLine(year))
  {
    FixedLineNotYear("- questions: **", IntToString(numberOfQuestion) + "**");
    FixedLineNotYear("- difficulty: **", configName + "**");
    FixedLineNotYear("- category: **", gameCategory + "**");
    if year != ALL_YEARS {
      var lines := SettingsLines(numberOfQuestion, configName, gameCategory, year);
      assert lines[3] == YearLine(year);
      assert IsYearLine(lines[3]) by { assert YearLine(year)[..7] == "- year:"; }
    }
  }

  /**
   * The clean-up `get_ingame_names` applies to each name: drop one trailing
   * "+0", turn no-break spaces into spaces, strip the surrounding whitespace.
   */
  function CleanName(name: string): string {
    Strip(ReplaceChar(Metin2Api.StripPlusZero(name), '\U{A0}', ' '))
  }

  /** A cleaned name holds no no-break space and neither starts nor ends with whitespace. */
  lemma CleanNameShape(name: string)
    ensures '\U{A0}' !in CleanName(name)
    ensures CleanName(name) == [] || (!IsSpace(CleanName(name)[0]) && !IsSpace(CleanName(name)[|CleanName(name)| - 1]))
  {
    var s := ReplaceChar(Metin2Api.StripPlusZero(name), '\U{A0}', ' ');
    StripShape(s);
    assert '\U{A0}' !in s;
  }

  /** A name without "+0", no-break space or surrounding whitespace is kept as it is. */
  lemma CleanNameKeepsClean(name: string)
    requires !EndsWith(name, "+0")
    requires '\U{A0}' !in name
    requires name == [] || (!IsSpace(name[0]) && !IsSpace(name[|name| - 1]))
    ensures CleanName(name) == name
  {
    assert Metin2Api.StripPlusZero(name) == name;
    assert ReplaceChar(name, '\U{A0}', ' ') == name;
    assert LStrip(name) == name;
    assert RStrip(name) == name;
  }

  /**
   * `choose_value`: the first image name when the row has no second one,
   * otherwise the one `random.choice` picks (`pickSecond`).
   */
  function ChooseValue(imageName1: string, imageName2: Option<string>, pickSecond: bool): (r: string)
    ensures imageName2.None? ==> r == imageName1
    ensures r == imageName1 || (imageName2.Some? && r == imageName2.value)
    ensures imageName2.Some? && pickSecond ==> r == imageName2.value
    ensures !pickSecond ==> r == imageName1
  {
    if imageName2.None? then imageName1
    else if pickSecond then imageName2.value
    else imageName1
  }

  /** A Python set's iteration order: its elements, each once. */
  predicate Enumerates(order: seq<int>, s: set<int>) {
    (forall i, j :: 0 <= i < j < |order| ==> order[i] != order[j])
    && (set p | p in order) == s
  }

  /**
   * The in-game names of a vnum in the table the question's kind selects,
   * cleaned language by language in place.
   */
  method GetIngameNames(gameNames: GameNames, vnum: int, isMonster: bool) returns (r: Result<Dict<Lang, string>>)
    ensures var names := if isMonster then gameNames.mobNames else gameNames.itemNames;
      && (r.Ok? <==> vnum in names)
      && (r.Err? ==> r.error == KeyError)
      && (r.Ok? ==> (&& |r.value| == |names[vnum]|
                     && forall i :: 0 <= i < |r.value| ==> r.value[i] == (names[vnum][i].0, CleanName(names[vnum][i].1))))
  {
    var names: map<int, Dict<Lang, string>> := if isMonster then gameNames.mobNames else gameNames.itemNames;
    if vnum !in names {
      return Err(KeyError);
    }
    var ingameNames := names[vnum];
    for i := 0 to |ingameNames|
      invariant |ingameNames| == |names[vnum]|
      invariant forall j :: 0 <= j < |ingameNames| ==>
        ingameNames[j] == (names[vnum][j].0, if j < i then CleanName(names[vnum][j].1) else names[vnum][j].1)
    {
      var (lang, igName) := ingameNames[i];
      var name := igName;
      if EndsWith(igName, "+0") {
        name := igName[..|igName| - 2];
      }
      name := Strip(ReplaceChar(name, '\U{A0}', ' '));
      ingameNames := ingameNames[i := (lang, name)];
    }
    return Ok(ingameNames);
  }

  class Quiz {
    const guildId: int
    const configName: string
    const config: Config.Difficulty
    const numberOfQuestion: int
    const gameCategory: string
    const year: int
    const allowedLangs: seq<Lang>
    const maxHint: int
    const timeBetweenHint: int
    const answerFormatter: Config.Mode
    const fuzzThreshold: int
    const isRanked: bool
    const multilangPlural: string
    const leaderboard: Scoreboard.Leaderboard
    /** The rating store of a ranked session; absent from a friendly one. */
    const eloLeaderboard: EloStore.EloLeaderboard?
    var isRunning: bool
    var waitingForAnswer: bool
    /** The registered players; empty means everybody may answer. */
    var allowedPlayers: set<int>

    ghost predicate Valid()
      reads this, leaderboard, eloLeaderboard
    {
      && leaderboard.Valid()
      && isRanked == (gameCategory == Config.RANKED)
      && multilangPlural == MultilangPlural(allowedLangs)
      && (isRanked <==> eloLeaderboard != null)
      && (eloLeaderboard != null ==> eloLeaderboard.Valid())
    }

    /**
     * `Quiz(...)`: the difficulty's settings, the guild's languages, an empty
     * scoreboard, and for a ranked session the rating store loaded from
     * `loadedElo`.
     */
    constructor (configManager: Config.ConfigurationManager, guildId: int, numberOfQuestion: int,
                 configName: string, gameCategory: string, year: int, loadedElo: EloStore.Store)
      requires configManager.GetConfig(configName).Ok?
      requires Config.GetAnswerFormatter(configManager.GetConfig(configName).value).Ok?
      requires EloStore.WellFormed(loadedElo)
      ensures Valid() && fresh(leaderboard) && leaderboard.scores == []
      ensures config == configManager.GetConfig(configName).value
      ensures allowedLangs == configManager.GetAllowedLangs(guildId)
      ensures maxHint == config.maxHint && timeBetweenHint == config.timeBetweenHint
      ensures answerFormatter == Config.GetAnswerFormatter(config).value
      ensures fuzzThreshold == Config.FuzzThreshold(answerFormatter)
      ensures this.guildId == guildId && this.configName == configName && this.numberOfQuestion == numberOfQuestion
      ensures this.gameCategory == gameCategory && this.year == year
      ensures isRunning && !waitingForAnswer && allowedPlayers == {}
      ensures eloLeaderboard != null ==> fresh(eloLeaderboard) && eloLeaderboard.data == loadedElo
    {
      this.guildId := guildId;
      this.configName := configName;
      var config := configManager.GetConfig(configName).value;
      this.config := config;
      this.numberOfQuestion := numberOfQuestion;
      this.allowedLangs := configManager.GetAllowedLangs(guildId);
      this.maxHint := config.maxHint;
      this.timeBetweenHint := config.timeBetweenHint;
      var mode := Config.GetAnswerFormatter(config).value;
      this.answerFormatter := mode;
      this.fuzzThreshold := Config.FuzzThreshold(mode);
      this.gameCategory := gameCategory;
      this.year := year;
      var ranked := gameCategory == Config.RANKED;
      this.isRanked := ranked;
      this.allowedPlayers := {};
      this.leaderboard := new Scoreboard.Leaderboard();
      this.multilangPlural := MultilangPlural(configManager.GetAllowedLangs(guildId));
      this.isRunning := true;
      this.waitingForAnswer := false;
      if ranked {
        this.eloLeaderboard := new EloStore.EloLeaderboard(loadedElo);
      } else {
        this.eloLeaderboard := null;
      }
    }

    /** `initialize_leaderboard`: every registered player starts at 0, in the set's iteration order. */
    method InitializeLeaderboard(order: seq<int>)
      requires Valid() && Enumerates(order, allowedPlayers)
      modifies leaderboard
      ensures Valid()
      ensures leaderboard.scores == Scoreboard.ZeroAll(old(leaderboard.scores), order)
      ensures forall p :: p in allowedPlayers ==> p in Keys(leaderboard.scores) && Get(leaderboard.scores, p) == 0
    {
      leaderboard.Initialize(order);
      forall p | p in allowedPlayers
        ensures p in Keys(leaderboard.scores) && Get(leaderboard.scores, p) == 0
      {
        Scoreboard.ZeroAllScores(old(leaderboard.scores), order, p);
      }
    }

    /** `calc_and_save_new_elo`: the rating update of a ranked session, from its scoreboard. */
    method CalcAndSaveNewElo(formula: EloStore.EloFormula) returns (newElo: Dict<EloStore.PlayerId, (int, int)>)
      requires Valid() && isRanked
      modifies eloLeaderboard
      ensures Valid()
      ensures |leaderboard.scores| != 1 ==>
        && newElo == EloStore.Changes(formula, EloStore.Snapshot(old(eloLeaderboard.data), guildId, leaderboard.scores),
                                      leaderboard.scores, |leaderboard.scores|)
        && eloLeaderboard.data == EloStore.SetElos(EloStore.TouchAll(old(eloLeaderboard.data), guildId, Keys(leaderboard.scores)),
                                                   guildId, newElo)
        && eloLeaderboard.saved == eloLeaderboard.data
        && eloLeaderboard.saves == old(eloLeaderboard.saves) + 1
      ensures |leaderboard.scores| == 1 ==>
        && newElo == [(leaderboard.scores[0].0, (EloStore.Rating(old(eloLeaderboard.data), guildId, leaderboard.scores[0].0), 0))]
        && eloLeaderboard.data == EloStore.TouchAll(old(eloLeaderboard.data), guildId, Keys(leaderboard.scores))
        && eloLeaderboard.saved == old(eloLeaderboard.saved)
        && eloLeaderboard.saves == old(eloLeaderboard.saves)
    {
      newElo := eloLeaderboard.CalcAndSaveNewElo(guildId, leaderboard, formula);
    }

    /** `stop`: the session is no longer running; nothing else changes. */
    method Stop()
      modifies this
      ensures !isRunning
      ensures waitingForAnswer == old(waitingForAnswer) && allowedPlayers == old(allowedPlayers)
    {
      isRunning := false;
    }
  }

  /**
   * The error `Quiz(...)` raises for a difficulty: a KeyError for an unknown
   * name, a ValueError for a mode that is none of the three.
   */
  function QuizSettingsError(configManager: Config.ConfigurationManager, configName: string): (r: Option<Error>)
    reads configManager
    ensures r.None? <==> (&& configName in configManager.savedConfig
                          && configManager.savedConfig[configName].mode in {Config.STRICT, Config.PERMISSIVE, Config.VERY_PERMISSIVE})
    ensures configName !in configManager.savedConfig ==> r == Some(KeyError)
    ensures configName in configManager.savedConfig
            && configManager.savedConfig[configName].mode !in {Config.STRICT, Config.PERMISSIVE, Config.VERY_PERMISSIVE}
            ==> r == Some(ValueError(configManager.savedConfig[configName].mode + " isn't a correct value."))
  {
    match configManager.GetConfig(configName)
    case Err(e) => Some(e)
    case Ok(config) =>
      match Config.GetAnswerFormatter(config)
      case Err(e) => Some(e)
      case Ok(_) => None
  }

  class QuizManager {
    const configManager: Config.ConfigurationManager
    const gameNames: GameNames
    /** `quizzes_in_progress`: channel id to the session running there. */
    var quizzesInProgress: map<int, Quiz>

    constructor (configManager: Config.ConfigurationManager, gameNames: GameNames)
      ensures this.configManager == configManager && this.gameNames == gameNames
      ensures quizzesInProgress == map[]
    {
      this.configManager := configManager;
      this.gameNames := gameNames;
      quizzesInProgress := map[];
    }

    /** `has_active_quiz`: a session is registered for this channel. */
    function HasActiveQuiz(channelId: int): (r: bool)
      reads this
      ensures r <==> channelId in quizzesInProgress
    {
      channelId in quizzesInProgress
    }

    /** `get_quiz`: the channel's session, or a KeyError. */
    function GetQuiz(channelId: int): (r: Result<Quiz>)
      reads this
      ensures r.Ok? <==> HasActiveQuiz(channelId)
      ensures r.Ok? ==> r.value == quizzesInProgress[channelId]
      ensures r.Err? ==> r.error == KeyError
    {
      if channelId in quizzesInProgress then Ok(quizzesInProgress[channelId]) else Err(KeyError)
    }

    /**
     * `start_quiz`: a new session registered for the channel, replacing any
     * session already there; no other channel changes. When the difficulty
     * cannot be read the error propagates and nothing is registered.
     */
    method StartQuiz(guildId: int, channelId: int, numberOfQuestion: int, configName: string,
                     gameCategory: string, year: int, loadedElo: EloStore.Store) returns (r: Result<Quiz>)
      requires EloStore.WellFormed(loadedElo)
      modifies this
      ensures r.Err? <==> QuizSettingsError(configManager, configName).Some?
      ensures r.Err? ==> r.error == QuizSettingsError(configManager, configName).value
                         && quizzesInProgress == old(quizzesInProgress)
      ensures r.Ok? ==> && fresh(r.value) && r.value.Valid() && r.value.isRunning
                        && r.value.guildId == guildId && r.value.configName == configName
                        && r.value.numberOfQuestion == numberOfQuestion
                        && r.value.gameCategory == gameCategory && r.value.year == year
                        && quizzesInProgress == old(quizzesInProgress)[channelId := r.value]
    {
      var error := QuizSettingsError(configManager, configName);
      if error.Some? {
        return Err(error.value);
      }
      var newQuiz := new Quiz(configManager, guildId, numberOfQuestion, configName, gameCategory, year, loadedElo);
      quizzesInProgress := quizzesInProgress[channelId := newQuiz];
      return Ok(newQuiz);
    }

    /**
     * `end_quiz`: stops the channel's session and unregisters it; every other
     * channel keeps its session. A channel without one raises a KeyError.
     */
    method EndQuiz(channelId: int) returns (r: Result<()>)
      modifies this, if channelId in quizzesInProgress then {quizzesInProgress[channelId]} else {}
      ensures r.Ok? <==> channelId in old(quizzesInProgress)
      ensures r.Err? ==> r.error == KeyError && quizzesInProgress == old(quizzesInProgress)
      ensures r.Ok? ==> !old(quizzesInProgress)[channelId].isRunning
                        && quizzesInProgress == old(quizzesInProgress) - {channelId}
    {
      if channelId !in quizzesInProgress {
        return Err(KeyError);
      }
      quizzesInProgress[channelId].Stop();
      quizzesInProgress := quizzesInProgress - {channelId};
      return Ok(());
    }
  }
}
