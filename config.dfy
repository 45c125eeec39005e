/**
 * The configuration manager: per-difficulty settings, the three answer
 * normalisers and their similarity thresholds, and the per-server list of
 * languages in which answers are accepted.
 */
module Config {
  import opened Wrappers
  import opened PyStrings

  /** Seconds between two polls of the channel. */
  const CHECK_ANSWER_PERIOD: int := 1

  const FRIENDLY := "friendly"
  const RANKED := "ranked"

  const STRICT := "strict"
  const PERMISSIVE := "permissive"
  const VERY_PERMISSIVE := "very permissive"

  const DEFAULT_LANG := "fr"

  /** The answer-strictness modes a difficulty may name. */
  datatype Mode = Strict | Permissive | VeryPermissive

  /** The mode string a difficulty stores for each mode. */
  function ModeName(m: Mode): string {
    match m
    case Strict => STRICT
    case Permissive => PERMISSIVE
    case VeryPermissive => VERY_PERMISSIVE
  }

  /** One saved difficulty: its `mode`, `time_between_hint`, `max_hint` and `description` entries. */
  datatype Difficulty = Difficulty(mode: string, timeBetweenHint: int, maxHint: int, description: string)

  /**
   * The foreign text functions the normalisers call: Python's `str.lower`
   * and the `unidecode` transliteration.
   */
  datatype TextOps = TextOps(lower: string -> string, unidecode: string -> string)

  /** `_strict`: the answer as typed. */
  function StrictFormat(answer: string): (r: string)
    ensures r == answer
  {
    answer
  }

  /** `_permissive`: lower case, then transliterated to ASCII. */
  function PermissiveFormat(ops: TextOps, answer: string): string {
    ops.unidecode(ops.lower(answer))
  }

  /** Answers that differ only in case are folded alike. */
  lemma PermissiveFormatFoldsCase(ops: TextOps, x: string, y: string)
    requires ops.lower(x) == ops.lower(y)
    ensures PermissiveFormat(ops, x) == PermissiveFormat(ops, y)
  {
  }

  /** Keeps the characters that are alphanumeric or a space. */
  function KeepAlnumAndSpace(s: string): (r: string)
    ensures forall c :: c in r ==> c == ' ' || IsAsciiAlnum(c)
    ensures forall c :: c in s && (c == ' ' || IsAsciiAlnum(c)) ==> c in r
  {
    if s == [] then []
    else
      var rest := KeepAlnumAndSpace(s[1..]);
      assert forall c :: c in s ==> c == s[0] || c in s[1..];
      if s[0] == ' ' || IsAsciiAlnum(s[0]) then [s[0]] + rest else rest
  }

  /** Filtering a concatenation filters each part: the kept characters stay in order. */
  lemma {:induction false} KeepAlnumAndSpaceAppend(a: string, b: string)
    ensures KeepAlnumAndSpace(a + b) == KeepAlnumAndSpace(a) + KeepAlnumAndSpace(b)
  {
    if a != [] {
      var u := a + b;
      var head: string := if a[0] == ' ' || IsAsciiAlnum(a[0]) then [a[0]] else [];
      assert u[0] == a[0];
      assert u[1..] == a[1..] + b;
      calc {
        KeepAlnumAndSpace(u);
        head + KeepAlnumAndSpace(a[1..] + b);
        { KeepAlnumAndSpaceAppend(a[1..], b); }
        head + (KeepAlnumAndSpace(a[1..]) + KeepAlnumAndSpace(b));
        (head + KeepAlnumAndSpace(a[1..])) + KeepAlnumAndSpace(b);
      }
    } else {
      assert a + b == b;
    }
  }

  /** A single character is kept, once, exactly when it is alphanumeric or a space. */
  lemma KeepAlnumAndSpaceChar(c: char)
    ensures KeepAlnumAndSpace([c]) == if c == ' ' || IsAsciiAlnum(c) then [c] else []
  {
    assert [c][1..] == [];
  }

  /**
   * `_very_permissive`: hyphens become spaces, the permissive fold is
   * applied, everything but letters, digits and spaces is dropped, and runs
   * of spaces collapse to one.
   */
  function VeryPermissiveFormat(ops: TextOps, answer: string): (r: string)
    ensures Collapsed(r)
    ensures forall c :: c in r ==> c == ' ' || IsAsciiAlnum(c)
    ensures '-' !in r
  {
    var kept := KeepAlnumAndSpace(PermissiveFormat(ops, ReplaceChar(answer, '-', ' ')));
    SplitChars(kept);
    JoinSpaceCollapsed(Split(kept));
    JoinSpace(Split(kept))
  }

  /**
   * The very permissive form keeps the words of the filtered permissive form:
   * splitting it gives those words back, so its letters and digits are the
   * kept ones, in order.
   */
  lemma {:induction false} VeryPermissiveWords(ops: TextOps, answer: string)
    ensures var kept := KeepAlnumAndSpace(PermissiveFormat(ops, ReplaceChar(answer, '-', ' ')));
      && Split(VeryPermissiveFormat(ops, answer)) == Split(kept)
      && Concat(Split(VeryPermissiveFormat(ops, answer))) == DropSpaces(kept)
  {
    var kept := KeepAlnumAndSpace(PermissiveFormat(ops, ReplaceChar(answer, '-', ' ')));
    SplitJoinSpace(Split(kept));
    SplitConcat(kept);
  }

  /** The normaliser of each mode. */
  function Format(ops: TextOps, m: Mode, answer: string): string {
    match m
    case Strict => StrictFormat(answer)
    case Permissive => PermissiveFormat(ops, answer)
    case VeryPermissive => VeryPermissiveFormat(ops, answer)
  }

  /** A hyphen separates words like a space does: only the hyphen-free form matters. */
  lemma HyphenIsSeparator(ops: TextOps, x: string, y: string)
    requires ReplaceChar(x, '-', ' ') == ReplaceChar(y, '-', ' ')
    ensures VeryPermissiveFormat(ops, x) == VeryPermissiveFormat(ops, y)
  {
  }

  /** So "a-b" and "a b" normalise alike. */
  lemma HyphenExample(ops: TextOps)
    ensures VeryPermissiveFormat(ops, "a-b") == VeryPermissiveFormat(ops, "a b")
  {
    assert ReplaceChar("a-b", '-', ' ') == "a b" == ReplaceChar("a b", '-', ' ');
  }

  /**
   * `get_answer_formatter`: the normaliser named by the difficulty's mode,
   * or a ValueError for a mode that is none of the three.
   */
  function GetAnswerFormatter(config: Difficulty): (r: Result<Mode>)
    ensures r.Ok? <==> config.mode in {STRICT, PERMISSIVE, VERY_PERMISSIVE}
    ensures r.Ok? ==> ModeName(r.value) == config.mode
    ensures r.Err? ==> r.error == ValueError(config.mode + " isn't a correct value.")
  {
    if config.mode == STRICT then Ok(Strict)
    else if config.mode == PERMISSIVE then Ok(Permissive)
    else if config.mode == VERY_PERMISSIVE then Ok(VeryPermissive)
    else Err(ValueError(config.mode + " isn't a correct value."))
  }

  /** Every mode's own name selects that mode. */
  lemma GetAnswerFormatterModeName(m: Mode, d: Difficulty)
    requires d.mode == ModeName(m)
    ensures GetAnswerFormatter(d) == Ok(m)
  {
  }

  /** `FUZZ_THRESHOLD`: the similarity a candidate must reach under each mode. */
  function FuzzThreshold(m: Mode): (t: int)
    ensures 0 <= t <= 100
  {
    match m
    case Strict => 100
    case Permissive => 97
    case VeryPermissive => 94
  }

  /** The more permissive the mode, the lower the threshold. */
  lemma ThresholdDecreasesWithPermissiveness()
    ensures FuzzThreshold(Strict) >= FuzzThreshold(Permissive) >= FuzzThreshold(VeryPermissive)
  {
  }

  class ConfigurationManager {
    /** `SAVED_CONFIG`: difficulty name to its settings. */
    const savedConfig: map<string, Difficulty>
    /** `langs_by_servers`: guild id to the languages accepted there. */
    var langsByServers: map<int, seq<string>>
    /** The content of the languages file as last written, and how often it was written. */
    var persistedLangs: map<int, seq<string>>
    var langsWrites: nat

    /** The two files' contents, loaded at start. */
    constructor (savedConfig: map<string, Difficulty>, langsByServers: map<int, seq<string>>)
      ensures this.savedConfig == savedConfig && this.langsByServers == langsByServers
      ensures persistedLangs == langsByServers && langsWrites == 0
    {
      this.savedConfig := savedConfig;
      this.langsByServers := langsByServers;
      this.persistedLangs := langsByServers;
      this.langsWrites := 0;
    }

    /** `get_config`: the named difficulty, or a KeyError. */
    function GetConfig(configName: string): (r: Result<Difficulty>)
      ensures r.Ok? <==> configName in savedConfig
      ensures r.Ok? ==> r.value == savedConfig[configName]
      ensures r.Err? ==> r.error == KeyError
    {
      if configName in savedConfig then Ok(savedConfig[configName]) else Err(KeyError)
    }

    /** `get_allowed_langs`: the guild's stored list, or French alone for an unknown guild. */
    function GetAllowedLangs(guildId: int): (langs: seq<string>)
      reads this
      ensures guildId !in langsByServers ==> langs == [DEFAULT_LANG]
      ensures guildId in langsByServers ==> langs == langsByServers[guildId]
    {
      if guildId in langsByServers then langsByServers[guildId] else [DEFAULT_LANG]
    }

    /**
     * `update_allowed_langs`: replaces this guild's list and writes the whole
     * table out; every other guild keeps its list.
     */
    method UpdateAllowedLangs(guildId: int, newLangs: seq<string>)
      modifies this
      ensures langsByServers == old(langsByServers)[guildId := newLangs]
      ensures GetAllowedLangs(guildId) == newLangs
      ensures forall g :: g != guildId ==> GetAllowedLangs(g) == old(GetAllowedLangs(g))
      ensures persistedLangs == langsByServers && langsWrites == old(langsWrites) + 1
    {
      langsByServers := langsByServers[guildId := newLangs];
      persistedLangs := langsByServers;
      langsWrites := langsWrites + 1;
    }
  }
}
