/**
 * The wiki page helpers that turn a page's item code into the item's vnum
 * (its number in the game's tables) and attach the item's in-game name.
 */
module Metin2Api {
  import opened Wrappers
  import opened PyStrings

  /** Letter `i` of the alphabet: a..z for 0..25, then A..Z. */
  function AlphabetAt(i: int): char {
    if 0 <= i < 26 then ('a' as int + i) as char
    else if 26 <= i < 52 then ('A' as int + (i - 26)) as char
    else 'Z'
  }

  function Alphabet(): (a: string)
    ensures |a| == 52
    ensures forall i :: 0 <= i < 52 ==> a[i] == AlphabetAt(i)
  {
    seq(52, AlphabetAt)
  }

  /** `ALPHABET`: the lower-case letters followed by the upper-case letters. */
  const ALPHABET: string := Alphabet()

  /** `BASE = len(ALPHABET)`. */
  const BASE: nat := |ALPHABET|

  function Pow(b: nat, e: nat): (p: nat)
    ensures b > 0 ==> p > 0
  {
    if e == 0 then 1 else b * Pow(b, e - 1)
  }

  /** The value of a letter: a..z are 0..25 and A..Z are 26..51. */
  function Digit(c: char): (d: nat)
    requires c in ALPHABET
    ensures d < BASE && ALPHABET[d] == c
  {
    if 'a' <= c <= 'z' then (c as int - 'a' as int) as nat else (c as int - 'A' as int + 26) as nat
  }

  predicate IsCode(s: string) {
    forall i :: 0 <= i < |s| ==> s[i] in ALPHABET
  }

  /** The little-endian base-52 reading of a code: the sum of Digit(s[i]) * 52^i. */
  function Value(s: string): nat
    requires IsCode(s)
  {
    if s == [] then 0 else Value(s[..|s| - 1]) + Digit(s[|s| - 1]) * Pow(BASE, |s| - 1)
  }

  /**
   * `Page.code_to_vnum`: adds each letter's value times 52 to the power of
   * its position; a character outside the alphabet makes `ALPHABET.index`
   * raise a ValueError.
   */
  method CodeToVnum(letters: string) returns (r: Result<nat>)
    ensures r.Ok? <==> IsCode(letters)
    ensures r.Ok? ==> r.value == Value(letters)
    ensures r.Err? ==> r.error == ValueError("substring not found")
  {
    var number := 0;
    var i := 0;
    while i < |letters|
      invariant 0 <= i <= |letters|
      invariant IsCode(letters[..i])
      invariant number == Value(letters[..i])
    {
      var letter := letters[i];
      if letter !in ALPHABET {
        return Err(ValueError("substring not found"));
      }
      var value := Digit(letter);
      assert letters[..i + 1][..i] == letters[..i];
      number := number + value * Pow(BASE, i);
      i := i + 1;
    }
    assert letters[..i] == letters;
    return Ok(number);
  }

  /** The empty code is vnum 0. */
  lemma EmptyCode()
    ensures Value("") == 0
  {
  }

  /** A code of n letters decodes below 52^n. */
  lemma {:induction false} ValueBound(s: string)
    requires IsCode(s)
    ensures Value(s) < Pow(BASE, |s|)
  {
    if s != [] {
      var init, n := s[..|s| - 1], |s| - 1;
      assert IsCode(init) by {
        forall i | 0 <= i < |init| ensures init[i] in ALPHABET { assert init[i] == s[i]; }
      }
      ValueBound(init);
      var d, p := Digit(s[|s| - 1]), Pow(BASE, n);
      assert Value(s) == Value(init) + d * p;
      DigitTimesPower(d, p);
      assert Pow(BASE, |s|) == BASE * p;
    }
  }

  lemma DigitTimesPower(d: nat, p: nat)
    requires d < BASE
    ensures d * p <= (BASE - 1) * p
  {
  }

  /** A trailing `a` (digit 0) is the most significant position and adds nothing. */
  lemma TrailingZeroDigit(s: string)
    requires IsCode(s)
    ensures IsCode(s + "a") && Value(s + "a") == Value(s)
  {
    assert ALPHABET[0] == 'a';
    assert (s + "a")[..|s|] == s;
  }

  /** So "b" and "ba" are both vnum 1. */
  lemma TrailingZeroExample()
    ensures IsCode("b") && IsCode("ba") && Value("b") == 1 && Value("ba") == 1
  {
    assert ALPHABET[0] == 'a' && ALPHABET[1] == 'b';
    assert "ba"[..1] == "b";
  }

  /** Drops one trailing "+0" (the +0 upgrade level) from an item name. */
  function StripPlusZero(name: string): (r: string)
    ensures EndsWith(name, "+0") ==> r + "+0" == name
    ensures !EndsWith(name, "+0") ==> r == name
  {
    if EndsWith(name, "+0") then name[..|name| - 2] else name
  }

  /** Exactly one "+0" goes: "x+0+0" keeps its first "+0". */
  lemma StripPlusZeroOnce(name: string)
    ensures StripPlusZero(name + "+0") == name
  {
    assert EndsWith(name + "+0", "+0");
    assert (name + "+0")[..|name|] == name;
  }

  class Page {
    const title: string
    /** `ig_name`: unset until `add_ig_name` succeeds. */
    var igName: Option<string>

    constructor (title: string)
      ensures this.title == title && igName == None
    {
      this.title := title;
      igName := None;
    }

    /**
     * `add_ig_name`: decodes the page's `Code` parameter (given here as its
     * raw text), looks the vnum up among the item names and stores that name
     * without its "+0". A bad code raises ValueError and an unknown vnum
     * KeyError, leaving the name unset.
     */
    method AddIgName(codeText: string, itemNames: map<nat, string>) returns (r: Result<nat>)
      modifies this
      ensures r.Ok? <==> IsCode(Strip(codeText)) && Value(Strip(codeText)) in itemNames
      ensures r.Ok? ==> r.value == Value(Strip(codeText))
      ensures r.Ok? ==> igName == Some(StripPlusZero(itemNames[r.value]))
      ensures r.Err? ==> igName == old(igName)
    {
      var code := Strip(codeText);
      var vnum := CodeToVnum(code);
      if vnum.Err? {
        return vnum;
      }
      if vnum.value !in itemNames {
        return Err(KeyError);
      }
      igName := Some(StripPlusZero(itemNames[vnum.value]));
      return vnum;
    }
  }
}
