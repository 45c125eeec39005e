/**
 * The Python `str` built-ins the modelled code relies on: `isspace`,
 * `isalnum` (on ASCII text), `split()`, `" ".join`, `strip()`, `endswith`
 * and single-character `replace`.
 */
module PyStrings {

  /** `c.isspace()`: the characters Python's `split()` and `strip()` remove. */
  predicate IsSpace(c: char) {
    || c == ' '
    || '\t' <= c <= '\r'
    || '\U{1C}' <= c <= '\U{1F}'
    || c == '\U{85}' || c == '\U{A0}' || c == '\U{1680}'
    || '\U{2000}' <= c <= '\U{200A}'
    || c == '\U{2028}' || c == '\U{2029}' || c == '\U{202F}' || c == '\U{205F}' || c == '\U{3000}'
  }

  /** `c.isalnum()` for the ASCII characters. */
  predicate IsAsciiAlnum(c: char) {
    ('a' <= c <= 'z') || ('A' <= c <= 'Z') || ('0' <= c <= '9')
  }

  predicate NoSpace(s: string) {
    forall i :: 0 <= i < |s| ==> !IsSpace(s[i])
  }

  /** `s.replace(a, b)` for single characters `a` and `b`. */
  function ReplaceChar(s: string, a: char, b: char): (r: string)
    ensures |r| == |s|
    ensures forall i :: 0 <= i < |s| ==> r[i] == (if s[i] == a then b else s[i])
  {
    if s == [] then [] else [if s[0] == a then b else s[0]] + ReplaceChar(s[1..], a, b)
  }

  /** `s.endswith(suffix)`. */
  predicate EndsWith(s: string, suffix: string) {
    |suffix| <= |s| && s[|s| - |suffix|..] == suffix
  }

  /** `s.lstrip()`: the suffix of `s` left once the leading whitespace is gone. */
  function LStrip(s: string): (r: string)
    ensures |r| <= |s| && r == s[|s| - |r|..]
    ensures forall j :: 0 <= j < |s| - |r| ==> IsSpace(s[j])
    ensures r == [] || !IsSpace(r[0])
  {
    if s != [] && IsSpace(s[0]) then LStrip(s[1..]) else s
  }

  /** `s.rstrip()`: the prefix of `s` left once the trailing whitespace is gone. */
  function RStrip(s: string): (r: string)
    ensures |r| <= |s| && r == s[..|r|]
    ensures forall j :: |r| <= j < |s| ==> IsSpace(s[j])
    ensures r == [] || !IsSpace(r[|r| - 1])
  {
    if s != [] && IsSpace(s[|s| - 1]) then RStrip(s[..|s| - 1]) else s
  }

  /** `s.strip()`. */
  function Strip(s: string): string {
    RStrip(LStrip(s))
  }

  /** `s.strip()` keeps a run of the characters of `s` that neither starts nor ends with whitespace. */
  lemma StripShape(s: string)
    ensures forall c :: c in Strip(s) ==> c in s
    ensures Strip(s) == [] || (!IsSpace(Strip(s)[0]) && !IsSpace(Strip(s)[|Strip(s)| - 1]))
  {
    var l := LStrip(s);
    var r := RStrip(l);
    forall c | c in r ensures c in s {
      var j :| 0 <= j < |r| && r[j] == c;
      assert r[j] == l[j] == s[|s| - |l| + j];
    }
    if r != [] {
      assert r[0] == l[0];
    }
  }

  /** The longest prefix of `s` without whitespace. */
  function TakeWord(s: string): (w: string)
    ensures |w| <= |s| && w == s[..|w|] && NoSpace(w)
    ensures |w| == |s| || IsSpace(s[|w|])
  {
    if s == [] || IsSpace(s[0]) then [] else [s[0]] + TakeWord(s[1..])
  }

  /** `s.split()`: the maximal runs of non-whitespace characters, in order. */
  function Split(s: string): (ws: seq<string>)
    ensures forall i :: 0 <= i < |ws| ==> |ws[i]| > 0 && NoSpace(ws[i])
    decreases |s|
  {
    var t := LStrip(s);
    if t == [] then []
    else
      var w := TakeWord(t);
      assert !IsSpace(t[0]) && |w| > 0;
      var rest := Split(t[|w|..]);
      assert forall i :: 0 < i <= |rest| ==> ([w] + rest)[i] == rest[i - 1];
      [w] + rest
  }

  /** Every character of `s` is whitespace. */
  predicate AllSpace(s: string) {
    forall i :: 0 <= i < |s| ==> IsSpace(s[i])
  }

  /** Leading whitespace does not change what `lstrip()` leaves. */
  lemma {:induction false} LStripSpaces(sp: string, t: string)
    requires AllSpace(sp)
    ensures LStrip(sp + t) == LStrip(t)
    decreases |sp|
  {
    if sp != [] {
      var u := sp + t;
      assert u[0] == sp[0] && IsSpace(sp[0]);
      assert u[1..] == sp[1..] + t;
      assert LStrip(u) == LStrip(u[1..]);
      LStripSpaces(sp[1..], t);
    } else {
      assert sp + t == t;
    }
  }

  /** A word that ends at whitespace or at the end is the whole leading run. */
  lemma {:induction false} TakeWordOf(w: string, rest: string)
    requires NoSpace(w) && (rest == [] || IsSpace(rest[0]))
    ensures TakeWord(w + rest) == w
  {
    if w == [] {
      assert w + rest == rest;
    } else {
      var t := w + rest;
      assert t[0] == w[0];
      assert t[1..] == w[1..] + rest;
      TakeWordOf(w[1..], rest);
      assert [w[0]] + w[1..] == w;
    }
  }

  /** `s.split()` of whitespace alone is empty. */
  lemma SplitAllSpace(s: string)
    requires AllSpace(s)
    ensures Split(s) == []
  {
    LStripSpaces(s, "");
    assert s + "" == s;
  }

  /** Text that starts with no whitespace is left as it is by `lstrip()`. */
  lemma LStripNoLead(t: string)
    requires t != [] && !IsSpace(t[0])
    ensures LStrip(t) == t
  {
  }

  /** After whitespace, `lstrip()` stops at the first character of a word. */
  lemma LStripWord(sp: string, w: string, rest: string)
    requires AllSpace(sp) && w != [] && !IsSpace(w[0])
    ensures LStrip(sp + w + rest) == w + rest
  {
    var t := w + rest;
    assert sp + w + rest == sp + t;
    LStripSpaces(sp, t);
    assert t[0] == w[0];
    LStripNoLead(t);
  }

  /** One step of `s.split()`: the first word, then the split of the rest. */
  lemma SplitStep(s: string, t: string, w: string)
    requires t == LStrip(s) && t != [] && w == TakeWord(t)
    ensures Split(s) == [w] + Split(t[|w|..])
  {
  }

  /**
   * `s.split()` yields the maximal runs: after any whitespace, a word that
   * ends at whitespace or at the end of the text is the first item.
   */
  lemma SplitWordFirst(sp: string, w: string, rest: string)
    requires AllSpace(sp) && |w| > 0 && NoSpace(w) && (rest == [] || IsSpace(rest[0]))
    ensures Split(sp + w + rest) == [w] + Split(rest)
  {
    var t := w + rest;
    LStripWord(sp, w, rest);
    TakeWordOf(w, rest);
    assert t[|w|..] == rest;
    SplitStep(sp + w + rest, t, w);
  }

  lemma SuffixChars(s: string, k: nat)
    requires k <= |s|
    ensures forall c :: c in s[k..] ==> c in s
  {
    forall c | c in s[k..] ensures c in s {
      var j :| 0 <= j < |s| - k && s[k..][j] == c;
      assert s[k + j] == c;
    }
  }

  /** Every character of a word of `s.split()` is a character of `s`. */
  lemma {:induction false} SplitChars(s: string)
    ensures forall i, c :: 0 <= i < |Split(s)| && c in Split(s)[i] ==> c in s
    decreases |s|
  {
    var t := LStrip(s);
    if t != [] {
      var w := TakeWord(t);
      assert w[0] == t[0];
      SplitChars(t[|w|..]);
      assert Split(s) == [w] + Split(t[|w|..]);
      SuffixChars(s, |s| - |t|);
      SuffixChars(t, |w|);
      forall i, c | 0 <= i < |Split(s)| && c in Split(s)[i] ensures c in s {
        if i > 0 {
          assert Split(s)[i] == Split(t[|w|..])[i - 1];
        }
      }
    }
  }

  /** `sep.join(parts)`. */
  function Join(sep: string, parts: seq<string>): string {
    if parts == [] then ""
    else if |parts| == 1 then parts[0]
    else parts[0] + sep + Join(sep, parts[1..])
  }

  /** Joining one more part adds the separator and that part at the end. */
  lemma {:induction false} JoinSnoc(sep: string, parts: seq<string>, last: string)
    requires parts != []
    ensures Join(sep, parts + [last]) == Join(sep, parts) + sep + last
  {
    if |parts| > 1 {
      JoinSnoc(sep, parts[1..], last);
      assert (parts + [last])[1..] == parts[1..] + [last];
    }
  }

  /** `" ".join(ws)`. */
  function JoinSpace(ws: seq<string>): string {
    Join(" ", ws)
  }

  /** Leading whitespace does not change the words of `s.split()`. */
  lemma SplitSpaces(sp: string, t: string)
    requires AllSpace(sp)
    ensures Split(sp + t) == Split(t)
  {
    LStripSpaces(sp, t);
    var l := LStrip(t);
    if l != [] {
      SplitStep(sp + t, l, TakeWord(l));
      SplitStep(t, l, TakeWord(l));
    }
  }

  /** A word, a space, and more text: the word is the first item of the split. */
  lemma SplitWordSpace(w: string, rest: string)
    requires |w| > 0 && NoSpace(w)
    ensures Split(w + " " + rest) == [w] + Split(rest)
  {
    var e: string := [];
    var sp := [' '];
    assert w + " " + rest == e + w + (sp + rest);
    SplitWordFirst(e, w, sp + rest);
    SplitSpaces(sp, rest);
  }

  /** A single word is split into itself. */
  lemma SplitWord(w: string)
    requires |w| > 0 && NoSpace(w)
    ensures Split(w) == [w]
  {
    var e: string := [];
    assert w + e == w;
    TakeWordOf(w, e);
    assert LStrip(w) == w;
    SplitStep(w, w, w);
    assert w[|w|..] == e;
  }

  /** One more word in front: its split puts that word in front. */
  lemma SplitJoinSpaceCons(ws: seq<string>)
    requires |ws| > 1 && |ws[0]| > 0 && NoSpace(ws[0])
    requires Split(JoinSpace(ws[1..])) == ws[1..]
    ensures Split(JoinSpace(ws)) == ws
  {
    var rest := JoinSpace(ws[1..]);
    assert JoinSpace(ws) == ws[0] + " " + rest;
    SplitWordSpace(ws[0], rest);
    assert ws == [ws[0]] + ws[1..];
  }

  /** `s.split()` undoes `" ".join(ws)` when the words are non-empty and hold no whitespace. */
  lemma {:induction false} SplitJoinSpace(ws: seq<string>)
    requires forall i :: 0 <= i < |ws| ==> |ws[i]| > 0 && NoSpace(ws[i])
    ensures Split(JoinSpace(ws)) == ws
  {
    if |ws| == 1 {
      SplitWord(ws[0]);
      assert JoinSpace(ws) == ws[0];
    } else if |ws| > 1 {
      SplitJoinSpace(ws[1..]);
      SplitJoinSpaceCons(ws);
    }
  }

  /** The words concatenated, with nothing between them. */
  function Concat(ws: seq<string>): string {
    if ws == [] then "" else ws[0] + Concat(ws[1..])
  }

  /** The characters of `s` that are not whitespace, in order. */
  function DropSpaces(s: string): string {
    if s == [] then "" else (if IsSpace(s[0]) then "" else [s[0]]) + DropSpaces(s[1..])
  }

  lemma {:induction false} DropSpacesAppend(a: string, b: string)
    ensures DropSpaces(a + b) == DropSpaces(a) + DropSpaces(b)
  {
    if a != [] {
      var u := a + b;
      var head: string := if IsSpace(a[0]) then "" else [a[0]];
      assert u[0] == a[0];
      assert u[1..] == a[1..] + b;
      calc {
        DropSpaces(u);
        head + DropSpaces(a[1..] + b);
        { DropSpacesAppend(a[1..], b); }
        head + (DropSpaces(a[1..]) + DropSpaces(b));
        (head + DropSpaces(a[1..])) + DropSpaces(b);
      }
    } else {
      assert a + b == b;
    }
  }

  lemma {:induction false} DropSpacesAllSpace(s: string)
    requires AllSpace(s)
    ensures DropSpaces(s) == ""
  {
    if s != [] {
      DropSpacesAllSpace(s[1..]);
    }
  }

  lemma {:induction false} DropSpacesNoSpace(s: string)
    requires NoSpace(s)
    ensures DropSpaces(s) == s
  {
    if s != [] {
      DropSpacesNoSpace(s[1..]);
    }
  }

  /** The whitespace `lstrip()` removes contributes no character. */
  lemma DropSpacesLStrip(s: string)
    ensures DropSpaces(s) == DropSpaces(LStrip(s))
  {
    var t := LStrip(s);
    var k := |s| - |t|;
    assert s == s[..k] + t;
    assert AllSpace(s[..k]);
    DropSpacesAppend(s[..k], t);
    DropSpacesAllSpace(s[..k]);
  }

  /** The leading word keeps all its characters. */
  lemma DropSpacesWord(t: string, w: string)
    requires w == TakeWord(t)
    ensures DropSpaces(t) == w + DropSpaces(t[|w|..])
  {
    assert t == w + t[|w|..];
    DropSpacesAppend(w, t[|w|..]);
    DropSpacesNoSpace(w);
  }

  lemma ConcatCons(w: string, ws: seq<string>)
    ensures Concat([w] + ws) == w + Concat(ws)
  {
    assert ([w] + ws)[1..] == ws;
  }

  /** The words of `s.split()` hold exactly the non-whitespace characters of `s`, in order. */
  lemma {:induction false} SplitConcat(s: string)
    ensures Concat(Split(s)) == DropSpaces(s)
    decreases |s|
  {
    var t := LStrip(s);
    DropSpacesLStrip(s);
    if t != [] {
      var w := TakeWord(t);
      var rest := t[|w|..];
      SplitStep(s, t, w);
      DropSpacesWord(t, w);
      SplitConcat(rest);
      ConcatCons(w, Split(rest));
    }
  }

  /** No leading or trailing space and no two spaces in a row. */
  predicate Collapsed(s: string) {
    && (|s| > 0 ==> s[0] != ' ' && s[|s| - 1] != ' ')
    && forall i :: 0 <= i < |s| - 1 ==> !(s[i] == ' ' && s[i + 1] == ' ')
  }

  /**
   * Joining non-empty words that hold no space with single spaces gives a
   * collapsed string whose characters are spaces or characters of the words.
   */
  lemma {:induction false} JoinSpaceCollapsed(ws: seq<string>)
    requires forall i :: 0 <= i < |ws| ==> |ws[i]| > 0 && NoSpace(ws[i])
    requires forall i, c :: 0 <= i < |ws| && c in ws[i] ==> IsAsciiAlnum(c)
    ensures Collapsed(JoinSpace(ws))
    ensures forall c :: c in JoinSpace(ws) ==> c == ' ' || IsAsciiAlnum(c)
  {
    if |ws| > 1 {
      JoinSpaceCollapsed(ws[1..]);
      var w, rest := ws[0], JoinSpace(ws[1..]);
      var r := w + " " + rest;
      assert |rest| > 0 by { JoinSpaceNonEmpty(ws[1..]); }
      assert !IsSpace(w[|w| - 1]);
      forall i | 0 <= i < |r| - 1 ensures !(r[i] == ' ' && r[i + 1] == ' ') {
        if i < |w| - 1 {
          assert r[i] == w[i];
        } else if i == |w| - 1 {
          assert r[i] == w[|w| - 1];
        } else if i == |w| {
          assert r[i + 1] == rest[0];
        } else {
          assert r[i] == rest[i - |w| - 1] && r[i + 1] == rest[i - |w|];
        }
      }
      forall c | c in r ensures c == ' ' || IsAsciiAlnum(c) {
        if c in w {
          assert c in ws[0];
        } else if c != ' ' {
          assert c in rest;
        }
      }
      assert r[|r| - 1] == rest[|rest| - 1];
    } else if |ws| == 1 {
      assert JoinSpace(ws) == ws[0];
      forall c | c in ws[0] ensures IsAsciiAlnum(c) { }
    }
  }

  lemma {:induction false} JoinSpaceNonEmpty(ws: seq<string>)
    requires |ws| > 0 && forall i :: 0 <= i < |ws| ==> |ws[i]| > 0
    ensures |JoinSpace(ws)| > 0
  {
  }
}
