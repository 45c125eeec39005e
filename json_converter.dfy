/**
 * `json_converter`: walks a decoded JSON value and turns every string that
 * Python's `int()` accepts into that integer, object keys included.
 */
module JsonConverter {
  import opened Wrappers
  import opened Dict

  /** An object key: a string as decoded, an integer once converted. */
  datatype Key = KStr(s: string) | KInt(n: int)

  /** A decoded JSON value; objects keep their keys in insertion order. */
  datatype Json =
    | JStr(s: string)
    | JInt(n: int)
    | JList(items: seq<Json>)
    | JDict(entries: Dict<Key, Json>)
    | JFloat(mantissa: int, exponent: int)
    | JBool(b: bool)
    | JNull

  /** Python's `int(s)`: the integer that `s` spells, or None where `int` raises ValueError. */
  type ParseInt = string -> Option<int>

  /** The conversion applied to an object key. */
  function ConvertKey(parse: ParseInt, k: Key): (r: Key)
    ensures k.KStr? && parse(k.s).Some? ==> r == KInt(parse(k.s).value)
    ensures k.KStr? && parse(k.s).None? ==> r == k
    ensures k.KInt? ==> r == k
  {
    match k
    case KStr(s) => (match parse(s) case Some(n) => KInt(n) case None => k)
    case KInt(_) => k
  }

  /** `d = {}; for k, v in pairs: d[k] = v`: a later pair overwrites an earlier one with the same key. */
  function BuildDict(pairs: seq<(Key, Json)>, acc: Dict<Key, Json>): (r: Dict<Key, Json>)
    ensures |r| <= |acc| + |pairs|
    decreases |pairs|
  {
    if pairs == [] then acc else BuildDict(pairs[1..], Put(acc, pairs[0].0, pairs[0].1))
  }

  /** A key that `int()` would not turn into an integer. */
  predicate NormalKey(parse: ParseInt, k: Key) {
    k.KStr? ==> parse(k.s).None?
  }

  /** No string anywhere in `j`, value or object key, is one that `int()` accepts. */
  predicate Normal(parse: ParseInt, j: Json)
    decreases j
  {
    match j
    case JStr(s) => parse(s).None?
    case JList(items) => forall i :: 0 <= i < |items| ==> Normal(parse, items[i])
    case JDict(entries) =>
      forall i :: 0 <= i < |entries| ==> NormalKey(parse, entries[i].0) && Normal(parse, entries[i].1)
    case _ => true
  }

  /**
   * `json_converter(obj)`: lists and objects keep their kind, and what comes
   * back holds no string, neither as a value nor as an object key, that
   * `int()` accepts.
   */
  function Convert(parse: ParseInt, j: Json): (r: Json)
    ensures j.JList? <==> r.JList?
    ensures j.JDict? <==> r.JDict?
    ensures Normal(parse, r)
    decreases j
  {
    match j
    case JStr(s) => (match parse(s) case Some(n) => JInt(n) case None => j)
    case JList(items) =>
      JList(seq(|items|, i requires 0 <= i < |items| => Convert(parse, items[i])))
    case JDict(entries) =>
      var ps := ConvertedPairs(parse, j);
      BuildDictMembers(ps, []);
      JDict(BuildDict(ps, []))
    case _ => j
  }

  /** Each key and value of an object, converted, in the object's order. */
  function ConvertedPairs(parse: ParseInt, j: Json): (ps: seq<(Key, Json)>)
    requires j.JDict?
    ensures |ps| == |j.entries|
    ensures forall p :: p in ps ==> NormalKey(parse, p.0) && Normal(parse, p.1)
    decreases j, 0
  {
    seq(|j.entries|, i requires 0 <= i < |j.entries| =>
      (ConvertKey(parse, j.entries[i].0), Convert(parse, j.entries[i].1)))
  }

  /** A string that parses becomes its integer; one that does not stays as it is. */
  lemma ConvertString(parse: ParseInt, s: string)
    ensures parse(s).Some? ==> Convert(parse, JStr(s)) == JInt(parse(s).value)
    ensures parse(s).None? ==> Convert(parse, JStr(s)) == JStr(s)
  {
  }

  /** A list keeps its length and order and is converted element by element. */
  lemma ConvertList(parse: ParseInt, items: seq<Json>)
    ensures Convert(parse, JList(items)).JList?
    ensures |Convert(parse, JList(items)).items| == |items|
    ensures forall i :: 0 <= i < |items| ==> Convert(parse, JList(items)).items[i] == Convert(parse, items[i])
  {
  }

  /** Numbers, booleans and null come back unchanged. */
  lemma ConvertScalar(parse: ParseInt, j: Json)
    requires j.JInt? || j.JFloat? || j.JBool? || j.JNull?
    ensures Convert(parse, j) == j
  {
  }

  lemma {:induction false} BuildDictDistinct(pairs: seq<(Key, Json)>, acc: Dict<Key, Json>)
    requires DistinctKeys(acc)
    ensures DistinctKeys(BuildDict(pairs, acc))
    decreases |pairs|
  {
    if pairs != [] {
      PutDistinct(acc, pairs[0].0, pairs[0].1);
      BuildDictDistinct(pairs[1..], Put(acc, pairs[0].0, pairs[0].1));
    }
  }

  lemma {:induction false} BuildDictKeys(pairs: seq<(Key, Json)>, acc: Dict<Key, Json>, k: Key)
    ensures k in Keys(BuildDict(pairs, acc)) <==> k in Keys(acc) || k in Keys(pairs)
    decreases |pairs|
  {
    if pairs != [] {
      var acc' := Put(acc, pairs[0].0, pairs[0].1);
      BuildDictKeys(pairs[1..], acc', k);
      assert Keys(pairs) == [pairs[0].0] + Keys(pairs[1..]);
      if k != pairs[0].0 { PutOther(acc, pairs[0].0, pairs[0].1, k); }
    }
  }

  lemma {:induction false} BuildDictUntouched(pairs: seq<(Key, Json)>, acc: Dict<Key, Json>, k: Key)
    requires k in Keys(acc) && k !in Keys(pairs)
    ensures k in Keys(BuildDict(pairs, acc)) && Get(BuildDict(pairs, acc), k) == Get(acc, k)
    decreases |pairs|
  {
    if pairs != [] {
      assert Keys(pairs) == [pairs[0].0] + Keys(pairs[1..]);
      PutOther(acc, pairs[0].0, pairs[0].1, k);
      BuildDictUntouched(pairs[1..], Put(acc, pairs[0].0, pairs[0].1), k);
    }
  }

  /** The value a key ends with is that of the last pair holding the key. */
  lemma {:induction false} BuildDictLastWins(pairs: seq<(Key, Json)>, acc: Dict<Key, Json>, i: nat)
    requires i < |pairs|
    requires forall j :: i < j < |pairs| ==> pairs[j].0 != pairs[i].0
    ensures pairs[i].0 in Keys(BuildDict(pairs, acc))
    ensures Get(BuildDict(pairs, acc), pairs[i].0) == pairs[i].1
    decreases |pairs|
  {
    var acc' := Put(acc, pairs[0].0, pairs[0].1);
    if i == 0 {
      assert pairs[0].0 !in Keys(pairs[1..]);
      BuildDictUntouched(pairs[1..], acc', pairs[0].0);
    } else {
      BuildDictLastWins(pairs[1..], acc', i - 1);
    }
  }

  /** Every pair of the built object was already there or was given. */
  lemma BuildDictMembers(pairs: seq<(Key, Json)>, acc: Dict<Key, Json>)
    ensures forall p :: p in BuildDict(pairs, acc) ==> p in acc || p in pairs
  {
    forall p | p in BuildDict(pairs, acc) ensures p in acc || p in pairs {
      BuildDictMember(pairs, acc, p);
    }
  }

  lemma {:induction false} BuildDictMember(pairs: seq<(Key, Json)>, acc: Dict<Key, Json>, p: (Key, Json))
    requires p in BuildDict(pairs, acc)
    ensures p in acc || p in pairs
    decreases |pairs|
  {
    if pairs != [] {
      var acc' := Put(acc, pairs[0].0, pairs[0].1);
      BuildDictMember(pairs[1..], acc', p);
      if p in acc' { PutMember(acc, pairs[0].0, pairs[0].1, p); }
    }
  }

  /** Pairs with fresh, distinct keys are simply appended in order. */
  lemma {:induction false} BuildDictFresh(pairs: seq<(Key, Json)>, acc: Dict<Key, Json>)
    requires DistinctKeys(acc + pairs)
    ensures BuildDict(pairs, acc) == acc + pairs
    decreases |pairs|
  {
    if pairs != [] {
      assert pairs[0].0 !in Keys(acc) by {
        forall i | 0 <= i < |acc| ensures acc[i].0 != pairs[0].0 {
          assert (acc + pairs)[i] == acc[i] && (acc + pairs)[|acc|] == pairs[0];
        }
      }
      assert acc + pairs == (acc + [pairs[0]]) + pairs[1..];
      BuildDictFresh(pairs[1..], acc + [pairs[0]]);
    }
  }

  /**
   * In an object, keys and values are both converted; keys that convert to
   * the same key collapse, the later pair winning, so the key count never grows.
   */
  lemma ConvertDict(parse: ParseInt, entries: Dict<Key, Json>)
    ensures Convert(parse, JDict(entries)).JDict?
    ensures |Convert(parse, JDict(entries)).entries| <= |entries|
    ensures DistinctKeys(Convert(parse, JDict(entries)).entries)
    ensures forall k :: k in Keys(Convert(parse, JDict(entries)).entries)
                    <==> exists i :: 0 <= i < |entries| && ConvertKey(parse, entries[i].0) == k
    ensures forall i :: 0 <= i < |entries|
                    && (forall j :: i < j < |entries| ==>
                          ConvertKey(parse, entries[j].0) != ConvertKey(parse, entries[i].0))
                    ==> Get(Convert(parse, JDict(entries)).entries, ConvertKey(parse, entries[i].0))
                        == Convert(parse, entries[i].1)
  {
    var j := JDict(entries);
    var ps := ConvertedPairs(parse, j);
    var r := BuildDict(ps, []);
    BuildDictDistinct(ps, []);
    forall k ensures k in Keys(r) <==> exists i :: 0 <= i < |entries| && ConvertKey(parse, entries[i].0) == k {
      BuildDictKeys(ps, [], k);
      if k in Keys(ps) {
        var i :| 0 <= i < |ps| && Keys(ps)[i] == k;
        assert ConvertKey(parse, entries[i].0) == k;
      }
      if exists i :: 0 <= i < |entries| && ConvertKey(parse, entries[i].0) == k {
        var i :| 0 <= i < |entries| && ConvertKey(parse, entries[i].0) == k;
        assert Keys(ps)[i] == k;
      }
    }
    forall i | 0 <= i < |entries|
        && (forall j :: i < j < |entries| ==>
              ConvertKey(parse, entries[j].0) != ConvertKey(parse, entries[i].0))
      ensures Get(r, ConvertKey(parse, entries[i].0)) == Convert(parse, entries[i].1)
    {
      BuildDictLastWins(ps, [], i);
    }
  }

  /** Converting twice gives what converting once gives. */
  lemma {:induction false} ConvertIdempotent(parse: ParseInt, j: Json)
    ensures Convert(parse, Convert(parse, j)) == Convert(parse, j)
    decreases j
  {
    match j
    case JStr(s) =>
    case JList(items) =>
      var once := Convert(parse, j).items;
      forall i | 0 <= i < |items| ensures Convert(parse, once[i]) == once[i] {
        ConvertIdempotent(parse, items[i]);
      }
      assert Convert(parse, Convert(parse, j)).items == once;
    case JDict(entries) =>
      var ps := ConvertedPairs(parse, j);
      var e := BuildDict(ps, []);
      forall p | p in ps ensures ConvertKey(parse, p.0) == p.0 && Convert(parse, p.1) == p.1 {
        var i :| 0 <= i < |ps| && ps[i] == p;
        ConvertIdempotent(parse, entries[i].1);
      }
      var ps2 := ConvertedPairs(parse, JDict(e));
      forall i | 0 <= i < |e| ensures ps2[i] == e[i] {
        BuildDictMember(ps, [], e[i]);
      }
      assert ps2 == e;
      BuildDictDistinct(ps, []);
      assert [] + e == e;
      BuildDictFresh(e, []);
    case _ =>
  }
}
