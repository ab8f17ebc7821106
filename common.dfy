/** Shared vocabulary of the model: optional values, Python exceptions as
    error values, JSON-like dictionary values, insertion-ordered dictionaries
    and the ASCII character classes the parsers use. */
module Common {

  datatype Option<+T> = None | Some(value: T)

  /** The Python exceptions the modelled code can raise. */
  datatype Error =
    | ValueError
    | KeyError(key: string)
    | IndexError
    | AttributeError
    | TypeError(key: string)

  datatype Result<+T> = Ok(value: T) | Err(error: Error) {
    predicate IsFailure() {
      Err?
    }

    function PropagateFailure<U>(): Result<U>
      requires Err?
    {
      Err(error)
    }

    function Extract(): T
      requires Ok?
    {
      value
    }
  }

  /** The outcome of a call that returns nothing but may raise. */
  datatype Outcome = Pass | Fail(error: Error)

  /** A value stored in a serialised dictionary (what `json` reads or
      writes). A nested dictionary keeps its insertion order, as Python's does. */
  datatype Value =
    | VNone
    | VBool(b: bool)
    | VInt(i: int)
    | VFloat(f: real)
    | VStr(s: string)
    | VList(items: seq<Value>)
    | VDict(dict: ODict<Value>)

  type Dict = map<string, Value>

  /** The two dicts hold the same entry for `k`, or both lack it. */
  predicate Agree(d1: Dict, d2: Dict, k: string) {
    (k in d1 <==> k in d2) && (k in d1 ==> d1[k] == d2[k])
  }

  /** `data.get(key, default)` */
  function Get(data: Dict, key: string, default: Value): (v: Value)
    ensures key in data ==> v == data[key]
    ensures key !in data ==> v == default
  {
    if key in data then data[key] else default
  }

  /** `data[key]` where the value must be an int */
  function RequireInt(data: Dict, key: string): (r: Result<int>)
    ensures key !in data ==> r == Err(KeyError(key))
    ensures r.Ok? <==> key in data && data[key].VInt?
    ensures r.Ok? ==> data[key] == VInt(r.value)
  {
    if key !in data then Err(KeyError(key))
    else if data[key].VInt? then Ok(data[key].i)
    else Err(TypeError(key))
  }

  /** `data[key]` where the value must be a string */
  function RequireStr(data: Dict, key: string): (r: Result<string>)
    ensures key !in data ==> r == Err(KeyError(key))
    ensures r.Ok? <==> key in data && data[key].VStr?
    ensures r.Ok? ==> data[key] == VStr(r.value)
  {
    if key !in data then Err(KeyError(key))
    else if data[key].VStr? then Ok(data[key].s)
    else Err(TypeError(key))
  }

  /** `data.get(key, default)` where the value must be an int */
  function GetInt(data: Dict, key: string, default: int): (r: Result<int>)
    ensures key !in data ==> r == Ok(default)
    ensures key in data ==> (r.Ok? <==> data[key].VInt?)
    ensures key in data && r.Ok? ==> data[key] == VInt(r.value)
  {
    match Get(data, key, VInt(default))
    case VInt(i) => Ok(i)
    case _ => Err(TypeError(key))
  }

  /** `data.get(key, default)` where the value must be a string */
  function GetStr(data: Dict, key: string, default: string): (r: Result<string>)
    ensures key !in data ==> r == Ok(default)
    ensures key in data ==> (r.Ok? <==> data[key].VStr?)
    ensures key in data && r.Ok? ==> data[key] == VStr(r.value)
  {
    match Get(data, key, VStr(default))
    case VStr(s) => Ok(s)
    case _ => Err(TypeError(key))
  }

  /** `data.get(key, default)` where the value must be a bool */
  function GetBool(data: Dict, key: string, default: bool): (r: Result<bool>)
    ensures key !in data ==> r == Ok(default)
    ensures key in data ==> (r.Ok? <==> data[key].VBool?)
    ensures key in data && r.Ok? ==> data[key] == VBool(r.value)
  {
    match Get(data, key, VBool(default))
    case VBool(b) => Ok(b)
    case _ => Err(TypeError(key))
  }

  /** `data.get(key)` for an optional string: absent or None gives None */
  function GetOptStr(data: Dict, key: string): (r: Result<Option<string>>)
    ensures key !in data ==> r == Ok(None)
    ensures r.Ok? ==> Get(data, key, VNone) == OptStr(r.value)
  {
    match Get(data, key, VNone)
    case VNone => Ok(None)
    case VStr(s) => Ok(Some(s))
    case _ => Err(TypeError(key))
  }

  /** `data.get(key)` for an optional int: absent or None gives None */
  function GetOptInt(data: Dict, key: string): (r: Result<Option<int>>)
    ensures key !in data ==> r == Ok(None)
    ensures r.Ok? ==> Get(data, key, VNone) == OptInt(r.value)
  {
    match Get(data, key, VNone)
    case VNone => Ok(None)
    case VInt(i) => Ok(Some(i))
    case _ => Err(TypeError(key))
  }

  /** How an optional string is serialised */
  function OptStr(o: Option<string>): Value {
    match o
    case None => VNone
    case Some(s) => VStr(s)
  }

  /** How an optional int is serialised */
  function OptInt(o: Option<int>): Value {
    match o
    case None => VNone
    case Some(i) => VInt(i)
  }

  /** The sequence `s` with every occurrence of `x` removed, order kept. */
  function RemoveAll(s: seq<string>, x: string): (r: seq<string>)
    ensures forall y :: y in r <==> y in s && y != x
    ensures |r| <= |s|
  {
    if s == [] then []
    else if s[0] == x then RemoveAll(s[1..], x)
    else [s[0]] + RemoveAll(s[1..], x)
  }

  /** Removing a value that does not occur changes nothing. */
  lemma {:induction false} RemoveAllAbsent(s: seq<string>, x: string)
    requires x !in s
    ensures RemoveAll(s, x) == s
  {
    if s != [] {
      RemoveAllAbsent(s[1..], x);
      assert [s[0]] + s[1..] == s;
    }
  }

  predicate Distinct<K(==)>(s: seq<K>) {
    forall i, j | 0 <= i < j < |s| :: s[i] != s[j]
  }

  lemma {:induction false} RemoveAllDistinct(s: seq<string>, x: string)
    ensures Distinct(s) ==> Distinct(RemoveAll(s, x))
  {
    if s != [] && Distinct(s) {
      var tail := s[1..];
      assert Distinct(tail) by {
        forall i, j | 0 <= i < j < |tail| ensures tail[i] != tail[j] {
          assert tail[i] == s[i + 1] && tail[j] == s[j + 1];
        }
      }
      RemoveAllDistinct(tail, x);
      assert s[0] !in tail by {
        forall j | 0 <= j < |tail| ensures tail[j] != s[0] {
          assert tail[j] == s[j + 1];
        }
      }
      var r := RemoveAll(tail, x);
      if s[0] != x {
        assert RemoveAll(s, x) == [s[0]] + r;
        forall i, j | 0 <= i < j < |[s[0]] + r| ensures ([s[0]] + r)[i] != ([s[0]] + r)[j] {
          if i == 0 {
            assert ([s[0]] + r)[j] == r[j - 1] && r[j - 1] in r;
          } else {
            assert ([s[0]] + r)[i] == r[i - 1] && ([s[0]] + r)[j] == r[j - 1];
          }
        }
      }
    }
  }

  /** A Python `dict` with string keys: a map plus the order in which its keys
      were first inserted. */
  datatype ODict<V> = ODict(keys: seq<string>, entries: map<string, V>) {

    /** Every key listed once, and exactly the keys of the map listed. */
    predicate Valid() {
      && Distinct(keys)
      && (forall k | k in keys :: k in entries)
      && (forall k | k in entries :: k in keys)
    }

    /** `d[k] = v`: a new key goes last, an existing key keeps its place. */
    function Put(k: string, v: V): (d: ODict<V>)
      ensures d.entries == entries[k := v]
      ensures k in entries ==> d.keys == keys
      ensures k !in entries ==> d.keys == keys + [k]
      ensures Valid() ==> d.Valid()
    {
      if k in entries then ODict(keys, entries[k := v])
      else ODict(keys + [k], entries[k := v])
    }

    /** `d.pop(k, None)` on the dictionary; the other keys keep their order. */
    function Pop(k: string): (d: ODict<V>)
      ensures d.entries == entries - {k}
      ensures d.keys == RemoveAll(keys, k)
      ensures Valid() ==> d.Valid()
    {
      RemoveAllDistinct(keys, k);
      ODict(RemoveAll(keys, k), entries - {k})
    }

    /** `d.get(k)` */
    function Get(k: string): (r: Option<V>)
      ensures r.Some? <==> k in entries
      ensures r.Some? ==> r.value == entries[k]
    {
      if k in entries then Some(entries[k]) else None
    }

    /** `list(d.values())`, in insertion order */
    function Values(): (vs: seq<V>)
      requires Valid()
      ensures |vs| == |keys|
      ensures forall i | 0 <= i < |keys| :: vs[i] == entries[keys[i]]
    {
      seq(|keys|, i requires 0 <= i < |keys| => entries[keys[i]])
    }
  }

  function EmptyDict<V>(): (d: ODict<V>)
    ensures d.Valid() && d.keys == [] && d.entries == map[]
  {
    ODict([], map[])
  }

  // ASCII character classes (Python's are Unicode-wide; only ASCII is modelled).

  predicate IsDigit(c: char) { '0' <= c <= '9' }

  predicate IsSpace(c: char) {
    c == ' ' || c == '\t' || c == '\n' || c == '\r' || c == '\U{000B}' || c == '\U{000C}'
    || ('\U{001C}' <= c <= '\U{001F}')
  }

  predicate AllDigits(s: string) { forall i | 0 <= i < |s| :: IsDigit(s[i]) }

  predicate AllSpaces(s: string) { forall i | 0 <= i < |s| :: IsSpace(s[i]) }

  /** One or more decimal digits. */
  predicate IsNumeral(s: string) {
    |s| > 0 && AllDigits(s)
  }

  function Abs(x: int): nat { if x < 0 then -x else x }

  /** `str.lower()` restricted to ASCII letters */
  function LowerChar(c: char): (l: char)
    ensures 'A' <= c <= 'Z' ==> l as int == c as int + 32
    ensures !('A' <= c <= 'Z') ==> l == c
  {
    if 'A' <= c <= 'Z' then (c as int + 32) as char else c
  }

  function Lower(s: string): (l: string)
    ensures |l| == |s|
    ensures forall i | 0 <= i < |s| :: l[i] == LowerChar(s[i])
  {
    seq(|s|, i requires 0 <= i < |s| => LowerChar(s[i]))
  }

  /** The number a string of decimal digits denotes (`int()` on digits). */
  function DigitsValue(s: string): (n: nat)
    requires AllDigits(s)
  {
    if s == [] then 0
    else DigitsValue(s[..|s| - 1]) * 10 + (s[|s| - 1] as int - '0' as int)
  }

  /** The decimal digits of `n`, without leading zeros (`str(n)`). */
  function NatToString(n: nat): (s: string)
    ensures |s| > 0 && AllDigits(s)
    decreases n
  {
    if n < 10 then [('0' as int + n) as char]
    else NatToString(n / 10) + [('0' as int + n % 10) as char]
  }

  lemma {:induction false} NatToStringValue(n: nat)
    ensures DigitsValue(NatToString(n)) == n
    decreases n
  {
    var s := NatToString(n);
    if n < 10 {
      assert s[..|s| - 1] == [];
    } else {
      NatToStringValue(n / 10);
      assert s[..|s| - 1] == NatToString(n / 10);
    }
  }

  /** `str.strip()`: leading and trailing whitespace removed. */
  function Strip(s: string): (t: string)
    ensures |t| <= |s|
  {
    StripRight(StripLeft(s))
  }

  function StripLeft(s: string): (t: string)
    ensures |t| <= |s|
    ensures t == [] || !IsSpace(t[0])
  {
    if s == [] then s
    else if IsSpace(s[0]) then StripLeft(s[1..])
    else s
  }

  function StripRight(s: string): (t: string)
    ensures |t| <= |s|
    ensures t == [] || !IsSpace(t[|t| - 1])
  {
    if s == [] then s
    else if IsSpace(s[|s| - 1]) then StripRight(s[..|s| - 1])
    else s
  }

  /** Stripping a string that already starts and ends with a non-space,
      surrounded by whitespace, gives back that string. */
  lemma {:induction false} StripSurrounded(lead: string, core: string, trail: string)
    requires AllSpaces(lead) && AllSpaces(trail)
    requires |core| > 0 && !IsSpace(core[0]) && !IsSpace(core[|core| - 1])
    ensures Strip(lead + core + trail) == core
  {
    StripLeftSpaces(lead, core + trail);
    assert lead + core + trail == lead + (core + trail);
    StripRightSpaces(core, trail);
  }

  /** A string with no whitespace at either end is its own strip. */
  lemma StripUnchanged(t: string)
    requires |t| > 0 && !IsSpace(t[0]) && !IsSpace(t[|t| - 1])
    ensures Strip(t) == t
  {
    StripSurrounded("", t, "");
    assert "" + t + "" == t;
  }

  lemma {:induction false} StripLeftSpaces(lead: string, rest: string)
    requires AllSpaces(lead)
    requires |rest| > 0 && !IsSpace(rest[0])
    ensures StripLeft(lead + rest) == rest
    decreases |lead|
  {
    if lead == [] {
      assert lead + rest == rest;
    } else {
      assert (lead + rest)[1..] == lead[1..] + rest;
      StripLeftSpaces(lead[1..], rest);
    }
  }

  lemma {:induction false} StripRightSpaces(core: string, trail: string)
    requires AllSpaces(trail)
    requires |core| > 0 && !IsSpace(core[|core| - 1])
    ensures StripRight(core + trail) == core
    decreases |trail|
  {
    if trail == [] {
      assert core + trail == core;
    } else {
      var s := core + trail;
      assert s[..|s| - 1] == core + trail[..|trail| - 1];
      StripRightSpaces(core, trail[..|trail| - 1]);
    }
  }
}
