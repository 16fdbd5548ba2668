/** Shared vocabulary of the model: optional values, JavaScript values as the application
    sees them after `JSON.parse`, plain objects as ordered key/value lists (JavaScript keeps
    string keys in insertion order), `String.prototype.trim`, and the decimal rendering of
    integers that `String(n)` and template literals produce. */
module Common {

  datatype Option<T> = None | Some(value: T)

  /** A JavaScript string as the code sees it through `length`, `charCodeAt` and `trim`:
      a sequence of UTF-16 code units. */
  type CodeUnits = seq<bv16>

  /** The code units that `String.prototype.trim` removes at either end: the WhiteSpace and
      LineTerminator code points of ECMA-262 (all of them lie in the Basic Multilingual Plane). */
  predicate IsTrimmable(c: bv16) {
    c == 0x09 || c == 0x0A || c == 0x0B || c == 0x0C || c == 0x0D || c == 0x20 ||
    c == 0xA0 || c == 0x1680 || (0x2000 <= c && c <= 0x200A) || c == 0x2028 ||
    c == 0x2029 || c == 0x202F || c == 0x205F || c == 0x3000 || c == 0xFEFF
  }

  function TrimStart(s: CodeUnits): (r: CodeUnits)
    ensures |r| <= |s| && r == s[|s| - |r|..]
    ensures r != [] ==> !IsTrimmable(r[0])
    ensures forall i :: 0 <= i < |s| - |r| ==> IsTrimmable(s[i])
  {
    if s != [] && IsTrimmable(s[0]) then TrimStart(s[1..]) else s
  }

  function TrimEnd(s: CodeUnits): (r: CodeUnits)
    ensures |r| <= |s| && r == s[..|r|]
    ensures r != [] ==> !IsTrimmable(r[|r| - 1])
    ensures forall i :: |r| <= i < |s| ==> IsTrimmable(s[i])
  {
    if s != [] && IsTrimmable(s[|s| - 1]) then TrimEnd(s[..|s| - 1]) else s
  }

  /** `r` is the factor of `s` at offset `a`, and everything of `s` before and after that
      factor is white space. */
  predicate TrimmedAt(s: CodeUnits, r: CodeUnits, a: int) {
    0 <= a && a + |r| <= |s| && r == s[a..a + |r|] &&
    (forall i :: 0 <= i < a ==> IsTrimmable(s[i])) &&
    (forall i :: a + |r| <= i < |s| ==> IsTrimmable(s[i]))
  }

  /** `s.trim()`: what is left of `s` once the white space at both ends is removed, which
      neither starts nor ends with white space. */
  function Trim(s: CodeUnits): (r: CodeUnits)
    ensures |r| <= |s|
    ensures r != [] ==> !IsTrimmable(r[0]) && !IsTrimmable(r[|r| - 1])
    ensures exists a :: TrimmedAt(s, r, a)
  {
    var t := TrimStart(s);
    var r := TrimEnd(t);
    TrimmedFactor(s, t, r);
    r
  }

  /** Trimming the start and then the end of what is left leaves a factor of `s` with only
      white space around it. */
  lemma TrimmedFactor(s: CodeUnits, t: CodeUnits, r: CodeUnits)
    requires |t| <= |s| && t == s[|s| - |t|..]
    requires forall i :: 0 <= i < |s| - |t| ==> IsTrimmable(s[i])
    requires |r| <= |t| && r == t[..|r|]
    requires forall i :: |r| <= i < |t| ==> IsTrimmable(t[i])
    ensures TrimmedAt(s, r, |s| - |t|)
    ensures exists a :: TrimmedAt(s, r, a)
  {
    var a := |s| - |t|;
    assert r == s[a..a + |r|];
    forall i | a + |r| <= i < |s|
      ensures IsTrimmable(s[i])
    {
      assert s[i] == t[i - a];
    }
  }

  /** A string trims to nothing exactly when every code unit of it is white space. */
  lemma TrimEmptyIff(s: CodeUnits)
    ensures Trim(s) == [] <==> forall i :: 0 <= i < |s| ==> IsTrimmable(s[i])
  {
    var t := TrimStart(s);
    if Trim(s) != [] {
      var r := Trim(s);
      assert r[0] == t[0];
      assert t[0] == s[|s| - |t|];
    }
  }

  /** A value as JavaScript code sees it after `response.json()`, plus `undefined`.
      Objects keep their keys in insertion order. Numbers are the integral ones. */
  datatype Js =
    | Undefined
    | Null
    | Bool(b: bool)
    | Num(n: int)
    | Str(s: string)
    | Arr(items: seq<Js>)
    | Obj(fields: seq<(string, Js)>)

  /** JavaScript truthiness (`if (v)`, `v || w`, `!v`). */
  predicate Truthy(v: Js) {
    match v
    case Undefined => false
    case Null => false
    case Bool(b) => b
    case Num(n) => n != 0
    case Str(s) => s != ""
    case Arr(_) => true
    case Obj(_) => true
  }

  /** `a || b`. */
  function Or(a: Js, b: Js): Js {
    if Truthy(a) then a else b
  }

  /** The keys of an ordered object. */
  function Keys<V>(o: seq<(string, V)>): (ks: seq<string>)
    ensures |ks| == |o|
    ensures forall i :: 0 <= i < |o| ==> ks[i] == o[i].0
  {
    if o == [] then [] else [o[0].0] + Keys(o[1..])
  }

  /** No key occurs twice, as in every JavaScript object. */
  predicate UniqueKeys<V>(o: seq<(string, V)>) {
    forall i, j :: 0 <= i < j < |o| ==> o[i].0 != o[j].0
  }

  /** `o[k]` when the key is present. */
  function Lookup<V>(o: seq<(string, V)>, k: string): (r: Option<V>)
    ensures r.None? <==> forall i :: 0 <= i < |o| ==> o[i].0 != k
    ensures r.Some? ==> exists i :: 0 <= i < |o| && o[i] == (k, r.value)
  {
    if o == [] then None
    else if o[0].0 == k then Some(o[0].1)
    else Lookup(o[1..], k)
  }

  /** A key looks something up exactly when it is one of the object's keys. */
  lemma LookupPresent<V>(o: seq<(string, V)>, k: string)
    ensures Lookup(o, k).Some? <==> k in Keys(o)
  {
    var ks := Keys(o);
    if k in ks {
      var i :| 0 <= i < |ks| && ks[i] == k;
      assert o[i].0 == k;
    }
  }

  /** In an object with distinct keys, the key of an entry looks up that entry's value. */
  lemma LookupAt<V>(o: seq<(string, V)>, i: int)
    requires UniqueKeys(o) && 0 <= i < |o|
    ensures Lookup(o, o[i].0) == Some(o[i].1)
  {
  }

  /** The entries of `{ ...o, [k]: v }`, entry by entry: an existing key keeps its position
      and takes the new value; a new key is appended at the end. */
  function Put<V>(o: seq<(string, V)>, k: string, v: V): seq<(string, V)>
    decreases |o|
  {
    if o == [] then [(k, v)]
    else if o[0].0 == k then [(k, v)] + o[1..]
    else [o[0]] + Put(o[1..], k, v)
  }

  /** The lookups of an object whose first entry is `x`. */
  lemma LookupCons<V>(x: (string, V), rest: seq<(string, V)>, k: string)
    ensures Lookup([x] + rest, k) == if x.0 == k then Some(x.1) else Lookup(rest, k)
  {
    assert ([x] + rest)[1..] == rest;
  }

  /** The keys of an object whose first entry is `x`. */
  lemma KeysCons<V>(x: (string, V), rest: seq<(string, V)>)
    ensures Keys([x] + rest) == [x.0] + Keys(rest)
  {
    assert ([x] + rest)[1..] == rest;
  }

  lemma {:induction false} PutLookupAt<V>(o: seq<(string, V)>, k: string, v: V, k': string)
    ensures Lookup(Put(o, k, v), k') == if k' == k then Some(v) else Lookup(o, k')
    decreases |o|
  {
    if o != [] {
      LookupCons(o[0], o[1..], k');
      assert [o[0]] + o[1..] == o;
      if o[0].0 == k {
        LookupCons((k, v), o[1..], k');
      } else {
        PutLookupAt(o[1..], k, v, k');
        LookupCons(o[0], Put(o[1..], k, v), k');
      }
    }
  }

  lemma PutLookup<V>(o: seq<(string, V)>, k: string, v: V)
    ensures forall k' :: Lookup(Put(o, k, v), k') == if k' == k then Some(v) else Lookup(o, k')
  {
    forall k' {
      PutLookupAt(o, k, v, k');
    }
  }

  lemma {:induction false} PutKeys<V>(o: seq<(string, V)>, k: string, v: V)
    ensures Lookup(o, k).Some? ==> Keys(Put(o, k, v)) == Keys(o)
    ensures Lookup(o, k).None? ==> Keys(Put(o, k, v)) == Keys(o) + [k]
    decreases |o|
  {
    if o != [] {
      KeysCons(o[0], o[1..]);
      LookupCons(o[0], o[1..], k);
      assert [o[0]] + o[1..] == o;
      if o[0].0 == k {
        KeysCons((k, v), o[1..]);
      } else {
        PutKeys(o[1..], k, v);
        KeysCons(o[0], Put(o[1..], k, v));
      }
    }
  }

  /** `{ ...o, [k]: v }`: `k` maps to `v`, every other key keeps its value, an existing key
      keeps its position and a new key is appended at the end. */
  function Assign<V>(o: seq<(string, V)>, k: string, v: V): (r: seq<(string, V)>)
    ensures Lookup(r, k) == Some(v)
    ensures forall k' :: k' != k ==> Lookup(r, k') == Lookup(o, k')
    ensures Lookup(o, k).Some? ==> Keys(r) == Keys(o)
    ensures Lookup(o, k).None? ==> Keys(r) == Keys(o) + [k]
  {
    PutLookup(o, k, v);
    PutKeys(o, k, v);
    Put(o, k, v)
  }

  /** Assigning a key keeps the keys of an object distinct. */
  lemma AssignKeepsUnique<V>(o: seq<(string, V)>, k: string, v: V)
    requires UniqueKeys(o)
    ensures UniqueKeys(Assign(o, k, v))
  {
    var r := Assign(o, k, v);
    var ks := Keys(r);
    forall i, j | 0 <= i < j < |r|
      ensures r[i].0 != r[j].0
    {
      assert ks[i] == r[i].0 && ks[j] == r[j].0;
      if Lookup(o, k).Some? {
        assert Keys(o)[i] == o[i].0 && Keys(o)[j] == o[j].0;
      } else if j < |o| {
        assert Keys(o)[i] == o[i].0 && Keys(o)[j] == o[j].0;
      } else {
        assert ks[j] == k && Keys(o)[i] == o[i].0;
      }
    }
  }

  /** Assigning a key the value it already has gives back the same object. */
  lemma {:induction false} AssignSameValue<V>(o: seq<(string, V)>, k: string)
    requires Lookup(o, k).Some?
    ensures Assign(o, k, Lookup(o, k).value) == o
  {
    if o[0].0 != k {
      AssignSameValue(o[1..], k);
      assert [o[0]] + o[1..] == o;
    } else {
      assert [(k, o[0].1)] + o[1..] == o;
    }
  }

  /** Assigning a key the object does not have appends the entry at the end. */
  lemma AssignAppends<V>(o: seq<(string, V)>, k: string, v: V)
    requires Lookup(o, k).None?
    ensures Assign(o, k, v) == o + [(k, v)]
  {
    AppendsWhenAbsent(o, k, v);
  }

  /** `AssignAppends`, with the absence of the key stated entry by entry. */
  lemma {:induction false} AppendsWhenAbsent<V>(o: seq<(string, V)>, k: string, v: V)
    requires forall i :: 0 <= i < |o| ==> o[i].0 != k
    ensures Assign(o, k, v) == o + [(k, v)]
  {
    if o != [] {
      AppendsWhenAbsent(o[1..], k, v);
      assert [o[0]] + (o[1..] + [(k, v)]) == o + [(k, v)];
    }
  }

  /** `{ ...o, ...p }`: the entries of `p`, in order, assigned over those of `o`. */
  function Spread<V>(o: seq<(string, V)>, p: seq<(string, V)>): seq<(string, V)>
    decreases |p|
  {
    if p == [] then o else Spread(Assign(o, p[0].0, p[0].1), p[1..])
  }

  /** A key `p` lacks keeps its value from `o`; a key of `p` wins over the same key of `o`
      when the keys of `p` are distinct. */
  lemma {:induction false} SpreadLookup<V>(o: seq<(string, V)>, p: seq<(string, V)>, k: string)
    ensures Lookup(p, k).None? ==> Lookup(Spread(o, p), k) == Lookup(o, k)
    ensures UniqueKeys(p) && Lookup(p, k).Some? ==> Lookup(Spread(o, p), k) == Lookup(p, k)
    decreases |p|
  {
    if p != [] {
      var a := Assign(o, p[0].0, p[0].1);
      SpreadLookup(a, p[1..], k);
      if UniqueKeys(p) && k == p[0].0 {
        assert Lookup(p[1..], k).None?;
      }
    }
  }

  /** No key of `o` is a key of `p`. */
  predicate KeysDisjoint<V>(o: seq<(string, V)>, p: seq<(string, V)>) {
    forall i, j :: 0 <= i < |o| && 0 <= j < |p| ==> o[i].0 != p[j].0
  }

  /** Moving the first entry of `p` to the end of `o` keeps the two disjoint. */
  lemma DisjointAfterFirst<V>(o: seq<(string, V)>, p: seq<(string, V)>)
    requires p != [] && UniqueKeys(p) && KeysDisjoint(o, p)
    ensures UniqueKeys(p[1..]) && KeysDisjoint(o + [p[0]], p[1..])
  {
    var a := o + [p[0]];
    forall i, j | 0 <= i < |a| && 0 <= j < |p[1..]|
      ensures a[i].0 != p[1..][j].0
    {
      assert p[1..][j] == p[j + 1];
    }
  }

  /** `o` and `p` are disjoint when `o` has none of the keys of `p`. */
  lemma DisjointWhenAbsent<V>(o: seq<(string, V)>, p: seq<(string, V)>)
    requires forall j :: 0 <= j < |p| ==> Lookup(o, p[j].0).None?
    ensures KeysDisjoint(o, p)
  {
  }

  /** The first step of a spread appends the first entry when `o` lacks its key. */
  lemma SpreadStepAppends<V>(o: seq<(string, V)>, p: seq<(string, V)>)
    requires p != [] && UniqueKeys(p) && KeysDisjoint(o, p)
    ensures Spread(o, p) == Spread(o + [p[0]], p[1..])
  {
    AppendsWhenAbsent(o, p[0].0, p[0].1);
  }

  /** Spreading entries with distinct keys, none of which `o` has, appends them in order. */
  lemma {:induction false} SpreadAppends<V>(o: seq<(string, V)>, p: seq<(string, V)>)
    requires UniqueKeys(p) && KeysDisjoint(o, p)
    ensures Spread(o, p) == o + p
    decreases |p|
  {
    if p != [] {
      var moved := o + [p[0]];
      SpreadStepAppends(o, p);
      DisjointAfterFirst(o, p);
      SpreadAppends(moved, p[1..]);
      MoveFirst(o, p);
    }
  }

  /** Moving the first entry of `p` to the end of `o` keeps the concatenation. */
  lemma MoveFirst<V>(o: seq<(string, V)>, p: seq<(string, V)>)
    requires p != []
    ensures (o + [p[0]]) + p[1..] == o + p
  {
  }

  /** `delete o[k]`: the key is gone and every other key keeps its value. */
  function Remove<V>(o: seq<(string, V)>, k: string): (r: seq<(string, V)>)
    ensures Lookup(r, k).None?
    ensures forall k' :: k' != k ==> Lookup(r, k') == Lookup(o, k')
  {
    if o == [] then []
    else if o[0].0 == k then Remove(o[1..], k)
    else [o[0]] + Remove(o[1..], k)
  }

  /** `obj.key`: `None` stands for the TypeError that reading a property of `undefined` or
      `null` throws. Primitives and arrays have none of the keys the application reads. */
  function Member(v: Js, key: string): (r: Option<Js>)
    ensures r.None? <==> v.Undefined? || v.Null?
    ensures v.Obj? ==> r == Some(match Lookup(v.fields, key) case Some(x) => x case None => Undefined)
  {
    match v
    case Undefined => None
    case Null => None
    case Obj(fields) => Some(match Lookup(fields, key) case Some(x) => x case None => Undefined)
    case _ => Some(Undefined)
  }

  /** `obj?.key`. */
  function OptMember(v: Js, key: string): Js {
    match Member(v, key)
    case None => Undefined
    case Some(x) => x
  }

  predicate IsDigit(c: char) {
    '0' <= c <= '9'
  }

  /** The decimal numeral of a natural number, as `String(n)` writes it. */
  function NatToString(n: nat): (s: string)
    ensures s != []
    ensures forall i :: 0 <= i < |s| ==> IsDigit(s[i])
    ensures s[0] == '0' ==> n == 0 && s == "0"
  {
    var d := [['0', '1', '2', '3', '4', '5', '6', '7', '8', '9'][n % 10]];
    if n < 10 then d else NatToString(n / 10) + d
  }

  /** `String(i)` for an integer. */
  function IntToString(i: int): string {
    if i < 0 then "-" + NatToString(-i) else NatToString(i)
  }

  /** `String(v)`, the text `new Error(v)`, `value.toString()` and template literals produce
      (for an object, the text of `Object.prototype.toString`). */
  function ToText(v: Js): string
    decreases v, 1
  {
    match v
    case Undefined => "undefined"
    case Null => "null"
    case Bool(b) => if b then "true" else "false"
    case Num(n) => IntToString(n)
    case Str(s) => s
    case Arr(items) => JoinItems(v, items)
    case Obj(_) => "[object Object]"
  }

  /** `Array.prototype.join(',')`: `undefined` and `null` elements give the empty text. */
  function JoinItems(parent: Js, items: seq<Js>): string
    requires parent.Arr? && forall i :: 0 <= i < |items| ==> items[i] < parent
    decreases parent, 0, |items|
  {
    if items == [] then ""
    else
      var head := if items[0].Undefined? || items[0].Null? then "" else ToText(items[0]);
      if |items| == 1 then head else head + "," + JoinItems(parent, items[1..])
  }

  predicate StartsWith(s: string, prefix: string) {
    |prefix| <= |s| && s[..|prefix|] == prefix
  }
}
