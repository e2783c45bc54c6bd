/** The parts of JavaScript's value, string and collection semantics that the
    modelled TypeScript code relies on: truthiness, `trim`, `toLowerCase`,
    `split`, the two extension-stripping regular expressions, plain objects
    (string-keyed records kept in insertion order) and `new Map(entries)`. */
module Js {
  import opened Wrappers

  /** A JavaScript value, as far as the modelled code inspects it. Objects,
      arrays and functions are all `Obj`: the code only tests their truthiness. */
  datatype JsValue =
    | Undefined
    | Null
    | Bool(b: bool)
    | Num(n: real)
    | NaN
    | BigInt(i: int)
    | Str(s: string)
    | Obj

  /** `!!v`: the falsy values are undefined, null, false, 0, NaN, 0n and "". */
  predicate Truthy(v: JsValue) {
    match v
    case Undefined => false
    case Null => false
    case Bool(b) => b
    case Num(n) => n != 0.0
    case NaN => false
    case BigInt(i) => i != 0
    case Str(s) => s != ""
    case Obj => true
  }

  /** Truthiness of a `string | null | undefined` held as an option. */
  predicate TruthyStr(o: Option<string>) {
    o.Some? && o.value != ""
  }

  // ---------------------------------------------------------------------------
  // Characters and strings

  /** The white space and line terminators that `String.prototype.trim` removes. */
  predicate IsWhitespace(c: char) {
    c == '\t' || c == '\n' || c == '\U{000B}' || c == '\U{000C}' || c == '\r' || c == ' '
    || c == '\U{00A0}' || c == '\U{1680}' || ('\U{2000}' <= c <= '\U{200A}')
    || c == '\U{2028}' || c == '\U{2029}' || c == '\U{202F}' || c == '\U{205F}'
    || c == '\U{3000}' || c == '\U{FEFF}'
  }

  /** Characters that the regular-expression `.` does not match. */
  predicate IsLineTerminator(c: char) {
    c == '\n' || c == '\r' || c == '\U{2028}' || c == '\U{2029}'
  }

  /** The regular-expression class `\w`: `[A-Za-z0-9_]`. */
  predicate IsWordChar(c: char) {
    ('a' <= c <= 'z') || ('A' <= c <= 'Z') || ('0' <= c <= '9') || c == '_'
  }

  function TrimStart(s: string): (r: string)
    ensures |r| <= |s| && r == s[|s| - |r|..]
    ensures r == [] || !IsWhitespace(r[0])
    ensures forall i :: 0 <= i < |s| - |r| ==> IsWhitespace(s[i])
  {
    if s != [] && IsWhitespace(s[0]) then TrimStart(s[1..]) else s
  }

  function TrimEnd(s: string): (r: string)
    ensures |r| <= |s| && r == s[..|r|]
    ensures r == [] || !IsWhitespace(r[|r| - 1])
    ensures forall i :: |r| <= i < |s| ==> IsWhitespace(s[i])
  {
    if s != [] && IsWhitespace(s[|s| - 1]) then TrimEnd(s[..|s| - 1]) else s
  }

  /** `s.trim()`. */
  function Trim(s: string): (r: string)
    ensures r == [] || (!IsWhitespace(r[0]) && !IsWhitespace(r[|r| - 1]))
  {
    TrimEnd(TrimStart(s))
  }

  function LowerChar(c: char): char {
    if 'A' <= c <= 'Z' then (c as int + 32) as char else c
  }

  /** `s.toLowerCase()` restricted to ASCII letters (see README). */
  function ToLower(s: string): (r: string)
    ensures |r| == |s| && forall i :: 0 <= i < |s| ==> r[i] == LowerChar(s[i])
  {
    if s == [] then [] else [LowerChar(s[0])] + ToLower(s[1..])
  }

  /** Joins pieces with a one-character separator (`parts.join(sep)`). */
  function Join(parts: seq<string>, sep: char): string
    requires parts != []
  {
    if |parts| == 1 then parts[0] else parts[0] + [sep] + Join(parts[1..], sep)
  }

  /** `s.split(sep)` for a one-character separator. */
  function Split(s: string, sep: char): (parts: seq<string>)
    ensures parts != [] && Join(parts, sep) == s
    ensures forall i :: 0 <= i < |parts| ==> sep !in parts[i]
  {
    if s == [] then [""]
    else if s[0] == sep then
      var rest := Split(s[1..], sep);
      [""] + rest
    else
      var rest := Split(s[1..], sep);
      assert Join(rest, sep) == s[1..];
      var parts := [[s[0]] + rest[0]] + rest[1..];
      assert |parts| == 1 ==> Join(parts, sep) == [s[0]] + rest[0];
      assert |parts| > 1 ==> parts[1..] == rest[1..];
      parts
  }

  /** `Split` undoes `Join` when no part holds the separator. */
  lemma {:induction false} SplitJoin(parts: seq<string>, sep: char)
    requires parts != [] && forall i :: 0 <= i < |parts| ==> sep !in parts[i]
    ensures Split(Join(parts, sep), sep) == parts
    decreases |Join(parts, sep)|
  {
    var s := Join(parts, sep);
    var r := Split(s, sep);
    if |parts| > 1 {
      SplitJoin(parts[1..], sep);
    }
    SplitUnique(s, sep, parts, r);
  }

  /** `Split` has only one possible result. */
  lemma {:induction false} SplitUnique(s: string, sep: char, a: seq<string>, b: seq<string>)
    requires a != [] && b != [] && Join(a, sep) == s && Join(b, sep) == s
    requires forall i :: 0 <= i < |a| ==> sep !in a[i]
    requires forall i :: 0 <= i < |b| ==> sep !in b[i]
    ensures a == b
    decreases |s|
  {
    if |a| == 1 && |b| == 1 {
    } else if |a| == 1 {
      assert false;
    } else if |b| == 1 {
      assert false;
    } else {
      FirstPieces(s, sep, a[0], b[0], Join(a[1..], sep), Join(b[1..], sep));
      SplitUnique(Join(a[1..], sep), sep, a[1..], b[1..]);
      assert a == [a[0]] + a[1..] && b == [b[0]] + b[1..];
    }
  }

  /** The index of the first `sep` in `s`, or `|s|`. */
  function IndexOf(s: string, sep: char): (n: nat)
    ensures n <= |s|
  {
    if s == [] || s[0] == sep then 0 else 1 + IndexOf(s[1..], sep)
  }

  /** A separator-free piece followed by the separator ends at the first
      separator. */
  lemma {:induction false} PieceEnd(s: string, sep: char, x: string, xs: string)
    requires s == x + [sep] + xs && sep !in x
    ensures IndexOf(s, sep) == |x|
  {
    if x != [] {
      assert s[0] == x[0] && s[1..] == x[1..] + [sep] + xs;
      PieceEnd(s[1..], sep, x[1..], xs);
    }
  }

  /** Two ways of writing a text as a separator-free piece, the separator and
      a rest agree on the piece. */
  lemma FirstPieces(s: string, sep: char, x: string, y: string, xs: string, ys: string)
    requires s == x + [sep] + xs && s == y + [sep] + ys && sep !in x && sep !in y
    ensures x == y && xs == ys
  {
    PieceEnd(s, sep, x, xs);
    PieceEnd(s, sep, y, ys);
    assert x == s[..|x|] == y;
    assert xs == s[|x| + 1..] == ys;
  }

  /** `s.split(/[\\/]/g).pop()`: the text after the last slash or backslash. */
  function BaseName(s: string): (r: string)
    ensures |r| <= |s| && r == s[|s| - |r|..]
    ensures '/' !in r && '\\' !in r
    ensures |r| < |s| ==> s[|s| - |r| - 1] in {'/', '\\'}
  {
    if s == [] then []
    else if s[|s| - 1] in {'/', '\\'} then []
    else BaseName(s[..|s| - 1]) + [s[|s| - 1]]
  }

  /** `s.replace(/\.[^.]*$/, '')`: drops the last `.` and what follows it. */
  function StripLastExtension(s: string): (r: string)
    ensures '.' in s ==> |r| < |s| && r == s[..|r|] && s[|r|] == '.' && '.' !in s[|r| + 1..]
    ensures '.' !in s ==> r == s
  {
    if s == [] then []
    else if s[|s| - 1] == '.' then s[..|s| - 1]
    else
      var r := StripLastExtension(s[..|s| - 1]);
      assert s == s[..|s| - 1] + [s[|s| - 1]];
      if '.' in s[..|s| - 1] then
        assert s[|r| + 1..] == s[..|s| - 1][|r| + 1..] + [s[|s| - 1]];
        r
      else s
  }

  /** `s.replace(/\..*$/, '')`: the leftmost `.` that is followed by no line
      terminator is dropped with everything after it. */
  function StripFromFirstDot(s: string): (r: string)
    ensures |r| <= |s| && r == s[..|r|]
    ensures |r| < |s| ==> s[|r|] == '.' && forall j :: |r| < j < |s| ==> !IsLineTerminator(s[j])
    ensures forall i :: 0 <= i < |r| && s[i] == '.' ==> exists j :: i < j < |s| && IsLineTerminator(s[j])
  {
    if s == [] then []
    else if s[0] == '.' && forall j :: 0 < j < |s| ==> !IsLineTerminator(s[j]) then []
    else
      var r := StripFromFirstDot(s[1..]);
      var res := [s[0]] + r;
      assert forall i :: 1 <= i < |res| && s[i] == '.' ==> s[1..][i - 1] == '.';
      res
  }

  // ---------------------------------------------------------------------------
  // Sequences

  function Flatten<T(!new)>(ss: seq<seq<T>>): (r: seq<T>)
    ensures forall x :: x in r <==> exists i :: 0 <= i < |ss| && x in ss[i]
  {
    if ss == [] then [] else Flatten(ss[..|ss| - 1]) + ss[|ss| - 1]
  }

  /** `xs.flatMap(f)`. */
  function FlatMap<A, B>(xs: seq<A>, f: A -> seq<B>): seq<B> {
    if xs == [] then [] else FlatMap(xs[..|xs| - 1], f) + f(xs[|xs| - 1])
  }

  /** An element of `xs.flatMap(f)` is an element of some `f(x)`, and back. */
  lemma {:induction false} FlatMapMember<A, B>(xs: seq<A>, f: A -> seq<B>, y: B)
    ensures y in FlatMap(xs, f) <==> exists x :: x in xs && y in f(x)
  {
    if xs != [] {
      var init := xs[..|xs| - 1];
      FlatMapMember(init, f, y);
      assert forall x :: x in init ==> x in xs;
      if y in f(xs[|xs| - 1]) {
        assert xs[|xs| - 1] in xs;
      } else if exists x :: x in xs && y in f(x) {
        var x :| x in xs && y in f(x);
        var i :| 0 <= i < |xs| && xs[i] == x;
        assert i < |xs| - 1 && init[i] == x;
      }
    }
  }

  /** `s.slice(-k)`: the last `k` elements, or all of them when there are fewer. */
  function Last<T>(s: seq<T>, k: nat): (r: seq<T>)
    ensures |r| == if |s| < k then |s| else k
    ensures r == s[|s| - |r|..]
  {
    if |s| < k then s else s[|s| - k..]
  }

  // ---------------------------------------------------------------------------
  // Plain objects: string-keyed records in insertion order

  function Get<V>(m: seq<(string, V)>, k: string): (r: Option<V>)
    ensures r.Some? <==> exists i :: 0 <= i < |m| && m[i].0 == k
  {
    if m == [] then None else if m[0].0 == k then Some(m[0].1) else Get(m[1..], k)
  }

  /** `obj[k] = v`: an existing key keeps its place, a new key is appended. */
  function Put<V>(m: seq<(string, V)>, k: string, v: V): (r: seq<(string, V)>)
    ensures Get(r, k) == Some(v)
    ensures forall k' :: k' != k ==> Get(r, k') == Get(m, k')
    ensures Keys(r) == if Get(m, k).Some? then Keys(m) else Keys(m) + [k]
  {
    if m == [] then [(k, v)]
    else if m[0].0 == k then
      PutHead(m, k, v);
      [(k, v)] + m[1..]
    else
      var rest := Put(m[1..], k, v);
      PutStep(m, k, v, rest);
      [m[0]] + rest
  }

  lemma PutHead<V>(m: seq<(string, V)>, k: string, v: V)
    requires m != [] && m[0].0 == k
    ensures Get([(k, v)] + m[1..], k) == Some(v)
    ensures forall k' :: k' != k ==> Get([(k, v)] + m[1..], k') == Get(m, k')
    ensures Keys([(k, v)] + m[1..]) == Keys(m) && Get(m, k).Some?
  {
    var r := [(k, v)] + m[1..];
    assert r[1..] == m[1..];
    forall k' | k' != k
      ensures Get(r, k') == Get(m, k')
    {
    }
  }

  lemma PutStep<V>(m: seq<(string, V)>, k: string, v: V, rest: seq<(string, V)>)
    requires m != [] && m[0].0 != k
    requires Get(rest, k) == Some(v)
    requires forall k' :: k' != k ==> Get(rest, k') == Get(m[1..], k')
    requires Keys(rest) == if Get(m[1..], k).Some? then Keys(m[1..]) else Keys(m[1..]) + [k]
    ensures Get([m[0]] + rest, k) == Some(v)
    ensures forall k' :: k' != k ==> Get([m[0]] + rest, k') == Get(m, k')
    ensures Keys([m[0]] + rest) == if Get(m, k).Some? then Keys(m) else Keys(m) + [k]
  {
    var r := [m[0]] + rest;
    assert r[0] == m[0] && r[1..] == rest;
    assert Keys(r) == [m[0].0] + Keys(rest);
    assert Keys(m) == [m[0].0] + Keys(m[1..]);
    forall k' | k' != k
      ensures Get(r, k') == Get(m, k')
    {
    }
  }

  function Keys<V>(m: seq<(string, V)>): (r: seq<string>)
    ensures |r| == |m| && forall i :: 0 <= i < |m| ==> r[i] == m[i].0
  {
    if m == [] then [] else [m[0].0] + Keys(m[1..])
  }

  function Values<V>(m: seq<(string, V)>): (r: seq<V>)
    ensures |r| == |m| && forall i :: 0 <= i < |m| ==> r[i] == m[i].1
  {
    if m == [] then [] else [m[0].1] + Values(m[1..])
  }

  /** `new Map(entries)` and `Object.fromEntries(entries)`: a later entry for a
      key overwrites an earlier one. */
  function MapFromEntries<K, V>(es: seq<(K, V)>): (m: map<K, V>)
    ensures m.Keys == set i | 0 <= i < |es| :: es[i].0
    ensures forall i :: 0 <= i < |es| && LastWithKey(es, i) ==> m[es[i].0] == es[i].1
    ensures forall k :: k in m ==> (k, m[k]) in es
  {
    if es == [] then map[]
    else
      var m := MapFromEntries(es[..|es| - 1]);
      MapSnocKeys(es, m);
      MapSnocLast(es, m);
      MapSnocMember(es, m, m[es[|es| - 1].0 := es[|es| - 1].1]);
      m[es[|es| - 1].0 := es[|es| - 1].1]
  }

  lemma MapSnocKeys<K, V>(es: seq<(K, V)>, m: map<K, V>)
    requires es != [] && m.Keys == set i | 0 <= i < |es| - 1 :: es[i].0
    ensures m[es[|es| - 1].0 := es[|es| - 1].1].Keys == set i | 0 <= i < |es| :: es[i].0
  {
    var m' := m[es[|es| - 1].0 := es[|es| - 1].1];
    forall k | k in m'
      ensures k in set i | 0 <= i < |es| :: es[i].0
    {
      if k != es[|es| - 1].0 {
        var i :| 0 <= i < |es| - 1 && es[i].0 == k;
      }
    }
  }

  lemma MapSnocLast<K, V>(es: seq<(K, V)>, m: map<K, V>)
    requires es != [] && m.Keys == set i | 0 <= i < |es| - 1 :: es[i].0
    requires forall i :: 0 <= i < |es| - 1 && LastWithKey(es[..|es| - 1], i) ==> m[es[i].0] == es[i].1
    ensures forall i :: 0 <= i < |es| && LastWithKey(es, i) ==> m[es[|es| - 1].0 := es[|es| - 1].1][es[i].0] == es[i].1
  {
    var init := es[..|es| - 1];
    forall i | 0 <= i < |es| - 1 && LastWithKey(es, i)
      ensures LastWithKey(init, i)
    {
    }
  }

  lemma MapSnocMember<K, V>(es: seq<(K, V)>, m: map<K, V>, m': map<K, V>)
    requires es != [] && forall k :: k in m ==> (k, m[k]) in es[..|es| - 1]
    requires m' == m[es[|es| - 1].0 := es[|es| - 1].1]
    ensures forall k :: k in m' ==> (k, m'[k]) in es
  {
    forall k | k in m
      ensures (k, m[k]) in es
    {
      var e := (k, m[k]);
      var i :| 0 <= i < |es| - 1 && es[..|es| - 1][i] == e;
      assert es[i] == e;
    }
  }

  /** No key is paired with two different values. */
  predicate Functional<K(==), V(==)>(es: seq<(K, V)>) {
    forall i, j :: 0 <= i < |es| && 0 <= j < |es| && es[i].0 == es[j].0 ==> es[i].1 == es[j].1
  }

  /** When no key has two values, the map holds every entry. */
  lemma FunctionalEntries<K, V>(es: seq<(K, V)>)
    requires Functional(es)
    ensures forall e :: e in es ==> e.0 in MapFromEntries(es) && MapFromEntries(es)[e.0] == e.1
  {
    var m := MapFromEntries(es);
    forall e | e in es
      ensures e.0 in m && m[e.0] == e.1
    {
      var i :| 0 <= i < |es| && es[i] == e;
      var j :| 0 <= j < |es| && es[j] == (e.0, m[e.0]);
    }
  }

  /** A map built from `xs.flatMap(f)` has a key exactly when some `f(x)` has
      an entry for it. */
  lemma FlatMapKey<A, K, V>(xs: seq<A>, f: A -> seq<(K, V)>, k: K)
    ensures k in MapFromEntries(FlatMap(xs, f)) <==> exists x, v :: x in xs && (k, v) in f(x)
  {
    var es := FlatMap(xs, f);
    var m := MapFromEntries(es);
    if k in m {
      assert (k, m[k]) in es;
      FlatMapMember(xs, f, (k, m[k]));
    }
    if exists x, v :: x in xs && (k, v) in f(x) {
      var x, v :| x in xs && (k, v) in f(x);
      FlatMapMember(xs, f, (k, v));
      var i :| 0 <= i < |es| && es[i] == (k, v);
    }
  }

  /** The value a map built from `xs.flatMap(f)` holds for a key comes from an
      entry of some `f(x)`. */
  lemma FlatMapValue<A, K, V>(xs: seq<A>, f: A -> seq<(K, V)>, k: K)
    requires k in MapFromEntries(FlatMap(xs, f))
    ensures exists x :: x in xs && (k, MapFromEntries(FlatMap(xs, f))[k]) in f(x)
  {
    FlatMapMember(xs, f, (k, MapFromEntries(FlatMap(xs, f))[k]));
  }

  /** When no key of `xs.flatMap(f)` has two values, every entry of every
      `f(x)` is in the map. */
  lemma FlatMapEntry<A, K, V>(xs: seq<A>, f: A -> seq<(K, V)>, x: A, e: (K, V))
    requires Functional(FlatMap(xs, f)) && x in xs && e in f(x)
    ensures e.0 in MapFromEntries(FlatMap(xs, f)) && MapFromEntries(FlatMap(xs, f))[e.0] == e.1
  {
    FunctionalEntries(FlatMap(xs, f));
    FlatMapMember(xs, f, e);
  }

  /** `Object.fromEntries(entries)` as a plain object: a key keeps the place
      of its first entry and the value of its last. */
  function FromEntries<V>(es: seq<(string, V)>): (m: seq<(string, V)>)
    ensures forall k :: Get(m, k).Some? <==> k in Keys(es)
  {
    if es == [] then []
    else
      var init := es[..|es| - 1];
      assert Keys(es) == Keys(init) + [es[|es| - 1].0];
      Put(FromEntries(init), es[|es| - 1].0, es[|es| - 1].1)
  }

  /** The value of a key is that of its last entry. */
  lemma {:induction false} FromEntriesLast<V>(es: seq<(string, V)>, i: nat)
    requires i < |es| && LastWithKey(es, i)
    ensures Get(FromEntries(es), es[i].0) == Some(es[i].1)
  {
    if i < |es| - 1 {
      var init := es[..|es| - 1];
      assert LastWithKey(init, i);
      FromEntriesLast(init, i);
    }
  }

  /** Every value comes from an entry with its key. */
  lemma {:induction false} FromEntriesValue<V>(es: seq<(string, V)>, k: string)
    requires Get(FromEntries(es), k).Some?
    ensures (k, Get(FromEntries(es), k).value) in es
  {
    var init := es[..|es| - 1];
    if es[|es| - 1].0 != k {
      FromEntriesValue(init, k);
    }
  }

  /** No entry after position `i` has the key of entry `i`. */
  predicate LastWithKey<K(==), V>(es: seq<(K, V)>, i: nat)
    requires i < |es|
  {
    forall j :: i < j < |es| ==> es[j].0 != es[i].0
  }
}
