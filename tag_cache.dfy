/** `TaggedMemoryCache`: an in-memory key/value store with a two-way tag
    index (`tagMap`: tag to keys, `keyTagMap`: key to tags), invalidation by
    tag, and a one-hour time to live. The clock is a parameter `now`. */
module TagCache {
  import opened Wrappers
  import opened Js

  datatype CacheEntry = CacheEntry(value: JsValue, timestamp: int)

  /** The three maps of the cache. */
  datatype Cache = Cache(
    store: map<string, CacheEntry>,
    tagMap: map<string, set<string>>,
    keyTagMap: map<string, set<string>>)

  const TTL: int := 60 * 60 * 1000

  const EMPTY: Cache := Cache(map[], map[], map[])

  // ---------------------------------------------------------------------------
  // Maps of sets

  type Index = map<string, set<string>>

  /** `b` is in the set under `a`. */
  predicate Holds(m: Index, a: string, b: string) {
    a in m && b in m[a]
  }

  ghost predicate NonEmpty(m: Index) {
    forall a :: a in m ==> m[a] != {}
  }

  /** Removes `x` from the sets under the keys `ks`, dropping each set that
      becomes empty. */
  function Strip(m: Index, ks: set<string>, x: string): Index {
    map a | a in m && (a !in ks || m[a] - {x} != {}) :: if a in ks then m[a] - {x} else m[a]
  }

  /** Adds `x` to the sets under the keys `ks`, creating missing ones. */
  function Link(m: Index, ks: set<string>, x: string): Index {
    map a | a in m.Keys + ks :: if a in ks then (if a in m then m[a] else {}) + {x} else m[a]
  }

  /** `set?.delete(x); if (set && set.size === 0) m.delete(a)`. */
  function Unlist(m: Index, a: string, x: string): Index {
    if a !in m then m else if m[a] - {x} == {} then m - {a} else m[a := m[a] - {x}]
  }

  /** `if (!m.has(a)) m.set(a, new Set()); m.get(a)!.add(x)`. */
  function Enlist(m: Index, a: string, x: string): Index {
    m[a := (if a in m then m[a] else {}) + {x}]
  }

  lemma StripHolds(m: Index, ks: set<string>, x: string)
    ensures forall a, b :: Holds(Strip(m, ks, x), a, b) <==> Holds(m, a, b) && !(a in ks && b == x)
    ensures NonEmpty(m) ==> NonEmpty(Strip(m, ks, x))
  {
    var r := Strip(m, ks, x);
    forall a, b
      ensures Holds(r, a, b) <==> Holds(m, a, b) && !(a in ks && b == x)
    {
      if a in m && a in ks && b in m[a] && b != x {
        assert b in m[a] - {x};
      }
    }
    if NonEmpty(m) {
      forall a | a in r
        ensures r[a] != {}
      {
      }
    }
  }

  lemma LinkHolds(m: Index, ks: set<string>, x: string)
    ensures forall a, b :: Holds(Link(m, ks, x), a, b) <==> Holds(m, a, b) || (a in ks && b == x)
    ensures NonEmpty(m) ==> NonEmpty(Link(m, ks, x))
  {
  }

  lemma StripStep(m: Index, ks: set<string>, a: string, x: string)
    requires a !in ks
    ensures Strip(m, ks + {a}, x) == Unlist(Strip(m, ks, x), a, x)
  {
    var l := Strip(m, ks + {a}, x);
    var r := Unlist(Strip(m, ks, x), a, x);
    assert forall b :: b in l <==> b in r;
    assert forall b :: b in l ==> l[b] == r[b];
  }

  lemma LinkStep(m: Index, ks: set<string>, a: string, x: string)
    ensures Link(m, ks + {a}, x) == Enlist(Link(m, ks, x), a, x)
  {
    var l := Link(m, ks + {a}, x);
    var r := Enlist(Link(m, ks, x), a, x);
    assert forall b :: b in l <==> b in r;
    assert forall b :: b in l ==> l[b] == r[b];
  }

  lemma StripNone(m: Index, x: string)
    ensures Strip(m, {}, x) == m
  {
    assert forall b :: b in Strip(m, {}, x) <==> b in m;
  }

  lemma LinkNone(m: Index, x: string)
    ensures Link(m, {}, x) == m
  {
    assert forall b :: b in Link(m, {}, x) <==> b in m;
  }

  // ---------------------------------------------------------------------------
  // Specification

  function SetOf(tags: seq<string>): set<string> {
    set t | t in tags
  }

  /** `set(key, value, tags)`. */
  function SetKey(c: Cache, key: string, value: JsValue, tags: seq<string>, now: int): Cache {
    var unlinked := if key in c.keyTagMap then Strip(c.tagMap, c.keyTagMap[key], key) else c.tagMap;
    var store := c.store[key := CacheEntry(value, now)];
    if |tags| > 0 then Cache(store, Link(unlinked, SetOf(tags), key), c.keyTagMap[key := SetOf(tags)])
    else Cache(store, unlinked, c.keyTagMap - {key})
  }

  /** `get(key)`: the value, with the entry's timestamp refreshed. */
  function Lookup(c: Cache, key: string, now: int): (Option<JsValue>, Cache) {
    if key in c.store then (Some(c.store[key].value), c.(store := c.store[key := c.store[key].(timestamp := now)]))
    else (None, c)
  }

  /** `deleteKey(key)`. */
  function Deleted(c: Cache, key: string): Cache {
    Cache(
      c.store - {key},
      if key in c.keyTagMap then Strip(c.tagMap, c.keyTagMap[key], key) else c.tagMap,
      c.keyTagMap - {key})
  }

  /** The keys of `keys` whose tag record lists `t`. */
  function Removed(keyTagMap: Index, keys: set<string>, t: string): set<string> {
    set k | k in keys && k in keyTagMap && t in keyTagMap[k]
  }

  /** `deleteKey` for every key of `keys`, in any order. */
  function DeleteKeys(c: Cache, keys: set<string>): Cache {
    Cache(
      map k | k in c.store && k !in keys :: c.store[k],
      map t | t in c.tagMap && (Removed(c.keyTagMap, keys, t) == {} || c.tagMap[t] - Removed(c.keyTagMap, keys, t) != {})
        :: c.tagMap[t] - Removed(c.keyTagMap, keys, t),
      map k | k in c.keyTagMap && k !in keys :: c.keyTagMap[k])
  }

  /** The entries older than the time to live. */
  function Expired(c: Cache, now: int): set<string> {
    set k | k in c.store && now - c.store[k].timestamp > TTL
  }

  /** `cleanupExpired()`. */
  function Cleanup(c: Cache, now: int): Cache {
    DeleteKeys(c, Expired(c, now))
  }

  /** Reset of one tag that has a key set. */
  function ResetTag(c: Cache, tag: string): Cache
    requires tag in c.tagMap
  {
    Cache(c.store - c.tagMap[tag], c.tagMap - {tag}, Strip(c.keyTagMap, c.tagMap[tag], tag))
  }

  /** `reset(tags)`: tag by tag, up to the first one without a key set. */
  function ResetTags(c: Cache, tags: seq<string>): Cache
    decreases |tags|
  {
    if tags == [] || tags[0] !in c.tagMap then c else ResetTags(ResetTag(c, tags[0]), tags[1..])
  }

  /** A part of a `wrap` key: a primitive or null, held as `String(x)`, or an
      object (an array included) with its number of own keys. */
  datatype KeyPart = Prim(text: string) | Object(keyCount: nat)

  /** `keyParts.filter(x => x === null || typeof x !== 'object').map(String)`. */
  function Texts(parts: seq<KeyPart>): (texts: seq<string>)
    ensures |texts| <= |parts|
    ensures forall p :: p in parts && p.Prim? ==> p.text in texts
  {
    if parts == [] then []
    else Texts(parts[..|parts| - 1]) + (match parts[|parts| - 1] case Prim(t) => [t] case Object(_) => [])
  }

  /** The cache key of `wrap`, or `None` when the cache is bypassed: some
      part is a non-empty object, or the joined key is empty. */
  function WrapKey(parts: seq<KeyPart>): Option<string> {
    if exists i :: 0 <= i < |parts| && parts[i].Object? && parts[i].keyCount > 0 then None
    else
      var texts := Texts(parts);
      var key := if texts == [] then "" else Join(texts, ':');
      if key == "" then None else Some(key)
  }

  /** What `wrap` returns, whether it called `fn`, and the new cache;
      `computed` is the value `fn` gives. */
  datatype WrapResult = WrapResult(value: JsValue, called: bool, cache: Cache)

  function Wrapped(c: Cache, parts: seq<KeyPart>, computed: JsValue, tags: seq<string>, now: int): WrapResult {
    match WrapKey(parts)
    case None => WrapResult(computed, true, c)
    case Some(key) =>
      var look := Lookup(c, key, now);
      if look.0.Some? && Truthy(look.0.value) then WrapResult(look.0.value, false, look.1)
      else WrapResult(computed, true, SetKey(look.1, key, computed, tags, now))
  }

  // ---------------------------------------------------------------------------
  // The tag index

  /** Key `k` is listed under tag `t`. */
  predicate Listed(c: Cache, k: string, t: string) {
    Holds(c.tagMap, t, k)
  }

  /** Key `k`'s tag record lists `t`. */
  predicate Tagged(c: Cache, k: string, t: string) {
    Holds(c.keyTagMap, k, t)
  }

  /** The two indices agree and hold no empty set. */
  ghost predicate Valid(c: Cache) {
    && NonEmpty(c.tagMap)
    && NonEmpty(c.keyTagMap)
    && (forall k, t :: Listed(c, k, t) <==> Tagged(c, k, t))
  }

  lemma EmptyValid()
    ensures Valid(EMPTY)
  {
  }

  /** Removing `key` from the tag sets it is recorded under removes it from
      every tag set. */
  lemma UnlinkedSpec(c: Cache, key: string)
    requires Valid(c)
    ensures var u := if key in c.keyTagMap then Strip(c.tagMap, c.keyTagMap[key], key) else c.tagMap;
      && NonEmpty(u)
      && (forall k, t :: Holds(u, t, k) <==> Listed(c, k, t) && k != key)
  {
    if key in c.keyTagMap {
      StripHolds(c.tagMap, c.keyTagMap[key], key);
    }
    forall t | Listed(c, key, t)
      ensures Tagged(c, key, t)
    {
    }
  }

  /** After `set`, the value is stored under the key and the key is listed
      under exactly the given tags; other entries keep their values and their
      tags, and the index stays valid. */
  lemma SetKeySpec(c: Cache, key: string, value: JsValue, tags: seq<string>, now: int)
    requires Valid(c)
    ensures var r := SetKey(c, key, value, tags, now);
      && Valid(r)
      && r.store[key] == CacheEntry(value, now)
      && (forall k :: k != key ==> (k in r.store <==> k in c.store))
      && (forall k :: k != key && k in c.store ==> r.store[k] == c.store[k])
      && (forall t :: Listed(r, key, t) <==> t in tags)
      && (forall k, t :: k != key ==> (Listed(r, k, t) <==> Listed(c, k, t)))
  {
    var r := SetKey(c, key, value, tags, now);
    var unlinked := if key in c.keyTagMap then Strip(c.tagMap, c.keyTagMap[key], key) else c.tagMap;
    UnlinkedSpec(c, key);
    if |tags| > 0 {
      LinkHolds(unlinked, SetOf(tags), key);
      assert tags[0] in SetOf(tags);
    }
    forall k, t
      ensures Listed(r, k, t) <==> (Listed(c, k, t) && k != key) || (k == key && t in tags)
    {
    }
  }

  /** `get` returns the stored value and changes no membership. */
  lemma LookupSpec(c: Cache, key: string, now: int)
    ensures var r := Lookup(c, key, now);
      && (r.0.Some? <==> key in c.store)
      && (r.0.Some? ==> r.0.value == c.store[key].value && r.1.store[key].timestamp == now)
      && r.1.store.Keys == c.store.Keys
      && r.1.tagMap == c.tagMap && r.1.keyTagMap == c.keyTagMap
      && (forall k :: k in c.store && k != key ==> r.1.store[k] == c.store[k])
  {
  }

  /** A `get` right after a `set` returns the value that was set. */
  lemma GetAfterSet(c: Cache, key: string, value: JsValue, tags: seq<string>, now: int, later: int)
    ensures Lookup(SetKey(c, key, value, tags, now), key, later).0 == Some(value)
  {
  }

  /** `del(key)` removes the key from the store, from every tag set and from
      the tag records; everything else is untouched, and the index stays
      valid. */
  lemma DeletedSpec(c: Cache, key: string)
    requires Valid(c)
    ensures var r := Deleted(c, key);
      && Valid(r)
      && key !in r.store && key !in r.keyTagMap
      && (forall t :: !Listed(r, key, t))
      && (forall k :: k != key ==> (k in r.store <==> k in c.store))
      && (forall k :: k != key && k in c.store ==> r.store[k] == c.store[k])
      && (forall k, t :: k != key ==> (Listed(r, k, t) <==> Listed(c, k, t)))
  {
    var r := Deleted(c, key);
    UnlinkedSpec(c, key);
    forall k, t
      ensures Listed(r, k, t) <==> Listed(c, k, t) && k != key
    {
    }
  }

  /** Deleting keys one at a time is deleting them all. */
  lemma DeleteKeysStep(c: Cache, keys: set<string>, key: string)
    requires key !in keys
    ensures Deleted(DeleteKeys(c, keys), key) == DeleteKeys(c, keys + {key})
  {
    var d := DeleteKeys(c, keys);
    var lhs := Deleted(d, key);
    var rhs := DeleteKeys(c, keys + {key});
    assert lhs.store == rhs.store;
    assert lhs.keyTagMap == rhs.keyTagMap;
    forall t
      ensures (t in lhs.tagMap <==> t in rhs.tagMap) && (t in lhs.tagMap ==> lhs.tagMap[t] == rhs.tagMap[t])
    {
      var e: set<string> := if key in c.keyTagMap && t in c.keyTagMap[key] then {key} else {};
      assert Removed(c.keyTagMap, keys + {key}, t) == Removed(c.keyTagMap, keys, t) + e;
    }
    assert lhs.tagMap == rhs.tagMap;
  }

  lemma DeleteKeysNone(c: Cache)
    ensures DeleteKeys(c, {}) == c
  {
    var d := DeleteKeys(c, {});
    forall t
      ensures Removed(c.keyTagMap, {}, t) == {}
    {
    }
    assert d.store == c.store;
    forall t | t in c.tagMap
      ensures t in d.tagMap && d.tagMap[t] == c.tagMap[t]
    {
      assert c.tagMap[t] - Removed(c.keyTagMap, {}, t) == c.tagMap[t];
    }
    assert d.tagMap == c.tagMap;
    assert d.keyTagMap == c.keyTagMap;
  }

  /** Deleting any set of keys keeps the index valid and drops exactly those
      keys from the store and the index. */
  lemma {:induction false} DeleteKeysSpec(c: Cache, keys: set<string>)
    requires Valid(c)
    ensures var r := DeleteKeys(c, keys);
      && Valid(r)
      && (forall k :: k in r.store <==> k in c.store && k !in keys)
      && (forall k :: k in r.store ==> r.store[k] == c.store[k])
      && (forall k, t :: k in keys ==> !Listed(r, k, t))
    decreases |keys|
  {
    if keys == {} {
      DeleteKeysNone(c);
    } else {
      var key :| key in keys;
      var rest := keys - {key};
      DeleteKeysSpec(c, rest);
      DeletedSpec(DeleteKeys(c, rest), key);
      DeleteKeysStep(c, rest, key);
      assert rest + {key} == keys;
    }
  }

  /** `cleanupExpired` removes exactly the entries older than the time to
      live, from the store and the index, and keeps the index valid. */
  lemma CleanupSpec(c: Cache, now: int)
    requires Valid(c)
    ensures var r := Cleanup(c, now);
      && Valid(r)
      && (forall k :: k in r.store <==> k in c.store && now - c.store[k].timestamp <= TTL)
      && (forall k, t :: k in c.store && now - c.store[k].timestamp > TTL ==> !Listed(r, k, t))
  {
    DeleteKeysSpec(c, Expired(c, now));
  }

  /** Resetting one tag removes its keys from the store and the tag from both
      indices; the other tags keep their key sets. */
  lemma ResetTagSpec(c: Cache, tag: string)
    requires Valid(c) && tag in c.tagMap
    ensures var r := ResetTag(c, tag);
      && Valid(r)
      && tag !in r.tagMap
      && (forall k :: k in c.tagMap[tag] ==> k !in r.store)
      && (forall k :: k !in c.tagMap[tag] ==> (k in r.store <==> k in c.store))
      && (forall k, t :: t != tag ==> (Listed(r, k, t) <==> Listed(c, k, t)))
  {
    var r := ResetTag(c, tag);
    StripHolds(c.keyTagMap, c.tagMap[tag], tag);
    forall k | Tagged(c, k, tag)
      ensures k in c.tagMap[tag]
    {
      assert Listed(c, k, tag);
    }
    forall k, t
      ensures Tagged(r, k, t) <==> Tagged(c, k, t) && t != tag
    {
    }
  }

  /** A removed key stays listed under its other tags, so the tag index can
      name keys that are no longer stored. */
  lemma ResetLeavesStaleListing(c: Cache, tag: string, other: string, k: string)
    requires tag in c.tagMap && k in c.tagMap[tag] && other != tag && Listed(c, k, other)
    ensures k !in ResetTag(c, tag).store && Listed(ResetTag(c, tag), k, other)
  {
    assert ResetTag(c, tag).tagMap == c.tagMap - {tag};
  }

  /** `reset(tags)` keeps the index valid, never adds a tag, and removes the
      first tag when it had a key set. */
  lemma {:induction false} ResetTagsSpec(c: Cache, tags: seq<string>)
    requires Valid(c)
    ensures var r := ResetTags(c, tags);
      && Valid(r)
      && (forall t :: t in r.tagMap ==> t in c.tagMap)
      && (tags != [] && tags[0] in c.tagMap ==> tags[0] !in r.tagMap)
    decreases |tags|
  {
    if tags != [] && tags[0] in c.tagMap {
      var d := ResetTag(c, tags[0]);
      ResetTagSpec(c, tags[0]);
      ResetTagsSpec(d, tags[1..]);
      assert d.tagMap == c.tagMap - {tags[0]};
    }
  }

  /** `reset(tags)` stops at the first tag without a key set: the tags after
      it are not processed. */
  lemma {:induction false} ResetTagsStops(c: Cache, tags: seq<string>, i: nat)
    requires i < |tags| && tags[i] !in ResetTags(c, tags[..i]).tagMap
    ensures ResetTags(c, tags) == ResetTags(c, tags[..i])
    decreases i
  {
    if i == 0 {
      assert tags[0] !in c.tagMap;
    } else if tags[0] in c.tagMap {
      assert tags[..i][0] == tags[0];
      assert tags[1..][..i - 1] == tags[..i][1..];
      ResetTagsStops(ResetTag(c, tags[0]), tags[1..], i - 1);
    } else {
      assert tags[..i][0] == tags[0];
    }
  }

  /** `wrap`: a bypassed key leaves the cache alone and calls `fn`, a truthy
      cached value is returned without calling `fn`, and otherwise `fn`'s
      value is returned and stored under the key. */
  lemma WrappedSpec(c: Cache, parts: seq<KeyPart>, computed: JsValue, tags: seq<string>, now: int)
    ensures var r := Wrapped(c, parts, computed, tags, now);
      && (WrapKey(parts).None? ==> r == WrapResult(computed, true, c))
      && (WrapKey(parts).Some? ==>
            var key := WrapKey(parts).value;
            if key in c.store && Truthy(c.store[key].value)
            then !r.called && r.value == c.store[key].value && r.cache.store.Keys == c.store.Keys
              && r.cache.tagMap == c.tagMap
            else r.called && r.value == computed && r.cache.store[key].value == computed)
  {
  }

  /** A non-empty object among the parts bypasses the cache; a key in use is
      never empty. */
  lemma WrapKeyBypass(parts: seq<KeyPart>)
    ensures (exists i :: 0 <= i < |parts| && parts[i].Object? && parts[i].keyCount > 0) ==> WrapKey(parts).None?
    ensures WrapKey(parts).Some? ==> WrapKey(parts).value != ""
    ensures (forall i :: 0 <= i < |parts| ==> parts[i].Object?) ==> WrapKey(parts).None?
  {
    if forall i :: 0 <= i < |parts| ==> parts[i].Object? {
      NoTexts(parts);
    }
  }

  lemma {:induction false} NoTexts(parts: seq<KeyPart>)
    requires forall i :: 0 <= i < |parts| ==> parts[i].Object?
    ensures Texts(parts) == []
  {
    if parts != [] {
      NoTexts(parts[..|parts| - 1]);
    }
  }

  // ---------------------------------------------------------------------------
  // The class

  class TaggedMemoryCache {
    var store: map<string, CacheEntry>
    var tagMap: Index
    var keyTagMap: Index

    function State(): Cache
      reads this
    {
      Cache(store, tagMap, keyTagMap)
    }

    constructor()
      ensures State() == EMPTY
    {
      store := map[];
      tagMap := map[];
      keyTagMap := map[];
    }

    /** Removes `key` from the tag sets of `tags`. */
    method Unlink(key: string, tags: set<string>)
      modifies this
      ensures State() == old(State()).(tagMap := Strip(old(tagMap), tags, key))
    {
      var rest := tags;
      ghost var done: set<string> := {};
      StripNone(tagMap, key);
      while rest != {}
        invariant done + rest == tags && done !! rest
        invariant store == old(store) && keyTagMap == old(keyTagMap)
        invariant tagMap == Strip(old(tagMap), done, key)
        decreases |rest|
      {
        var tag :| tag in rest;
        StripStep(old(tagMap), done, tag, key);
        if tag in tagMap {
          var s := tagMap[tag] - {key};
          if s == {} {
            tagMap := tagMap - {tag};
          } else {
            tagMap := tagMap[tag := s];
          }
        }
        rest := rest - {tag};
        done := done + {tag};
      }
    }

    method Set(key: string, value: JsValue, tags: seq<string>, now: int)
      modifies this
      ensures State() == SetKey(old(State()), key, value, tags, now)
    {
      if key in keyTagMap {
        Unlink(key, keyTagMap[key]);
      }
      store := store[key := CacheEntry(value, now)];
      if |tags| > 0 {
        keyTagMap := keyTagMap[key := SetOf(tags)];
        LinkTags(key, tags);
      } else {
        keyTagMap := keyTagMap - {key};
      }
    }

    /** Adds `key` to the tag sets of `tags`, creating missing ones. */
    method LinkTags(key: string, tags: seq<string>)
      modifies this
      ensures State() == old(State()).(tagMap := Link(old(tagMap), SetOf(tags), key))
    {
      LinkNone(tagMap, key);
      for i := 0 to |tags|
        invariant store == old(store) && keyTagMap == old(keyTagMap)
        invariant tagMap == Link(old(tagMap), SetOf(tags[..i]), key)
      {
        assert SetOf(tags[..i + 1]) == SetOf(tags[..i]) + {tags[i]} by {
          assert tags[..i + 1] == tags[..i] + [tags[i]];
        }
        LinkStep(old(tagMap), SetOf(tags[..i]), tags[i], key);
        if tags[i] !in tagMap {
          tagMap := tagMap[tags[i] := {}];
        }
        tagMap := tagMap[tags[i] := tagMap[tags[i]] + {key}];
      }
      assert tags[..|tags|] == tags;
    }

    method Get(key: string, now: int) returns (r: Option<JsValue>)
      modifies this
      ensures (r, State()) == Lookup(old(State()), key, now)
    {
      if key !in store {
        return None;
      }
      var entry := store[key];
      store := store[key := entry.(timestamp := now)];
      return Some(entry.value);
    }

    method DeleteKey(key: string)
      modifies this
      ensures State() == Deleted(old(State()), key)
    {
      store := store - {key};
      if key in keyTagMap {
        Unlink(key, keyTagMap[key]);
        keyTagMap := keyTagMap - {key};
      }
    }

    /** `del(key)`. */
    method Del(key: string)
      modifies this
      ensures State() == Deleted(old(State()), key)
    {
      DeleteKey(key);
    }

    /** `reset()` when `tags` is `None`, `reset(tags)` otherwise. */
    method Reset(tags: Option<seq<string>>)
      modifies this
      ensures tags.None? ==> State() == EMPTY
      ensures tags.Some? ==> State() == ResetTags(old(State()), tags.value)
    {
      if tags.None? {
        store := map[];
        tagMap := map[];
        keyTagMap := map[];
        return;
      }
      var ts := tags.value;
      ghost var goal := ResetTags(State(), ts[0..]);
      for i := 0 to |ts|
        invariant goal == ResetTags(State(), ts[i..])
      {
        assert ts[i..][0] == ts[i] && ts[i..][1..] == ts[i + 1..];
        var tag := ts[i];
        if tag !in tagMap {
          return;
        }
        ResetOne(tag);
      }
    }

    /** The body of the `reset(tags)` loop for a tag with a key set. */
    method ResetOne(tag: string)
      requires tag in tagMap
      modifies this
      ensures State() == ResetTag(old(State()), tag)
    {
      var keys := tagMap[tag];
      var rest := keys;
      ghost var done: set<string> := {};
      StripNone(keyTagMap, tag);
      while rest != {}
        invariant done + rest == keys && done !! rest
        invariant tagMap == old(tagMap)
        invariant store == old(store) - done
        invariant keyTagMap == Strip(old(keyTagMap), done, tag)
        decreases |rest|
      {
        var key :| key in rest;
        StripStep(old(keyTagMap), done, key, tag);
        assert old(store) - (done + {key}) == store - {key};
        store := store - {key};
        if key in keyTagMap {
          var s := keyTagMap[key] - {tag};
          if s == {} {
            keyTagMap := keyTagMap - {key};
          } else {
            keyTagMap := keyTagMap[key := s];
          }
        }
        rest := rest - {key};
        done := done + {key};
      }
      tagMap := tagMap - {tag};
    }

    method Wrap(parts: seq<KeyPart>, computed: JsValue, tags: seq<string>, now: int)
      returns (value: JsValue, called: bool)
      modifies this
      ensures WrapResult(value, called, State()) == Wrapped(old(State()), parts, computed, tags, now)
    {
      var key := WrapKey(parts);
      if key.None? {
        return computed, true;
      }
      var cached := Get(key.value, now);
      if cached.Some? && Truthy(cached.value) {
        return cached.value, false;
      }
      Set(key.value, computed, tags, now);
      return computed, true;
    }

    method CleanupExpired(now: int)
      modifies this
      ensures State() == Cleanup(old(State()), now)
    {
      var expired := Expired(State(), now);
      var rest := expired;
      ghost var done: set<string> := {};
      DeleteKeysNone(State());
      assert expired == Expired(old(State()), now);
      while rest != {}
        invariant done + rest == expired && done !! rest
        invariant State() == DeleteKeys(old(State()), done)
        decreases |rest|
      {
        var key :| key in rest;
        DeleteKeysStep(old(State()), done, key);
        DeleteKey(key);
        rest := rest - {key};
        done := done + {key};
      }
      assert done == expired;
    }
  }
}
