/** Object-id decoding (`toGameId`) and the reverse lookup indices built from a
    map version's game data (`buildLookup`). */
module GameIds {
  import opened Wrappers
  import opened Js

  /** Code units of the regular-expression class `\w`. */
  predicate IsWordCode(c: int) {
    (48 <= c <= 57) || (65 <= c <= 90) || (97 <= c <= 122) || c == 95
  }

  /** `String.fromCharCode(...val).replace(/[^\w]/g, '')`: each number becomes
      the code unit `n mod 65536`; only word characters remain. */
  function WordChars(val: seq<int>): (r: string)
    ensures |r| <= |val|
    ensures forall i :: 0 <= i < |r| ==> IsWordChar(r[i])
  {
    if val == [] then []
    else
      var c := val[0] % 0x1_0000;
      (if IsWordCode(c) then [c as char] else []) + WordChars(val[1..])
  }

  function Reverse<T>(s: seq<T>): (r: seq<T>)
    ensures |r| == |s| && forall i :: 0 <= i < |s| ==> r[i] == s[|s| - 1 - i]
  {
    if s == [] then [] else Reverse(s[1..]) + [s[0]]
  }

  /** The characters the source's `while (value > 8)` loop emits for a packed
      id: base-256 digits, most significant first, while the remaining value
      exceeds 8. */
  function PackedChars(v: int): (r: string)
    ensures forall i :: 0 <= i < |r| ==> r[i] as int < 256
    decreases v
  {
    if v > 8 then PackedChars(v / 256) + [(v % 256) as char] else []
  }

  /** `toGameId`: a four-character object id, or `null`. */
  function GameIdOf(val: seq<int>): (r: Option<string>)
    ensures r.Some? ==> |r.value| == 4
    ensures r.Some? ==> |val| == 4 || |val| == 2
  {
    if |val| == 4 then
      var output := Reverse(WordChars(val));
      if |output| == 4 then Some(output) else None
    else if |val| == 2 then
      var output := PackedChars(val[1]);
      if |output| == 4 then Some(output) else None
    else None
  }

  /** `toGameId`, with the source's loop over the packed value. (The source
      memoises four-element inputs; the cache does not change the result.) */
  method ToGameId(val: seq<int>) returns (r: Option<string>)
    ensures r == GameIdOf(val)
  {
    if |val| == 4 {
      var output := Reverse(WordChars(val));
      r := if |output| == 4 then Some(output) else None;
      return;
    }
    if |val| == 2 {
      var value := val[1];
      var output := "";
      while value > 8
        invariant PackedChars(val[1]) == PackedChars(value) + output
        decreases value
      {
        var c := value % 256;
        assert PackedChars(value) == PackedChars(value / 256) + [c as char];
        value := (value - c) / 256;
        output := [c as char] + output;
      }
      assert PackedChars(value) == [];
      assert output == PackedChars(val[1]);
      r := if |output| == 4 then Some(output) else None;
      return;
    }
    r := None;
  }

  /** Word-character codes pass through `WordChars` unchanged. */
  lemma {:induction false} WordCharsKeepsWords(val: seq<int>)
    requires forall i :: 0 <= i < |val| ==> IsWordCode(val[i])
    ensures |WordChars(val)| == |val|
    ensures forall i :: 0 <= i < |val| ==> WordChars(val)[i] as int == val[i]
  {
    if val != [] {
      WordCharsKeepsWords(val[1..]);
    }
  }

  /** A four-element id whose codes are all word characters decodes to those
      characters in reverse order. */
  lemma FourCodesDecodeReversed(val: seq<int>)
    requires |val| == 4 && forall i :: 0 <= i < 4 ==> IsWordCode(val[i])
    ensures GameIdOf(val).Some?
    ensures forall i :: 0 <= i < 4 ==> GameIdOf(val).value[i] as int == val[3 - i]
  {
    WordCharsKeepsWords(val);
  }

  /** A four-element id with a non-word code has fewer than four word
      characters and decodes to `null`. */
  lemma FourCodesNeedWordChars(val: seq<int>, k: nat)
    requires |val| == 4 && k < 4 && !IsWordCode(val[k] % 0x1_0000)
    ensures GameIdOf(val) == None
  {
    WordCharsDropsNonWord(val, k);
  }

  lemma {:induction false} WordCharsDropsNonWord(val: seq<int>, k: nat)
    requires k < |val| && !IsWordCode(val[k] % 0x1_0000)
    ensures |WordChars(val)| < |val|
  {
    if k > 0 {
      WordCharsDropsNonWord(val[1..], k - 1);
    }
  }

  function Pow256(k: nat): (p: nat)
    ensures p >= 1
  {
    if k == 0 then 1 else 256 * Pow256(k - 1)
  }

  /** The packed value yields at least `k` characters exactly when it is at
      least `9 * 256^(k-1)`. */
  lemma {:induction false} PackedLengthAtLeast(v: int, k: nat)
    requires k >= 1
    ensures |PackedChars(v)| >= k <==> v >= 9 * Pow256(k - 1)
    decreases k
  {
    if k > 1 {
      if v > 8 {
        PackedLengthAtLeast(v / 256, k - 1);
        assert Pow256(k - 1) == 256 * Pow256(k - 2);
        DivBound(v, 9 * Pow256(k - 2));
      } else {
        assert Pow256(k - 1) == 256 * Pow256(k - 2);
      }
    }
  }

  lemma DivBound(v: int, b: int)
    requires v >= 0 && b >= 0
    ensures v / 256 >= b <==> v >= 256 * b
  {
  }

  /** A packed pair decodes to an id exactly when its value lies in
      `[9 * 256^3, 9 * 256^4)`. */
  lemma PackedIdRange(x: int, v: int)
    ensures GameIdOf([x, v]).Some? <==> 9 * 0x100_0000 <= v < 9 * 0x1_0000_0000
  {
    PackedLengthAtLeast(v, 4);
    PackedLengthAtLeast(v, 5);
    assert Pow256(3) == 0x100_0000;
    assert Pow256(4) == 0x1_0000_0000;
  }

  /** The number an id packs into: its four codes as base-256 digits. */
  function PackId(s: string): int
    requires |s| == 4
  {
    ((s[0] as int * 256 + s[1] as int) * 256 + s[2] as int) * 256 + s[3] as int
  }

  /** Decoding a packed 32-bit value and packing the result gives the value
      back. */
  lemma PackedRoundTrip(x: int, v: int)
    requires 9 * 0x100_0000 <= v < 0x1_0000_0000
    ensures GameIdOf([x, v]).Some? && PackId(GameIdOf([x, v]).value) == v
  {
    PackedIdRange(x, v);
    var v1, v2, v3 := v / 256, v / 256 / 256, v / 256 / 256 / 256;
    assert 9 <= v3 < 256;
    assert PackedChars(v3) == [(v3 % 256) as char] by {
      assert PackedChars(v3 / 256) == [];
    }
    assert PackedChars(v2) == PackedChars(v3) + [(v2 % 256) as char];
    assert PackedChars(v1) == PackedChars(v2) + [(v1 % 256) as char];
    assert PackedChars(v) == PackedChars(v1) + [(v % 256) as char];
    assert PackedChars(v) == [(v3 % 256) as char, (v2 % 256) as char, (v1 % 256) as char, (v % 256) as char];
  }

  /** Packing an id whose codes are bytes, the first above 8, and decoding the
      number gives the id back. */
  lemma PackIdRoundTrip(x: int, s: string)
    requires |s| == 4 && 9 <= s[0] as int && forall i :: 0 <= i < 4 ==> s[i] as int < 256
    ensures GameIdOf([x, PackId(s)]) == Some(s)
  {
    var v := PackId(s);
    var a, b, c, d := s[0] as int, s[1] as int, s[2] as int, s[3] as int;
    assert v / 256 == (a * 256 + b) * 256 + c && v % 256 == d;
    assert v / 256 / 256 == a * 256 + b && (v / 256) % 256 == c;
    assert v / 256 / 256 / 256 == a && (v / 256 / 256) % 256 == b;
    PackedRoundTrip(x, v);
    assert PackedChars(v) == [a as char, b as char, c as char, d as char];
    assert s == [s[0], s[1], s[2], s[3]];
  }
}

module Lookup {
  import opened Wrappers
  import opened Js
  import opened ParserConst
  import opened GameData

  /** The reverse indices `buildLookup` derives from one map version's data. */
  datatype Lookup = Lookup(
    auras: set<string>,
    heroes: set<string>,
    bonuses: set<string>,
    barrack: map<string, PlayerEvent>,
    baseUpgrades: set<string>,
    towerUpgrades: set<string>,
    fort: map<string, PlayerEvent>,
    ultimates: map<string, string>,
    raceByPicker: map<string, string>,
    raceByUnit: map<string, string>,
    bonusByUnit: map<string, string>)

  const BARRACK_TIERS: seq<PlayerEvent> := [UP_BARRACK2, UP_BARRACK3, UP_BARRACK4]
  const FORT_TIERS: seq<PlayerEvent> := [UP_FORT2, UP_FORT3]

  /** `ids.map((id, idx) => [id, tiers[idx]])`. */
  function Tiered(ids: seq<string>, tiers: seq<PlayerEvent>): (es: seq<(string, PlayerEvent)>)
    requires |ids| <= |tiers|
    ensures |es| == |ids| && forall j :: 0 <= j < |ids| ==> es[j] == (ids[j], tiers[j])
  {
    seq(|ids|, j requires 0 <= j < |ids| => (ids[j], tiers[j]))
  }

  /** The last three barrack ids of a race, paired with the barrack tiers. */
  function BarrackTiers(r: RaceMapping): seq<(string, PlayerEvent)> {
    Tiered(Last(r.buildings.barrack, 3), BARRACK_TIERS)
  }

  /** The last two fort ids of a race, paired with the fort tiers. */
  function FortTiers(r: RaceMapping): seq<(string, PlayerEvent)> {
    Tiered(Last(r.buildings.fort, 2), FORT_TIERS)
  }

  /** Every id a race owns: heroes, units, then buildings. */
  function OwnedIds(r: RaceMapping): seq<string> {
    r.heroes + UnitIds(r.units) + BuildingIds(r.buildings)
  }

  /** Each id paired with the same value: `ids.map(id => [id, v])`. */
  function PairWith(ids: seq<string>, v: string): (es: seq<(string, string)>)
    ensures forall e :: e in es <==> e.0 in ids && e.1 == v
  {
    if ids == [] then [] else [(ids[0], v)] + PairWith(ids[1..], v)
  }

  /** Each owned id paired with the race id. */
  function OwnerPairs(r: RaceMapping): seq<(string, string)> {
    PairWith(OwnedIds(r), r.id)
  }

  function PickerPair(r: RaceMapping): seq<(string, string)> {
    [(r.bonusPicker, r.id)]
  }

  function BonusItems(r: RaceMapping): seq<(string, string)> {
    r.bonusByItemId
  }

  /** `[key, key]` followed by `[id, key]` for each variant id. */
  function UltimateGroup(u: (string, seq<string>)): seq<(string, string)> {
    [(u.0, u.0)] + PairWith(u.1, u.0)
  }

  function BarrackEntries(rs: seq<RaceMapping>): seq<(string, PlayerEvent)> {
    FlatMap(rs, BarrackTiers)
  }

  function FortEntries(rs: seq<RaceMapping>): seq<(string, PlayerEvent)> {
    FlatMap(rs, FortTiers)
  }

  function OwnerEntries(rs: seq<RaceMapping>): seq<(string, string)> {
    FlatMap(rs, OwnerPairs)
  }

  function BonusItemEntries(rs: seq<RaceMapping>): seq<(string, string)> {
    FlatMap(rs, BonusItems)
  }

  function UltimateEntries(us: seq<(string, seq<string>)>): seq<(string, string)> {
    FlatMap(us, UltimateGroup)
  }

  function BarrackIndex(rs: seq<RaceMapping>): map<string, PlayerEvent> {
    MapFromEntries(BarrackEntries(rs))
  }

  function FortIndex(rs: seq<RaceMapping>): map<string, PlayerEvent> {
    MapFromEntries(FortEntries(rs))
  }

  function UltimateIndex(us: seq<(string, seq<string>)>): map<string, string> {
    MapFromEntries(UltimateEntries(us))
  }

  function PickerIndex(rs: seq<RaceMapping>): map<string, string> {
    MapFromEntries(FlatMap(rs, PickerPair))
  }

  function OwnerIndex(rs: seq<RaceMapping>): map<string, string> {
    MapFromEntries(OwnerEntries(rs))
  }

  function BonusItemIndex(rs: seq<RaceMapping>): map<string, string> {
    MapFromEntries(BonusItemEntries(rs))
  }

  /** The union of one list of every race. */
  function UnionOf(rs: seq<RaceMapping>, f: RaceMapping -> seq<string>): (u: set<string>)
    ensures forall x :: x in u <==> exists r :: r in rs && x in f(r)
  {
    set r, x | r in rs && x in f(r) :: x
  }

  function AuraIds(r: RaceMapping): seq<string> { r.auras }
  function HeroIds(r: RaceMapping): seq<string> { r.heroes }
  function BonusIds(r: RaceMapping): seq<string> { r.bonuses }
  function TowerUpgradeIds(r: RaceMapping): seq<string> { r.towerUpgrades }

  /** `Object.values(r.baseUpgrades).concat(...r.magic)`. */
  function BaseUpgradeAndMagicIds(r: RaceMapping): seq<string> {
    BaseUpgradeIds(r.baseUpgrades) + r.magic
  }

  /** `buildLookup`. */
  function BuildLookup(g: WikiDataMapping): Lookup {
    var rs := Races(g);
    Lookup(
      auras := UnionOf(rs, AuraIds),
      heroes := UnionOf(rs, HeroIds),
      bonuses := UnionOf(rs, BonusIds),
      barrack := BarrackIndex(rs),
      baseUpgrades := UnionOf(rs, BaseUpgradeAndMagicIds),
      towerUpgrades := UnionOf(rs, TowerUpgradeIds),
      fort := FortIndex(rs),
      ultimates := UltimateIndex(g.ultimates),
      raceByPicker := PickerIndex(rs),
      raceByUnit := OwnerIndex(rs),
      bonusByUnit := BonusItemIndex(rs))
  }

  // ---------------------------------------------------------------------------
  // Properties of the indices

  /** Only the last three barracks of a race are indexed, each to a barrack
      tier. */
  lemma BarrackTiersOf(rs: seq<RaceMapping>)
    ensures forall x :: x in BarrackIndex(rs) <==>
      exists r :: r in rs && x in Last(r.buildings.barrack, 3)
    ensures forall x :: x in BarrackIndex(rs) ==> BarrackIndex(rs)[x] in BARRACK_TIERS
  {
    forall x | x in BarrackIndex(rs)
      ensures exists r :: r in rs && x in Last(r.buildings.barrack, 3)
      ensures BarrackIndex(rs)[x] in BARRACK_TIERS
    {
      BarrackIndexed(rs, x);
    }
    forall r, x | r in rs && x in Last(r.buildings.barrack, 3)
      ensures x in BarrackIndex(rs)
    {
      BarrackCovered(rs, r, x);
    }
  }

  /** An indexed barrack id comes from some race's tier table. */
  lemma BarrackIndexed(rs: seq<RaceMapping>, x: string)
    requires x in BarrackIndex(rs)
    ensures exists r :: r in rs && x in Last(r.buildings.barrack, 3)
    ensures BarrackIndex(rs)[x] in BARRACK_TIERS
  {
    var v := BarrackIndex(rs)[x];
    FlatMapValue(rs, BarrackTiers, x);
    var r :| r in rs && (x, v) in BarrackTiers(r);
    TieredMember(Last(r.buildings.barrack, 3), BARRACK_TIERS, (x, v));
  }

  /** Each tiered barrack id of a race is indexed. */
  lemma BarrackCovered(rs: seq<RaceMapping>, r: RaceMapping, x: string)
    requires r in rs && x in Last(r.buildings.barrack, 3)
    ensures x in BarrackIndex(rs)
  {
    var t := TieredCovers(Last(r.buildings.barrack, 3), BARRACK_TIERS, x);
    assert (x, t) in BarrackTiers(r);
    FlatMapKey(rs, BarrackTiers, x);
  }

  /** When no id is given two tiers, the `j`-th of a race's last three
      barracks maps to the `j`-th barrack tier, counted from the start of the
      slice. */
  lemma BarrackTiersPositional(rs: seq<RaceMapping>, r: RaceMapping, j: nat)
    requires Functional(BarrackEntries(rs))
    requires r in rs && j < |Last(r.buildings.barrack, 3)|
    ensures Last(r.buildings.barrack, 3)[j] in BarrackIndex(rs)
    ensures BarrackIndex(rs)[Last(r.buildings.barrack, 3)[j]] == BARRACK_TIERS[j]
  {
    FlatMapEntry(rs, BarrackTiers, r, BarrackTiers(r)[j]);
  }

  /** Only the last two forts of a race are indexed, each to a fort tier. */
  lemma FortTiersOf(rs: seq<RaceMapping>)
    ensures forall x :: x in FortIndex(rs) <==>
      exists r :: r in rs && x in Last(r.buildings.fort, 2)
    ensures forall x :: x in FortIndex(rs) ==> FortIndex(rs)[x] in FORT_TIERS
  {
    forall x | x in FortIndex(rs)
      ensures exists r :: r in rs && x in Last(r.buildings.fort, 2)
      ensures FortIndex(rs)[x] in FORT_TIERS
    {
      FortIndexed(rs, x);
    }
    forall r, x | r in rs && x in Last(r.buildings.fort, 2)
      ensures x in FortIndex(rs)
    {
      FortCovered(rs, r, x);
    }
  }

  /** An indexed fort id comes from some race's tier table. */
  lemma FortIndexed(rs: seq<RaceMapping>, x: string)
    requires x in FortIndex(rs)
    ensures exists r :: r in rs && x in Last(r.buildings.fort, 2)
    ensures FortIndex(rs)[x] in FORT_TIERS
  {
    var v := FortIndex(rs)[x];
    FlatMapValue(rs, FortTiers, x);
    var r :| r in rs && (x, v) in FortTiers(r);
    TieredMember(Last(r.buildings.fort, 2), FORT_TIERS, (x, v));
  }

  /** Each tiered fort id of a race is indexed. */
  lemma FortCovered(rs: seq<RaceMapping>, r: RaceMapping, x: string)
    requires r in rs && x in Last(r.buildings.fort, 2)
    ensures x in FortIndex(rs)
  {
    var t := TieredCovers(Last(r.buildings.fort, 2), FORT_TIERS, x);
    assert (x, t) in FortTiers(r);
    FlatMapKey(rs, FortTiers, x);
  }

  /** An entry of a tier table pairs one of the ids with one of the tiers. */
  lemma TieredMember(ids: seq<string>, tiers: seq<PlayerEvent>, e: (string, PlayerEvent))
    requires |ids| <= |tiers| && e in Tiered(ids, tiers)
    ensures e.0 in ids && e.1 in tiers
  {
    var es := Tiered(ids, tiers);
    var j :| 0 <= j < |es| && es[j] == e;
    assert ids[j] == e.0 && tiers[j] == e.1;
  }

  /** Every id has an entry in its tier table. */
  lemma TieredCovers(ids: seq<string>, tiers: seq<PlayerEvent>, x: string) returns (t: PlayerEvent)
    requires |ids| <= |tiers| && x in ids
    ensures (x, t) in Tiered(ids, tiers)
  {
    var j :| 0 <= j < |ids| && ids[j] == x;
    t := tiers[j];
    assert Tiered(ids, tiers)[j] == (x, t);
  }

  /** When no id is given two tiers, the first of a race's last two forts maps
      to `UP_FORT2` and the second to `UP_FORT3`. */
  lemma FortTiersPositional(rs: seq<RaceMapping>, r: RaceMapping, j: nat)
    requires Functional(FortEntries(rs))
    requires r in rs && j < |Last(r.buildings.fort, 2)|
    ensures Last(r.buildings.fort, 2)[j] in FortIndex(rs)
    ensures FortIndex(rs)[Last(r.buildings.fort, 2)[j]] == FORT_TIERS[j]
  {
    FlatMapEntry(rs, FortTiers, r, FortTiers(r)[j]);
  }

  /** Every ultimate key and variant id is indexed, always to a key; when no
      id belongs to two groups, each maps to its own group's key. */
  lemma UltimatesToKey(us: seq<(string, seq<string>)>)
    ensures forall x :: x in UltimateIndex(us) <==>
      exists u :: u in us && (x == u.0 || x in u.1)
    ensures forall x :: x in UltimateIndex(us) ==>
      exists u :: u in us && UltimateIndex(us)[x] == u.0
    ensures Functional(UltimateEntries(us)) ==>
      forall u, x :: u in us && (x == u.0 || x in u.1) ==> UltimateIndex(us)[x] == u.0
  {
    var m := UltimateIndex(us);
    forall x | x in m
      ensures exists u :: u in us && (x == u.0 || x in u.1) && m[x] == u.0
    {
      FlatMapValue(us, UltimateGroup, x);
    }
    forall u, x | u in us && (x == u.0 || x in u.1)
      ensures x in m
    {
      assert (x, u.0) in UltimateGroup(u);
      FlatMapKey(us, UltimateGroup, x);
    }
    if Functional(UltimateEntries(us)) {
      forall u, x | u in us && (x == u.0 || x in u.1)
        ensures m[x] == u.0
      {
        FlatMapEntry(us, UltimateGroup, u, (x, u.0));
      }
    }
  }

  /** The ids a race owns (heroes, units, buildings) are indexed, each to a
      race that owns it; to the only owner when no id is shared. */
  lemma RaceByUnitOwner(rs: seq<RaceMapping>)
    ensures forall x :: x in OwnerIndex(rs) <==> exists r :: r in rs && x in OwnedIds(r)
    ensures forall x :: x in OwnerIndex(rs) ==>
      exists r :: r in rs && x in OwnedIds(r) && OwnerIndex(rs)[x] == r.id
    ensures Functional(OwnerEntries(rs)) ==>
      forall r, x :: r in rs && x in OwnedIds(r) ==> OwnerIndex(rs)[x] == r.id
  {
    var m := OwnerIndex(rs);
    forall x | x in m
      ensures exists r :: r in rs && x in OwnedIds(r) && m[x] == r.id
    {
      FlatMapValue(rs, OwnerPairs, x);
    }
    forall r, x | r in rs && x in OwnedIds(r)
      ensures x in m
    {
      assert (x, r.id) in OwnerPairs(r);
      FlatMapKey(rs, OwnerPairs, x);
    }
    if Functional(OwnerEntries(rs)) {
      forall r, x | r in rs && x in OwnedIds(r)
        ensures m[x] == r.id
      {
        FlatMapEntry(rs, OwnerPairs, r, (x, r.id));
      }
    }
  }

  /** A race's bonus picker is indexed to a race with that picker. */
  lemma RaceByPickerOwner(rs: seq<RaceMapping>)
    ensures forall x :: x in PickerIndex(rs) <==> exists r :: r in rs && r.bonusPicker == x
    ensures forall x :: x in PickerIndex(rs) ==>
      exists r :: r in rs && r.bonusPicker == x && PickerIndex(rs)[x] == r.id
  {
    var m := PickerIndex(rs);
    forall x | x in m
      ensures exists r :: r in rs && r.bonusPicker == x && m[x] == r.id
    {
      FlatMapValue(rs, PickerPair, x);
    }
    forall r | r in rs
      ensures r.bonusPicker in m
    {
      assert (r.bonusPicker, r.id) in PickerPair(r);
      FlatMapKey(rs, PickerPair, r.bonusPicker);
    }
  }

  /** The bonus-item index has exactly the item ids of the races'
      item-to-bonus tables, each with a bonus one of those tables gives it. */
  lemma BonusByUnitEntries(rs: seq<RaceMapping>)
    ensures forall x :: x in BonusItemIndex(rs) <==>
      exists r :: r in rs && Get(r.bonusByItemId, x).Some?
    ensures forall x :: x in BonusItemIndex(rs) ==>
      exists r :: r in rs && (x, BonusItemIndex(rs)[x]) in r.bonusByItemId
  {
    var m := BonusItemIndex(rs);
    forall x | x in m
      ensures exists r :: r in rs && (x, m[x]) in r.bonusByItemId && Get(r.bonusByItemId, x).Some?
    {
      FlatMapValue(rs, BonusItems, x);
      var r :| r in rs && (x, m[x]) in r.bonusByItemId;
      var i :| 0 <= i < |r.bonusByItemId| && r.bonusByItemId[i] == (x, m[x]);
    }
    forall r, x | r in rs && Get(r.bonusByItemId, x).Some?
      ensures x in m
    {
      var i :| 0 <= i < |r.bonusByItemId| && r.bonusByItemId[i].0 == x;
      assert r.bonusByItemId[i] in BonusItems(r);
      FlatMapKey(rs, BonusItems, x);
    }
  }

  /** When no item is given two bonuses, every entry of every race's table is
      in the index. */
  lemma BonusByUnitExact(rs: seq<RaceMapping>)
    requires Functional(BonusItemEntries(rs))
    ensures forall r, e :: r in rs && e in r.bonusByItemId ==>
      e.0 in BonusItemIndex(rs) && BonusItemIndex(rs)[e.0] == e.1
  {
    var es := BonusItemEntries(rs);
    FunctionalEntries(es);
    forall r, e | r in rs && e in r.bonusByItemId
      ensures e in es
    {
      assert e in BonusItems(r);
      FlatMapMember(rs, BonusItems, e);
    }
  }
}
