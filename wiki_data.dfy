/** `WikiDataService`, the read side: which files of the wiki repository tree
    are data files and how they are grouped by map version, how a file's
    JSON becomes the stored value, and how the stored rows of one map version
    become a `WikiDataMapping`. */
module WikiData {
  import opened Wrappers
  import opened Js
  import opened GameData

  // ---------------------------------------------------------------------------
  // fetchTree

  datatype TreeFile = TreeFile(path: string, sha: string, url: string)

  /** A blob of the tree: its content hash and its API url. */
  datatype Blob = Blob(sha: string, url: string)

  /** One data file: `data/<type>/<version>/<key>.json`. */
  datatype Entry = Entry(kind: string, version: string, key: string, blob: Blob)

  /** Files and folders that hold no game data. */
  const SKIP_KEYS: seq<string> := ["artifacts", "misc", "changelogs"]

  predicate StartsWith(s: string, prefix: string) {
    |prefix| <= |s| && s[..|prefix|] == prefix
  }

  predicate EndsWith(s: string, suffix: string) {
    |suffix| <= |s| && s[|s| - |suffix|..] == suffix
  }

  predicate IsDataPath(path: string) {
    StartsWith(path, "data") && EndsWith(path, ".json")
  }

  /** Array destructuring: a missing element is `undefined`, which becomes the
      text "undefined" once it is used as a property name. */
  function Part(parts: seq<string>, i: nat): string {
    if i < |parts| then parts[i] else "undefined"
  }

  /** The entry of a tree file, or `None` when the file is not a data file or
      its type or key is skipped. */
  function EntryOf(f: TreeFile): Option<Entry> {
    if !IsDataPath(f.path) then None
    else
      var parts := Split(StripLastExtension(f.path), '/');
      var e := Entry(Part(parts, 1), Part(parts, 2), Part(parts, 3), Blob(f.sha, f.url));
      if e.key in SKIP_KEYS || e.kind in SKIP_KEYS then None else Some(e)
  }

  function Entries(files: seq<TreeFile>): (es: seq<Entry>)
    ensures forall e :: e in es <==> exists f :: f in files && EntryOf(f) == Some(e)
  {
    if files == [] then []
    else
      var init := files[..|files| - 1];
      var f := files[|files| - 1];
      assert forall g :: g in files <==> g in init || g == f;
      Entries(init) + (match EntryOf(f) case Some(e) => [e] case None => [])
  }

  /** The `dataKey` of an entry: `<type>_<version>`. */
  function DataKey(e: Entry): string {
    e.kind + "_" + e.version
  }

  /** The files of each `dataKey`, by key, as the `reduce` builds them. */
  type Groups = seq<(string, seq<(string, Blob)>)>

  function GroupOf(g: Groups, dataKey: string): seq<(string, Blob)> {
    match Get(g, dataKey)
    case Some(items) => items
    case None => []
  }

  function Group(es: seq<Entry>): Groups {
    if es == [] then []
    else
      var acc := Group(es[..|es| - 1]);
      var e := es[|es| - 1];
      Put(acc, DataKey(e), Put(GroupOf(acc, DataKey(e)), e.key, e.blob))
  }

  /** Entry `i` is the last one for its `dataKey` and key. */
  predicate LastForKey(es: seq<Entry>, i: nat)
    requires i < |es|
  {
    forall j :: i < j < |es| ==> DataKey(es[j]) != DataKey(es[i]) || es[j].key != es[i].key
  }

  /** The last entry for a `dataKey` and key is the one kept. */
  lemma {:induction false} GroupLast(es: seq<Entry>, i: nat)
    requires i < |es| && LastForKey(es, i)
    ensures Get(GroupOf(Group(es), DataKey(es[i])), es[i].key) == Some(es[i].blob)
  {
    if i < |es| - 1 {
      var init := es[..|es| - 1];
      assert LastForKey(init, i);
      GroupLast(init, i);
    }
  }

  /** Every grouped file comes from an entry with that `dataKey` and key. */
  lemma {:induction false} GroupFrom(es: seq<Entry>, dataKey: string, key: string)
    requires Get(GroupOf(Group(es), dataKey), key).Some?
    ensures exists e :: (e in es && DataKey(e) == dataKey && e.key == key
      && e.blob == Get(GroupOf(Group(es), dataKey), key).value)
  {
    var init := es[..|es| - 1];
    var e := es[|es| - 1];
    if DataKey(e) == dataKey && e.key == key {
      assert e in es;
    } else {
      GroupFrom(init, dataKey, key);
      var e' :| e' in init && DataKey(e') == dataKey && e'.key == key
        && e'.blob == Get(GroupOf(Group(init), dataKey), key).value;
      assert e' in es;
    }
  }

  datatype Tree = Tree(files: seq<TreeFile>, truncated: bool)

  /** `fetchTree`: a truncated listing is an error. */
  function FetchTree(t: Tree): (r: Result<Groups, string>)
    ensures t.truncated <==> r.Err?
  {
    if t.truncated then Err("Too many files") else Ok(Group(Entries(t.files)))
  }

  /** A grouped file comes from a data file of the tree whose type and key
      are not skipped, and the last such file for a `dataKey` and key wins. */
  lemma FetchTreeSpec(t: Tree, dataKey: string, key: string)
    requires FetchTree(t).Ok? && Get(GroupOf(FetchTree(t).value, dataKey), key).Some?
    ensures exists f, e :: (f in t.files && EntryOf(f) == Some(e) && IsDataPath(f.path)
      && e.key !in SKIP_KEYS && e.kind !in SKIP_KEYS && DataKey(e) == dataKey && e.key == key)
  {
    GroupFrom(Entries(t.files), dataKey, key);
    var e :| e in Entries(t.files) && DataKey(e) == dataKey && e.key == key
      && e.blob == Get(GroupOf(Group(Entries(t.files)), dataKey), key).value;
    var f :| f in t.files && EntryOf(f) == Some(e);
  }

  /** Stripping the extension of `<stem>.json` gives the stem back. */
  lemma StripJson(stem: string)
    ensures StripLastExtension(stem + ".json") == stem
  {
    var path := stem + ".json";
    var r := StripLastExtension(path);
    assert path[|stem|] == '.';
    assert path[|stem| + 1..] == "json";
    assert |r| == |stem|;
  }

  lemma JoinPath(kind: string, version: string, key: string)
    ensures Join(["data", kind, version, key], '/') == "data/" + kind + "/" + version + "/" + key
  {
    var parts := ["data", kind, version, key];
    assert Join(parts[3..], '/') == key;
    assert Join(parts[2..], '/') == version + "/" + key;
    assert Join(parts[1..], '/') == kind + "/" + version + "/" + key;
  }

  /** The path of a data file is read back into its type, version and key. */
  lemma {:induction false} EntryOfPath(kind: string, version: string, key: string, sha: string, url: string)
    requires '/' !in kind && '/' !in version && '/' !in key
    requires key !in SKIP_KEYS && kind !in SKIP_KEYS
    ensures EntryOf(TreeFile("data/" + kind + "/" + version + "/" + key + ".json", sha, url))
      == Some(Entry(kind, version, key, Blob(sha, url)))
  {
    assert StartsWith("data/" + kind + "/" + version + "/" + key, "data");
    var stem := "data/" + kind + "/" + version + "/" + key;
    var parts := ["data", kind, version, key];
    DataPath(stem);
    StripJson(stem);
    JoinPath(kind, version, key);
    SplitJoin(parts, '/');
    assert Split(StripLastExtension(stem + ".json"), '/') == parts;
  }

  lemma DataPath(stem: string)
    requires StartsWith(stem, "data")
    ensures IsDataPath(stem + ".json")
  {
    var path := stem + ".json";
    assert path[..4] == stem[..4];
    assert path[|path| - 5..] == ".json";
  }

  // ---------------------------------------------------------------------------
  // handleContent

  /** Any wiki object with an `id` (`pickId`). */
  datatype WikiItem = WikiItem(id: string)

  datatype RawBonus = RawBonus(
    id: string,
    units: Option<seq<WikiItem>>,
    heroes: Option<seq<WikiItem>>,
    upgrades: Option<seq<WikiItem>>,
    spells: Option<seq<WikiItem>>)

  datatype RawBaseUpgrades = RawBaseUpgrades(melee: WikiItem, armor: WikiItem, range: WikiItem, wall: WikiItem)

  datatype RawUnits = RawUnits(
    melee: WikiItem, range: WikiItem, mage: WikiItem, siege: WikiItem, air: WikiItem, catapult: WikiItem)

  datatype RawBuildings = RawBuildings(tower: WikiItem, fort: seq<WikiItem>, barrack: seq<WikiItem>)

  datatype RawRace = RawRace(
    id: string,
    key: string,
    auras: seq<WikiItem>,
    t1spell: WikiItem,
    t2spell: WikiItem,
    magic: seq<WikiItem>,
    baseUpgrades: RawBaseUpgrades,
    bonuses: seq<RawBonus>,
    towerUpgrades: seq<WikiItem>,
    units: RawUnits,
    heroes: seq<WikiItem>,
    bonusPickerId: string,
    buildings: RawBuildings)

  /** The `data` of a wiki JSON file, in the three shapes the service reads. */
  datatype RawFile =
    | RacesFile(groups: seq<(string, seq<WikiItem>)>)
    | UltimatesFile(spells: seq<(string, seq<WikiItem>)>)
    | RaceFile(race: RawRace)

  /** The value stored for a key. */
  datatype Content =
    | RaceIds(ids: seq<string>)
    | UltimateIds(groups: seq<(string, seq<string>)>)
    | Race(mapping: RaceMapping)

  function Ids(items: seq<WikiItem>): (r: seq<string>)
    ensures |r| == |items| && forall i :: 0 <= i < |r| ==> r[i] == items[i].id
  {
    if items == [] then [] else Ids(items[..|items| - 1]) + [items[|items| - 1].id]
  }

  function OrEmpty(o: Option<seq<WikiItem>>): seq<WikiItem> {
    match o
    case Some(items) => items
    case None => []
  }

  /** The unit, hero, upgrade and spell ids of a bonus. */
  function BonusItemIds(b: RawBonus): seq<string> {
    Ids(OrEmpty(b.units) + OrEmpty(b.heroes) + OrEmpty(b.upgrades) + OrEmpty(b.spells))
  }

  function BonusEntries(b: RawBonus): seq<(string, string)> {
    var ids := BonusItemIds(b);
    seq(|ids|, i requires 0 <= i < |ids| => (ids[i], b.id))
  }

  function UltimateEntry(e: (string, seq<WikiItem>)): seq<(string, seq<string>)> {
    [(e.0, Ids(e.1))]
  }

  /** `Object.fromEntries(Object.entries(spells).map(...))`. */
  function UltimateIndex(spells: seq<(string, seq<WikiItem>)>): seq<(string, seq<string>)> {
    FromEntries(FlatMap(spells, UltimateEntry))
  }

  /** `bonusByItemId`. */
  function BonusIndex(bonuses: seq<RawBonus>): seq<(string, string)> {
    FromEntries(FlatMap(bonuses, BonusEntries))
  }

  function RaceMappingOf(d: RawRace): RaceMapping {
    RaceMapping(
      d.id, d.key, Ids(d.auras), Ids(d.magic),
      BaseUpgrades(d.baseUpgrades.melee.id, d.baseUpgrades.armor.id, d.baseUpgrades.range.id, d.baseUpgrades.wall.id),
      Ids(d.towerUpgrades), Ids(d.heroes), Ids(Bonuses(d.bonuses)),
      Buildings(d.buildings.tower.id, Last(Ids(d.buildings.fort), 3), Ids(d.buildings.barrack)),
      Units(d.units.melee.id, d.units.range.id, d.units.mage.id, d.units.siege.id, d.units.air.id, d.units.catapult.id),
      d.t1spell.id, d.t2spell.id, d.bonusPickerId,
      BonusIndex(d.bonuses))
  }

  /** The bonuses as items, for `pickId`. */
  function Bonuses(bs: seq<RawBonus>): (r: seq<WikiItem>)
    ensures |r| == |bs| && forall i :: 0 <= i < |r| ==> r[i].id == bs[i].id
  {
    if bs == [] then [] else Bonuses(bs[..|bs| - 1]) + [WikiItem(bs[|bs| - 1].id)]
  }

  /** The kind of content a file key holds: `handleContent` switches on it. */
  datatype Kind = RacesKind | UltimatesKind | RaceKind

  function KindOf(key: string): Kind {
    if key == "races" then RacesKind
    else if key == "ultimates" then UltimatesKind
    else RaceKind
  }

  predicate HasKind(c: Content, k: Kind) {
    match c
    case RaceIds(_) => k == RacesKind
    case UltimateIds(_) => k == UltimatesKind
    case Race(_) => k == RaceKind
  }

  /** `handleContent(key, file)`. A file whose shape does not match its key
      is refused; the source's `races` branch instead turns any file into a
      list of possibly undefined ids, which has no value here. */
  function HandleContent(key: string, f: RawFile): (r: Option<Content>)
    ensures r.Some? ==> HasKind(r.value, KindOf(key))
    ensures r.Some? <==> match f
      case RacesFile(_) => KindOf(key) == RacesKind
      case UltimatesFile(_) => KindOf(key) == UltimatesKind
      case RaceFile(_) => KindOf(key) == RaceKind
  {
    match f
    case RacesFile(groups) =>
      if KindOf(key) == RacesKind then Some(RaceIds(Ids(Flatten(Values(groups))))) else None
    case UltimatesFile(spells) =>
      if KindOf(key) == UltimatesKind then Some(UltimateIds(UltimateIndex(spells))) else None
    case RaceFile(d) =>
      if KindOf(key) == RaceKind then Some(Race(RaceMappingOf(d))) else None
  }

  /** The races file becomes the ids of all races of all groups. */
  lemma RacesContent(groups: seq<(string, seq<WikiItem>)>, x: string)
    ensures var c := HandleContent("races", RacesFile(groups));
      x in c.value.ids <==> exists i, j :: 0 <= i < |groups| && 0 <= j < |groups[i].1| && groups[i].1[j].id == x
  {
    var items := Flatten(Values(groups));
    var ids := Ids(items);
    if x in ids {
      var k :| 0 <= k < |ids| && ids[k] == x;
      assert items[k] in items;
      var i :| 0 <= i < |Values(groups)| && items[k] in Values(groups)[i];
      var j :| 0 <= j < |groups[i].1| && groups[i].1[j] == items[k];
    }
    if exists i, j :: 0 <= i < |groups| && 0 <= j < |groups[i].1| && groups[i].1[j].id == x {
      var i, j :| 0 <= i < |groups| && 0 <= j < |groups[i].1| && groups[i].1[j].id == x;
      assert groups[i].1[j] in Values(groups)[i];
      assert groups[i].1[j] in items;
      var k :| 0 <= k < |items| && items[k] == groups[i].1[j];
      assert ids[k] == x;
    }
  }

  /** The ultimates file maps each spell key to the ids of its variants; a key
      listed twice keeps its last list. */
  lemma UltimatesContent(spells: seq<(string, seq<WikiItem>)>, i: nat)
    requires i < |spells| && forall j :: i < j < |spells| ==> spells[j].0 != spells[i].0
    ensures Get(UltimateIndex(spells), spells[i].0) == Some(Ids(spells[i].1))
  {
    var es := FlatMap(spells, UltimateEntry);
    UltimateEntries(spells);
    assert es[i] == (spells[i].0, Ids(spells[i].1));
    FromEntriesLast(es, i);
  }

  lemma {:induction false} UltimateEntries(spells: seq<(string, seq<WikiItem>)>)
    ensures |FlatMap(spells, UltimateEntry)| == |spells|
    ensures forall i :: 0 <= i < |spells| ==> FlatMap(spells, UltimateEntry)[i] == (spells[i].0, Ids(spells[i].1))
  {
    if spells != [] {
      var init := spells[..|spells| - 1];
      UltimateEntries(init);
      var es := FlatMap(spells, UltimateEntry);
      assert es == FlatMap(init, UltimateEntry) + UltimateEntry(spells[|spells| - 1]);
      forall i | 0 <= i < |spells|
        ensures es[i] == (spells[i].0, Ids(spells[i].1))
      {
        if i < |init| {
          assert es[i] == FlatMap(init, UltimateEntry)[i];
          assert init[i] == spells[i];
        }
      }
    }
  }

  /** A race keeps the last three fort ids. */
  lemma RaceForts(d: RawRace)
    ensures var fort := RaceMappingOf(d).buildings.fort;
      && |fort| == (if |d.buildings.fort| < 3 then |d.buildings.fort| else 3)
      && forall i :: 0 <= i < |fort| ==> fort[i] == d.buildings.fort[|d.buildings.fort| - |fort| + i].id
  {
  }

  /** `bonusByItemId` holds exactly the item ids of the bonuses. */
  lemma BonusIndexKeys(bonuses: seq<RawBonus>, x: string)
    ensures Get(BonusIndex(bonuses), x).Some? <==> exists b :: b in bonuses && x in BonusItemIds(b)
  {
    if Get(BonusIndex(bonuses), x).Some? {
      BonusIndexValue(bonuses, x);
    }
    if exists b :: b in bonuses && x in BonusItemIds(b) {
      var b :| b in bonuses && x in BonusItemIds(b);
      BonusIndexCovers(bonuses, b, x);
    }
  }

  lemma BonusIndexCovers(bonuses: seq<RawBonus>, b: RawBonus, x: string)
    requires b in bonuses && x in BonusItemIds(b)
    ensures Get(BonusIndex(bonuses), x).Some?
  {
    var es := FlatMap(bonuses, BonusEntries);
    var k :| 0 <= k < |BonusItemIds(b)| && BonusItemIds(b)[k] == x;
    assert BonusEntries(b)[k] == (x, b.id);
    FlatMapMember(bonuses, BonusEntries, (x, b.id));
    var i :| 0 <= i < |es| && es[i] == (x, b.id);
    assert Keys(es)[i] == x;
  }

  /** Each item id is mapped to a bonus that lists it. */
  lemma BonusIndexValue(bonuses: seq<RawBonus>, x: string)
    requires Get(BonusIndex(bonuses), x).Some?
    ensures exists b :: b in bonuses && x in BonusItemIds(b) && b.id == Get(BonusIndex(bonuses), x).value
  {
    var es := FlatMap(bonuses, BonusEntries);
    FromEntriesValue(es, x);
    BonusEntriesFrom(bonuses, x, Get(BonusIndex(bonuses), x).value);
  }

  /** An entry of `bonusByItemId` pairs an item id with a bonus listing it. */
  lemma {:induction false} BonusEntriesFrom(bonuses: seq<RawBonus>, x: string, v: string)
    requires (x, v) in FlatMap(bonuses, BonusEntries)
    ensures exists b :: b in bonuses && x in BonusItemIds(b) && b.id == v
  {
    var init := bonuses[..|bonuses| - 1];
    var last := bonuses[|bonuses| - 1];
    if (x, v) in FlatMap(init, BonusEntries) {
      BonusEntriesFrom(init, x, v);
      var b :| b in init && x in BonusItemIds(b) && b.id == v;
      assert b in bonuses;
    } else {
      var entries := BonusEntries(last);
      assert (x, v) in entries;
      var k :| 0 <= k < |entries| && entries[k] == (x, v);
      assert BonusItemIds(last)[k] == x;
      assert last in bonuses;
    }
  }

  // ---------------------------------------------------------------------------
  // uncachedGetData

  /** A stored `wikiData` row of one `dataKey`. */
  datatype Row = Row(key: string, data: Content)

  /** Property names of a plain object that `in` finds besides its own:
      those inherited from Object.prototype. */
  const OBJECT_PROTOTYPE_NAMES: set<string> := {
    "constructor", "__defineGetter__", "__defineSetter__", "__lookupGetter__",
    "__lookupSetter__", "__proto__", "hasOwnProperty", "isPrototypeOf",
    "propertyIsEnumerable", "toLocaleString", "toString", "valueOf"}

  /** Why `uncachedGetData` gives no mapping: there were no rows, or a row
      overwrote a property in a way the `WikiDataMapping` shape cannot hold
      (a key `raceData` or an inherited name, or content of the wrong
      kind). */
  datatype DataError = NoData | OffShape(key: string)

  /** `item.key in acc` for the accumulator `{ raceData, races, ultimates }`. */
  predicate IsAccumulatorKey(key: string) {
    key in {"raceData", "races", "ultimates"} || key in OBJECT_PROTOTYPE_NAMES
  }

  /** One step of the `reduce`. */
  function Accumulate(acc: Result<WikiDataMapping, DataError>, row: Row): Result<WikiDataMapping, DataError> {
    match acc
    case Err(e) => Err(e)
    case Ok(m) =>
      if IsAccumulatorKey(row.key) then
        match row.data
        case RaceIds(ids) => if row.key == "races" then Ok(m.(races := ids)) else Err(OffShape(row.key))
        case UltimateIds(gs) => if row.key == "ultimates" then Ok(m.(ultimates := gs)) else Err(OffShape(row.key))
        case Race(_) => Err(OffShape(row.key))
      else
        match row.data
        case Race(r) => Ok(m.(raceData := Put(m.raceData, r.id, r)))
        case _ => Err(OffShape(row.key))
  }

  function Reduce(rows: seq<Row>): Result<WikiDataMapping, DataError> {
    if rows == [] then Ok(WikiDataMapping([], [], []))
    else Accumulate(Reduce(rows[..|rows| - 1]), rows[|rows| - 1])
  }

  /** `uncachedGetData`: no rows is an error. */
  function UncachedGetData(rows: seq<Row>): (r: Result<WikiDataMapping, DataError>)
    ensures rows == [] <==> r == Err(NoData)
  {
    if rows == [] then Err(NoData) else ReduceNoNoData(rows); Reduce(rows)
  }

  lemma {:induction false} ReduceNoNoData(rows: seq<Row>)
    ensures Reduce(rows) != Err(NoData)
  {
    if rows != [] {
      ReduceNoNoData(rows[..|rows| - 1]);
    }
  }

  /** A row a `WikiDataService` wrote: its content has the kind of its key. */
  predicate WellKinded(row: Row) {
    HasKind(row.data, KindOf(row.key))
  }

  /** Rows written by the service and keyed by file names other than
      `raceData` and the inherited names always give a mapping. */
  lemma {:induction false} ReduceOk(rows: seq<Row>)
    requires forall i :: 0 <= i < |rows| ==> (WellKinded(rows[i]) && rows[i].key != "raceData"
      && rows[i].key !in OBJECT_PROTOTYPE_NAMES)
    ensures Reduce(rows).Ok?
  {
    if rows != [] {
      ReduceOk(rows[..|rows| - 1]);
    }
  }

  /** One step of the `reduce` on the races: only a row keyed `races` sets
      them, and it must hold race ids. */
  lemma AccumulateRaces(acc: Result<WikiDataMapping, DataError>, row: Row)
    requires Accumulate(acc, row).Ok?
    ensures acc.Ok?
    ensures row.key == "races" ==> row.data == RaceIds(Accumulate(acc, row).value.races)
    ensures row.key != "races" ==> Accumulate(acc, row).value.races == acc.value.races
  {
  }

  /** One step of the `reduce` on the ultimates. */
  lemma AccumulateUltimates(acc: Result<WikiDataMapping, DataError>, row: Row)
    requires Accumulate(acc, row).Ok?
    ensures acc.Ok?
    ensures row.key == "ultimates" ==> row.data == UltimateIds(Accumulate(acc, row).value.ultimates)
    ensures row.key != "ultimates" ==> Accumulate(acc, row).value.ultimates == acc.value.ultimates
  {
  }

  /** The races of the mapping are those of the last row keyed `races`. */
  lemma {:induction false} ReduceRacesLast(rows: seq<Row>, i: nat)
    requires Reduce(rows).Ok? && i < |rows| && rows[i].key == "races"
    requires forall j :: i < j < |rows| ==> rows[j].key != "races"
    ensures rows[i].data == RaceIds(Reduce(rows).value.races)
  {
    var init := rows[..|rows| - 1];
    var last := rows[|rows| - 1];
    assert Reduce(rows) == Accumulate(Reduce(init), last);
    AccumulateRaces(Reduce(init), last);
    if i < |init| {
      assert last.key != "races";
      assert init[i] == rows[i];
      assert forall j :: i < j < |init| ==> init[j] == rows[j];
      ReduceRacesLast(init, i);
    }
  }

  /** Without a row keyed `races`, the races list is empty. */
  lemma {:induction false} ReduceRacesNone(rows: seq<Row>)
    requires Reduce(rows).Ok? && forall j :: 0 <= j < |rows| ==> rows[j].key != "races"
    ensures Reduce(rows).value.races == []
  {
    if rows != [] {
      AccumulateRaces(Reduce(rows[..|rows| - 1]), rows[|rows| - 1]);
      ReduceRacesNone(rows[..|rows| - 1]);
    }
  }

  /** The ultimates of the mapping are those of the last row keyed
      `ultimates`. */
  lemma {:induction false} ReduceUltimatesLast(rows: seq<Row>, i: nat)
    requires Reduce(rows).Ok? && i < |rows| && rows[i].key == "ultimates"
    requires forall j :: i < j < |rows| ==> rows[j].key != "ultimates"
    ensures rows[i].data == UltimateIds(Reduce(rows).value.ultimates)
  {
    var init := rows[..|rows| - 1];
    var last := rows[|rows| - 1];
    assert Reduce(rows) == Accumulate(Reduce(init), last);
    AccumulateUltimates(Reduce(init), last);
    if i < |init| {
      assert last.key != "ultimates";
      assert init[i] == rows[i];
      assert forall j :: i < j < |init| ==> init[j] == rows[j];
      ReduceUltimatesLast(init, i);
    }
  }

  /** Without a row keyed `ultimates`, there are no ultimates. */
  lemma {:induction false} ReduceUltimatesNone(rows: seq<Row>)
    requires Reduce(rows).Ok? && forall j :: 0 <= j < |rows| ==> rows[j].key != "ultimates"
    ensures Reduce(rows).value.ultimates == []
  {
    if rows != [] {
      AccumulateUltimates(Reduce(rows[..|rows| - 1]), rows[|rows| - 1]);
      ReduceUltimatesNone(rows[..|rows| - 1]);
    }
  }

  /** A race row of the mapping's race data. */
  predicate RaceRow(row: Row, id: string) {
    row.data.Race? && row.data.mapping.id == id
  }

  /** One step of the `reduce` on the race data. */
  lemma AccumulateRaceData(acc: Result<WikiDataMapping, DataError>, row: Row, id: string)
    requires Accumulate(acc, row).Ok?
    ensures acc.Ok?
    ensures Get(Accumulate(acc, row).value.raceData, id)
      == if RaceRow(row, id) then Some(row.data.mapping) else Get(acc.value.raceData, id)
  {
  }

  /** `raceData` holds exactly the race ids of the race rows. */
  lemma {:induction false} ReduceRaceIds(rows: seq<Row>, id: string)
    requires Reduce(rows).Ok?
    ensures Get(Reduce(rows).value.raceData, id).Some? <==> exists i :: 0 <= i < |rows| && RaceRow(rows[i], id)
  {
    if rows != [] {
      var init := rows[..|rows| - 1];
      assert Reduce(rows) == Accumulate(Reduce(init), rows[|rows| - 1]);
      AccumulateRaceData(Reduce(init), rows[|rows| - 1], id);
      ReduceRaceIds(init, id);
      if exists i :: 0 <= i < |init| && RaceRow(init[i], id) {
        var i :| 0 <= i < |init| && RaceRow(init[i], id);
        assert rows[i] == init[i];
      }
      if exists i :: 0 <= i < |rows| && RaceRow(rows[i], id) {
        var i :| 0 <= i < |rows| && RaceRow(rows[i], id);
        if i < |init| {
          assert init[i] == rows[i];
        }
      }
    }
  }

  /** A race id stored twice keeps its last row. */
  lemma {:induction false} ReduceRaceLast(rows: seq<Row>, i: nat)
    requires Reduce(rows).Ok? && i < |rows| && rows[i].data.Race?
    requires forall j :: i < j < |rows| ==> !RaceRow(rows[j], rows[i].data.mapping.id)
    ensures Get(Reduce(rows).value.raceData, rows[i].data.mapping.id) == Some(rows[i].data.mapping)
  {
    var init := rows[..|rows| - 1];
    var last := rows[|rows| - 1];
    var id := rows[i].data.mapping.id;
    var before := Reduce(init);
    assert Reduce(rows) == Accumulate(before, last);
    AccumulateRaceData(before, last, id);
    if i < |init| {
      assert !RaceRow(last, id);
      assert init[i] == rows[i];
      assert forall j :: i < j < |init| ==> init[j] == rows[j];
      ReduceRaceLast(init, i);
      assert Get(before.value.raceData, id) == Some(rows[i].data.mapping);
    } else {
      assert i == |rows| - 1;
      assert RaceRow(last, id);
    }
  }
}
