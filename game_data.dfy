/** The per-map-version game data (`WikiDataMapping`, `RaceMapping`): the ids
    of each race's units, heroes, buildings, upgrades, auras and bonuses, the
    list of race ids, and the ultimate-ability groups. Plain objects of the
    source are association lists in insertion order. */
module GameData {
  import opened Js

  datatype BaseUpgrades = BaseUpgrades(melee: string, armor: string, range: string, wall: string)

  datatype Buildings = Buildings(tower: string, fort: seq<string>, barrack: seq<string>)

  datatype Units = Units(
    melee: string, range: string, mage: string, siege: string, air: string, catapult: string)

  datatype RaceMapping = RaceMapping(
    id: string,
    key: string,
    auras: seq<string>,
    magic: seq<string>,
    baseUpgrades: BaseUpgrades,
    towerUpgrades: seq<string>,
    heroes: seq<string>,
    bonuses: seq<string>,
    buildings: Buildings,
    units: Units,
    t1spell: string,
    t2spell: string,
    bonusPicker: string,
    bonusByItemId: seq<(string, string)>)

  /** `raceData` is keyed by race id; `ultimates` maps a canonical spell key to
      the ids of its variants. */
  datatype WikiDataMapping = WikiDataMapping(
    raceData: seq<(string, RaceMapping)>,
    races: seq<string>,
    ultimates: seq<(string, seq<string>)>)

  /** `Object.values(r.baseUpgrades)`, in declaration order. */
  function BaseUpgradeIds(b: BaseUpgrades): seq<string> {
    [b.melee, b.armor, b.range, b.wall]
  }

  /** `Object.values(r.units)`, in declaration order. */
  function UnitIds(u: Units): seq<string> {
    [u.melee, u.range, u.mage, u.siege, u.air, u.catapult]
  }

  /** `Object.values(r.buildings).flatMap(b => Array.isArray(b) ? b : [b])`. */
  function BuildingIds(b: Buildings): seq<string> {
    [b.tower] + b.fort + b.barrack
  }

  /** The race records in `Object.values(gameData.raceData)` order. */
  function Races(g: WikiDataMapping): seq<RaceMapping> {
    Values(g.raceData)
  }
}
