/** The shape of the static reference data the panels read: class templates,
    each class's starting skills and the shop's listing. Its contents are not
    part of this model; every operation takes it as a parameter. */
module GameData {
  import opened GameTypes

  /** The base stats a class template carries. */
  datatype BaseStats = BaseStats(
    health: int, mana: int, strength: int, intelligence: int, agility: int, defense: int)

  /** A class template: its display name and base stats. */
  datatype ClassInfo = ClassInfo(name: string, baseStats: BaseStats)

  datatype Catalog = Catalog(
    classData: CharacterClass -> ClassInfo,
    initialSkills: CharacterClass -> seq<Skill>,
    shopItems: seq<InventoryItem>)
}
