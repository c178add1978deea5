/** Character creation on class selection (src/pages/Index.tsx). The random
    id and the random number in the display name are parameters. */
module Creation {
  import opened GameTypes
  import opened GameData

  const StartingGold: int := 500
  const FirstLevelExperience: int := 100

  function DigitChar(d: nat): char
    requires d < 10
  {
    (('0' as int) + d) as char
  }

  /** The decimal text of `n`, as a template literal prints an integer. */
  function Decimal(n: nat): (s: string)
    ensures 1 <= |s|
    ensures forall i :: 0 <= i < |s| ==> '0' <= s[i] <= '9'
    ensures n > 0 ==> s[0] != '0'
    ensures |s| == 1 || s[0] != '0'
    decreases n
  {
    if n < 10 then [DigitChar(n)] else Decimal(n / 10) + [DigitChar(n % 10)]
  }

  /** The number a string of decimal digits denotes. */
  function DigitsValue(s: string): nat
    requires forall i :: 0 <= i < |s| ==> '0' <= s[i] <= '9'
  {
    if s == [] then 0
    else DigitsValue(s[..|s| - 1]) * 10 + ((s[|s| - 1] as int) - ('0' as int))
  }

  /** The number in a display name can be read back from its text. */
  lemma {:induction false} DecimalRoundTrip(n: nat)
    ensures DigitsValue(Decimal(n)) == n
  {
    var s := Decimal(n);
    if n >= 10 {
      var q, d := n / 10, n % 10;
      assert s[..|s| - 1] == Decimal(q);
      DecimalRoundTrip(q);
      assert n == q * 10 + d;
    }
  }

  /** `roll` stands for the random integer 0..999 drawn for the name. */
  function CreateCharacter(catalog: Catalog, selected: CharacterClass, id: string, roll: nat)
    : (r: Character)
    ensures r.id == id && r.characterClass == selected
    ensures r.name == catalog.classData(selected).name + " #" + Decimal(roll)
    ensures r.level == 1 && r.experience == 0 && r.experienceToNextLevel == FirstLevelExperience
    ensures r.stats.health == r.stats.maxHealth == catalog.classData(selected).baseStats.health
    ensures r.stats.mana == r.stats.maxMana == catalog.classData(selected).baseStats.mana
    ensures var base := catalog.classData(selected).baseStats;
            && r.stats.strength == base.strength && r.stats.intelligence == base.intelligence
            && r.stats.agility == base.agility && r.stats.defense == base.defense
    ensures r.skills == catalog.initialSkills(selected)
    ensures r.inventory == [] && forall s :: r.equipment.Get(s) == None
    ensures r.gold == StartingGold
  {
    var info := catalog.classData(selected);
    var base := info.baseStats;
    Character(
      id := id,
      name := info.name + " #" + Decimal(roll),
      characterClass := selected,
      level := 1,
      experience := 0,
      experienceToNextLevel := FirstLevelExperience,
      stats := Stats(
        health := base.health, maxHealth := base.health,
        mana := base.mana, maxMana := base.mana,
        strength := base.strength, intelligence := base.intelligence,
        agility := base.agility, defense := base.defense),
      skills := catalog.initialSkills(selected),
      inventory := [],
      equipment := NoEquipment,
      gold := StartingGold)
  }

  /** A new character satisfies every invariant the transitions keep,
      provided the class's starting skills are themselves consistent. */
  lemma CreatedCharacterIsConsistent(catalog: Catalog, selected: CharacterClass, id: string, roll: nat)
    requires SkillsConsistent(catalog.initialSkills(selected))
    ensures Consistent(CreateCharacter(catalog, selected, id, roll))
  {
  }
}
