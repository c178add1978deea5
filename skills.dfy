/** The skill tree (src/components/SkillsPanel.tsx): unlocking a skill,
    upgrading it, and the price its button shows. */
module Skills {
  import opened GameTypes
  import opened Outcomes
  import opened Seqs

  function SkillIdIs(id: string): Skill -> bool
  {
    (s: Skill) => s.id == id
  }

  function MarkUnlocked(): Skill -> Skill
  {
    (s: Skill) => s.(unlocked := true, level := 1)
  }

  function RaiseLevel(): Skill -> Skill
  {
    (s: Skill) => s.(level := s.level + 1)
  }

  /** The gold an upgrade costs: the base cost times the level it reaches. */
  function UpgradeCost(s: Skill): (r: int)
    ensures s.cost >= 0 && s.level >= 0 ==> 0 <= s.cost <= r
  {
    assert s.cost >= 0 && s.level >= 0 ==> s.cost * (s.level + 1) == s.cost * s.level + s.cost;
    s.cost * (s.level + 1)
  }

  /** The price on the skill's button: the base cost while locked, the upgrade
      cost once unlocked. */
  function ShownPrice(s: Skill): int
  {
    if s.unlocked then UpgradeCost(s) else s.cost
  }

  /** Unlocking the first skill with id `skillId`. An unknown id is ignored;
      the level requirement is checked before the gold; on success every skill
      with that id becomes unlocked at level 1, whatever it was before, the
      cost is paid, and nothing else changes. */
  function UnlockSkill(c: Character, skillId: string): (r: Outcome)
    ensures r == Rejected(SkillNotFound) <==>
              forall k :: 0 <= k < |c.skills| ==> c.skills[k].id != skillId
    ensures Find(c.skills, SkillIdIs(skillId)).Some? ==>
              var s := Find(c.skills, SkillIdIs(skillId)).value;
              && s in c.skills && s.id == skillId
              && (c.level < s.requiredLevel ==> r == Rejected(LevelTooLow))
              && (c.level >= s.requiredLevel && c.gold < s.cost ==> r == Rejected(InsufficientFunds))
              && (c.level >= s.requiredLevel && c.gold >= s.cost ==>
                    && r.Updated?
                    && r.next == c.(gold := c.gold - s.cost, skills := r.next.skills)
                    && r.next.gold >= 0)
    ensures r.Updated? ==>
              && |r.next.skills| == |c.skills|
              && forall k :: 0 <= k < |c.skills| ==>
                   r.next.skills[k] == if c.skills[k].id == skillId
                                       then c.skills[k].(unlocked := true, level := 1)
                                       else c.skills[k]
  {
    match Find(c.skills, SkillIdIs(skillId))
    case None => Rejected(SkillNotFound)
    case Some(s) =>
      if c.level < s.requiredLevel then Rejected(LevelTooLow)
      else if c.gold < s.cost then Rejected(InsufficientFunds)
      else Updated(c.(gold := c.gold - s.cost,
                      skills := UpdateWhere(c.skills, SkillIdIs(skillId), MarkUnlocked())))
  }

  /** Upgrading the first skill with id `skillId`. An unknown id or a skill at
      its maximum is ignored, and so is the `unlocked` flag; the upgrade costs
      the base cost times the next level; on success every skill with that id
      goes up exactly one level, the cost is paid, and nothing else changes. */
  function UpgradeSkill(c: Character, skillId: string): (r: Outcome)
    ensures r == Rejected(SkillNotFound) <==>
              forall k :: 0 <= k < |c.skills| ==> c.skills[k].id != skillId
    ensures Find(c.skills, SkillIdIs(skillId)).Some? ==>
              var s := Find(c.skills, SkillIdIs(skillId)).value;
              && s in c.skills && s.id == skillId
              && (s.level >= s.maxLevel ==> r == Rejected(SkillMaxed))
              && (s.level < s.maxLevel && c.gold < UpgradeCost(s) ==> r == Rejected(InsufficientFunds))
              && (s.level < s.maxLevel && c.gold >= UpgradeCost(s) ==>
                    && r.Updated?
                    && r.next == c.(gold := c.gold - UpgradeCost(s), skills := r.next.skills)
                    && r.next.gold >= 0)
    ensures r.Updated? ==>
              && |r.next.skills| == |c.skills|
              && forall k :: 0 <= k < |c.skills| ==>
                   r.next.skills[k] == if c.skills[k].id == skillId
                                       then c.skills[k].(level := c.skills[k].level + 1)
                                       else c.skills[k]
  {
    match Find(c.skills, SkillIdIs(skillId))
    case None => Rejected(SkillNotFound)
    case Some(s) =>
      if s.level >= s.maxLevel then Rejected(SkillMaxed)
      else if c.gold < UpgradeCost(s) then Rejected(InsufficientFunds)
      else Updated(c.(gold := c.gold - UpgradeCost(s),
                      skills := UpdateWhere(c.skills, SkillIdIs(skillId), RaiseLevel())))
  }

  /** In a list of distinct ids, the skill found for an id is the one at its index. */
  lemma FindsTheSkillAt(skills: seq<Skill>, k: nat)
    requires k < |skills| && DistinctSkillIds(skills)
    ensures Find(skills, SkillIdIs(skills[k].id)) == Some(skills[k])
  {
    var r := Find(skills, SkillIdIs(skills[k].id));
    assert r.Some? by {
      assert SkillIdIs(skills[k].id)(skills[k]);
    }
    var j :| 0 <= j < |skills| && skills[j] == r.value && SkillIdIs(skills[k].id)(skills[j]);
    assert j == k;
  }

  /** Unlocking keeps every skill in range and the ids distinct. */
  lemma UnlockKeepsSkillsConsistent(c: Character, skillId: string)
    requires SkillsConsistent(c.skills)
    ensures SkillsConsistent(After(c, UnlockSkill(c, skillId)).skills)
  {
    var r := UnlockSkill(c, skillId);
    if r.Updated? {
      assert forall k :: 0 <= k < |c.skills| ==> r.next.skills[k].id == c.skills[k].id;
      assert forall k :: 0 <= k < |c.skills| ==> SkillInRange(r.next.skills[k]);
    }
  }

  /** Upgrading keeps every skill in range: the level only rises when it is
      below the maximum, and with distinct ids only that skill changes. */
  lemma UpgradeKeepsSkillsConsistent(c: Character, skillId: string)
    requires SkillsConsistent(c.skills)
    ensures SkillsConsistent(After(c, UpgradeSkill(c, skillId)).skills)
  {
    var r := UpgradeSkill(c, skillId);
    if r.Updated? {
      assert forall k :: 0 <= k < |c.skills| ==> r.next.skills[k].id == c.skills[k].id;
      forall k | 0 <= k < |c.skills| ensures SkillInRange(r.next.skills[k]) {
        if c.skills[k].id == skillId {
          FindsTheSkillAt(c.skills, k);
        }
      }
    }
  }

  /** The upgrade does not look at `unlocked`: a locked skill below its
      maximum is raised one level and stays locked. */
  lemma UpgradeIgnoresLock(c: Character, k: nat)
    requires k < |c.skills| && DistinctSkillIds(c.skills)
    requires !c.skills[k].unlocked && c.skills[k].level < c.skills[k].maxLevel
    requires c.gold >= UpgradeCost(c.skills[k])
    ensures var r := UpgradeSkill(c, c.skills[k].id);
            && r.Updated?
            && !r.next.skills[k].unlocked
            && r.next.skills[k].level == c.skills[k].level + 1
  {
    FindsTheSkillAt(c.skills, k);
  }

  /** Unlocking does not look at `unlocked` either: unlocking a skill again
      charges the base cost again and puts it back to level 1. */
  lemma UnlockAgainResetsLevel(c: Character, k: nat)
    requires k < |c.skills| && DistinctSkillIds(c.skills)
    requires c.skills[k].unlocked
    requires c.level >= c.skills[k].requiredLevel && c.gold >= c.skills[k].cost
    ensures var r := UnlockSkill(c, c.skills[k].id);
            && r.Updated?
            && r.next.gold == c.gold - c.skills[k].cost
            && r.next.skills[k].level == 1
  {
    FindsTheSkillAt(c.skills, k);
  }

  /** What the skill's button does: unlock while locked, upgrade once unlocked. */
  function ButtonAction(c: Character, k: nat): Outcome
    requires k < |c.skills|
  {
    if c.skills[k].unlocked then UpgradeSkill(c, c.skills[k].id) else UnlockSkill(c, c.skills[k].id)
  }

  /** The price on a skill's button is exactly what its action charges, and
      the action fails for lack of gold exactly when the shown price is more
      than the character's gold (for a locked skill whose level requirement
      is met; for an unlocked one below its maximum). */
  lemma ShownPriceIsCharged(c: Character, k: nat)
    requires k < |c.skills| && DistinctSkillIds(c.skills)
    requires c.skills[k].unlocked ==> c.skills[k].level < c.skills[k].maxLevel
    requires !c.skills[k].unlocked ==> c.level >= c.skills[k].requiredLevel
    ensures var r := ButtonAction(c, k);
            && (r == Rejected(InsufficientFunds) <==> c.gold < ShownPrice(c.skills[k]))
            && (r.Updated? ==> r.next.gold == c.gold - ShownPrice(c.skills[k]))
  {
    FindsTheSkillAt(c.skills, k);
  }

  /** Whether the skill's button can be clicked: a locked skill's button needs
      the level requirement and the base cost; an unlocked skill's button is
      disabled at the maximum level and needs the upgrade cost otherwise. */
  predicate ButtonEnabled(c: Character, k: nat)
    requires k < |c.skills|
  {
    var s := c.skills[k];
    var canAfford := c.gold >= ShownPrice(s);
    if !s.unlocked then c.level >= s.requiredLevel && canAfford
    else s.level < s.maxLevel && canAfford
  }

  /** With distinct skill ids the button is enabled exactly when its action
      would succeed: the disabled states match the rejections one for one. */
  lemma ButtonEnabledIffActionSucceeds(c: Character, k: nat)
    requires k < |c.skills| && DistinctSkillIds(c.skills)
    ensures ButtonEnabled(c, k) <==> ButtonAction(c, k).Updated?
  {
    FindsTheSkillAt(c.skills, k);
  }
}
