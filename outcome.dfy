/** What a transition hands back: either the record to install, or the reason
    it returned early without calling the update callback. */
module Outcomes {
  import opened GameTypes

  datatype Rejection =
    | ItemNotFound       // the shop has no item with that id
    | InsufficientFunds  // gold below the price or cost
    | LevelTooLow        // character level below a skill's required level
    | SkillNotFound      // the character has no skill with that id
    | SkillMaxed         // the skill is already at its maximum level
    | NotAWeapon         // only weapons can be equipped
    | SlotEmpty          // nothing to take off

  datatype Outcome = Updated(next: Character) | Rejected(reason: Rejection)

  /** The record held after the action: a rejected action leaves it as it was. */
  function After(c: Character, o: Outcome): Character
  {
    if o.Updated? then o.next else c
  }
}
