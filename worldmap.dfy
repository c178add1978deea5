/** The world map (src/components/WorldMapPanel.tsx): five locations gated by
    the character's level, the path drawn between neighbours, the location
    the player has selected, and the reward each location advertises. */
module WorldMap {
  import opened GameTypes

  /** A location on the map; its display name and description are left out. */
  datatype Location = Location(id: string, level: int, icon: string, x: int, y: int, unlocked: bool)

  /** The level thresholds of the five locations, in map order. */
  const Thresholds: seq<int> := [1, 3, 5, 8, 12]

  /** The location table as a character of level `characterLevel` sees it:
      the village is always open, every other location opens at its threshold. */
  function Locations(characterLevel: int): (r: seq<Location>)
    ensures |r| == |Thresholds| == 5
    ensures forall i :: 0 <= i < |r| ==> r[i].level == Thresholds[i]
    ensures r[0].id == "village" && r[1].id == "forest" && r[2].id == "caves"
            && r[3].id == "ruins" && r[4].id == "volcano"
    ensures r[0].unlocked
    ensures forall i :: 1 <= i < |r| ==> (r[i].unlocked <==> characterLevel >= r[i].level)
  {
    [ Location("village", 1, "Home", 20, 70, true),
      Location("forest", 3, "Trees", 40, 50, characterLevel >= 3),
      Location("caves", 5, "Mountain", 60, 40, characterLevel >= 5),
      Location("ruins", 8, "Castle", 75, 60, characterLevel >= 8),
      Location("volcano", 12, "Flame", 85, 30, characterLevel >= 12) ]
  }

  /** The thresholds rise strictly along the map. */
  predicate Ascending(locs: seq<Location>)
  {
    forall i, j :: 0 <= i < j < |locs| ==> locs[i].level < locs[j].level
  }

  /** Every location is open exactly when the level reaches its threshold. */
  predicate GatedBy(locs: seq<Location>, characterLevel: int)
  {
    forall i :: 0 <= i < |locs| ==> (locs[i].unlocked <==> characterLevel >= locs[i].level)
  }

  /** The open locations are an initial segment of the list. */
  predicate UnlockedPrefix(locs: seq<Location>)
  {
    forall i, j :: 0 <= i < j < |locs| && locs[j].unlocked ==> locs[i].unlocked
  }

  /** For any character of level 1 or more, a location is unlocked exactly
      when the level reaches its threshold; the thresholds rise along the map. */
  lemma MapIsGatedByLevel(characterLevel: int)
    requires characterLevel >= 1
    ensures GatedBy(Locations(characterLevel), characterLevel)
    ensures Ascending(Locations(characterLevel))
  {
    var r := Locations(characterLevel);
    assert r[0].level == 1;
  }

  /** In a gated table with rising thresholds the open locations form a prefix. */
  lemma GatedAscendingIsPrefix(locs: seq<Location>, characterLevel: int)
    requires Ascending(locs) && GatedBy(locs, characterLevel)
    ensures UnlockedPrefix(locs)
  {
    forall i, j | 0 <= i < j < |locs| && locs[j].unlocked ensures locs[i].unlocked {
      assert characterLevel >= locs[j].level > locs[i].level;
    }
  }

  /** Whatever the level (even below 1, where only the village's literal
      `true` opens it), the open locations are a prefix of the map. */
  lemma MapUnlocksAPrefix(characterLevel: int)
    ensures UnlockedPrefix(Locations(characterLevel))
  {
    var r := Locations(characterLevel);
    if characterLevel >= 1 {
      MapIsGatedByLevel(characterLevel);
      GatedAscendingIsPrefix(r, characterLevel);
    } else {
      assert forall i :: 1 <= i < |r| ==> !r[i].unlocked;
    }
  }

  /** Raising the level never locks a location again. */
  lemma RaisingLevelKeepsUnlocked(lower: int, higher: int, i: nat)
    requires lower <= higher && i < 5
    requires Locations(lower)[i].unlocked
    ensures Locations(higher)[i].unlocked
  {
    if i > 0 {
      assert higher >= lower >= Locations(lower)[i].level == Locations(higher)[i].level;
    }
  }

  /** The path drawn out of each location: for every location but the last, a
      segment shown as open exactly when the next location is open; none out
      of the last. */
  function Connectors(locs: seq<Location>): (r: seq<Option<bool>>)
    ensures |r| == |locs|
    ensures forall i :: 0 <= i < |locs| ==>
              (r[i].None? <==> i == |locs| - 1)
              && (r[i].Some? ==> (r[i].value <==> locs[i + 1].unlocked))
  {
    seq(|locs|, i requires 0 <= i < |locs| =>
      if i + 1 < |locs| then Some(locs[i + 1].unlocked) else None)
  }

  /** On the map, a path drawn as open joins two open locations. */
  lemma OpenPathJoinsOpenLocations(characterLevel: int, i: nat)
    requires i < 4
    requires Connectors(Locations(characterLevel))[i] == Some(true)
    ensures Locations(characterLevel)[i].unlocked && Locations(characterLevel)[i + 1].unlocked
  {
    MapUnlocksAPrefix(characterLevel);
  }

  /** The reward advertised for exploring a location. */
  function ExperienceReward(loc: Location): int
  {
    loc.level * 50
  }

  function GoldReward(loc: Location): int
  {
    loc.level * 20
  }

  /** Further along the map the advertised rewards grow. */
  lemma RewardsGrowAlongMap(characterLevel: int, i: nat, j: nat)
    requires i < j < 5
    ensures var locs := Locations(characterLevel);
            && ExperienceReward(locs[i]) < ExperienceReward(locs[j])
            && GoldReward(locs[i]) < GoldReward(locs[j])
  {
    var locs := Locations(characterLevel);
    assert locs[i].level < locs[j].level;
  }

  /** Clicking a location: a locked location's button is disabled, so only an
      open location becomes the selection. */
  function SelectLocation(selected: Option<Location>, clicked: Location): (r: Option<Location>)
    ensures clicked.unlocked ==> r == Some(clicked)
    ensures !clicked.unlocked ==> r == selected
  {
    if clicked.unlocked then Some(clicked) else selected
  }

  /** The selection a sequence of clicks leaves, starting from the village. */
  function SelectAll(characterLevel: int, clicks: seq<nat>): Option<Location>
    requires forall k :: 0 <= k < |clicks| ==> clicks[k] < 5
  {
    if clicks == [] then Some(Locations(characterLevel)[0])
    else SelectLocation(SelectAll(characterLevel, clicks[..|clicks| - 1]),
                        Locations(characterLevel)[clicks[|clicks| - 1]])
  }

  /** Whatever the player clicks, the selection is an open location of the map. */
  lemma {:induction false} SelectionIsOpen(characterLevel: int, clicks: seq<nat>)
    requires forall k :: 0 <= k < |clicks| ==> clicks[k] < 5
    ensures var s := SelectAll(characterLevel, clicks);
            s.Some? && s.value.unlocked && s.value in Locations(characterLevel)
  {
    if clicks != [] {
      SelectionIsOpen(characterLevel, clicks[..|clicks| - 1]);
    }
  }
}
