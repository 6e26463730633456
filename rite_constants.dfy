// scripts/crimson-rite/constants.js: the Crimson Rite table of the refactored
// folder, in the order of its keys, and the level filter both generations of
// `getAvailableRites` apply to their table.

module RiteConstants {
  import opened Common

  datatype RiteInfo = RiteInfo(key: string, damageType: string, level: int)

  const RiteTypes: seq<RiteInfo> := [
    RiteInfo("flame", "fire", 1),
    RiteInfo("frozen", "cold", 1),
    RiteInfo("storm", "lightning", 1),
    RiteInfo("dead", "necrotic", 14),
    RiteInfo("oracle", "psychic", 14),
    RiteInfo("roar", "thunder", 14)
  ]

  /** The keys of a rite table, or of any list of rites, in order. */
  function RiteKeys(table: seq<RiteInfo>): (r: seq<string>)
    ensures |r| == |table|
    ensures forall k :: 0 <= k < |table| ==> r[k] == table[k].key
  {
    KeysOf(table, (e: RiteInfo) => e.key)
  }

  /** `RITE_TYPES[key]`: the first entry with that key. */
  function LookupRite(table: seq<RiteInfo>, key: string): (r: Option<RiteInfo>)
    ensures r.Some? ==> r.value in table && r.value.key == key
    ensures r.None? <==> key !in RiteKeys(table)
  {
    if |table| == 0 then None
    else if table[0].key == key then Some(table[0])
    else
      assert RiteKeys(table) == [table[0].key] + RiteKeys(table[1..]);
      LookupRite(table[1..], key)
  }

  /** Six rites with distinct keys and pairwise distinct damage types; the
      three elemental rites unlock at level 1 and the other three at 14, and
      no entry has any other level. */
  lemma RiteTable()
    ensures RiteKeys(RiteTypes) == ["flame", "frozen", "storm", "dead", "oracle", "roar"]
    ensures forall i, j :: 0 <= i < j < |RiteTypes| ==>
      RiteTypes[i].key != RiteTypes[j].key && RiteTypes[i].damageType != RiteTypes[j].damageType
    ensures forall k :: 0 <= k < |RiteTypes| ==> (RiteTypes[k].level == 1 <==> k < 3)
    ensures forall k :: 0 <= k < |RiteTypes| ==> RiteTypes[k].level == 1 || RiteTypes[k].level == 14
  {
  }

  // ------------------------------------------------------- level filter

  /** The entries `for (const [key, value] of Object.entries(table)) if
      (level >= value.level) available[key] = value` collects, in table order. */
  function UnlockedRites(table: seq<RiteInfo>, level: int): (r: seq<RiteInfo>)
    ensures |r| <= |table|
    ensures forall x :: x in r <==> x in table && x.level <= level
  {
    if |table| == 0 then []
    else
      var init := table[..|table| - 1];
      var last := table[|table| - 1];
      assert table == init + [last];
      UnlockedRites(init, level) + (if last.level <= level then [last] else [])
  }

  /** The loop that fills `available` with the entries the level unlocks. */
  method CollectUnlocked(table: seq<RiteInfo>, level: int) returns (available: seq<RiteInfo>)
    ensures available == UnlockedRites(table, level)
  {
    available := [];
    var i := 0;
    while i < |table|
      invariant 0 <= i <= |table|
      invariant available == UnlockedRites(table[..i], level)
    {
      assert table[..i + 1][..i] == table[..i];
      if level >= table[i].level {
        available := available + [table[i]];
      }
      i := i + 1;
    }
    assert table[..|table|] == table;
  }

  /** Raising the level only adds rites: the lower level's list is kept. */
  lemma {:induction false} UnlockedMonotone(table: seq<RiteInfo>, lo: int, hi: int)
    requires lo <= hi
    ensures forall x :: x in UnlockedRites(table, lo) ==> x in UnlockedRites(table, hi)
    ensures |UnlockedRites(table, lo)| <= |UnlockedRites(table, hi)|
  {
    if |table| > 0 {
      UnlockedMonotone(table[..|table| - 1], lo, hi);
    }
  }

  /** A table whose levels are all at least 1 unlocks nothing at level 0. */
  lemma UnlockedAtZero(table: seq<RiteInfo>)
    requires forall k :: 0 <= k < |table| ==> table[k].level >= 1
    ensures UnlockedRites(table, 0) == []
  {
  }
}
