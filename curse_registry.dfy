// scripts/blood-curse/curse-registry.js: the table of Blood Curses, in the
// order of its keys (the order `Object.entries` visits them).

module CurseRegistry {
  import opened Common

  datatype CurseInfo = CurseInfo(key: string, name: string, level: int, timing: string, usesHemocraft: bool)

  const CurseTypes: seq<CurseInfo> := [
    CurseInfo("binding", "Blood Curse of Binding", 1, "reaction", true),
    CurseInfo("marked", "Blood Curse of the Marked", 1, "bonus", true),
    CurseInfo("anxious", "Blood Curse of the Anxious", 1, "reaction", false),
    CurseInfo("eyeless", "Blood Curse of the Eyeless", 6, "reaction", false),
    CurseInfo("fallen_puppet", "Blood Curse of the Fallen Puppet", 6, "reaction", false),
    CurseInfo("bloated_agony", "Blood Curse of Bloated Agony", 10, "bonus", true),
    CurseInfo("corrosion", "Blood Curse of Corrosion", 14, "reaction", true),
    CurseInfo("exorcism", "Blood Curse of the Exorcism", 18, "bonus", true)
  ]

  /** The keys of a curse table, in table order. */
  function Keys(table: seq<CurseInfo>): (r: seq<string>)
    ensures |r| == |table|
    ensures forall k :: 0 <= k < |table| ==> r[k] == table[k].key
  {
    KeysOf(table, (e: CurseInfo) => e.key)
  }

  /** `CURSE_TYPES[key]`: the first entry with that key. */
  function Lookup(table: seq<CurseInfo>, key: string): (r: Option<CurseInfo>)
    ensures r.Some? ==> r.value in table && r.value.key == key
    ensures r.None? <==> key !in Keys(table)
  {
    if |table| == 0 then None
    else if table[0].key == key then Some(table[0])
    else
      var rest := Lookup(table[1..], key);
      assert Keys(table) == [table[0].key] + Keys(table[1..]);
      rest
  }

  predicate DistinctKeys(table: seq<CurseInfo>)
  {
    forall i, j :: 0 <= i < j < |table| ==> table[i].key != table[j].key
  }

  /** Exactly eight curses, with distinct keys in this order. */
  lemma RegistryKeys()
    ensures Keys(CurseTypes) == ["binding", "marked", "anxious", "eyeless", "fallen_puppet",
                                 "bloated_agony", "corrosion", "exorcism"]
    ensures DistinctKeys(CurseTypes)
  {
  }

  /** The unlock levels of the rules: three curses at 1, two at 6, then one
      each at 10, 14 and 18. */
  function RuleUnlockLevel(key: string): int
  {
    if key in ["binding", "marked", "anxious"] then 1
    else if key in ["eyeless", "fallen_puppet"] then 6
    else if key == "bloated_agony" then 10
    else if key == "corrosion" then 14
    else 18
  }

  lemma RegistryLevels()
    ensures forall c :: c in CurseTypes ==> c.level == RuleUnlockLevel(c.key)
  {
  }

  /** Every curse is a reaction or a bonus action. */
  lemma RegistryTimings()
    ensures forall c :: c in CurseTypes ==> c.timing == "reaction" || c.timing == "bonus"
  {
  }

  /** Exactly the curses that add a hemocraft die. */
  lemma RegistryHemocraft()
    ensures forall c :: c in CurseTypes ==>
      (c.usesHemocraft <==> c.key in ["binding", "marked", "bloated_agony", "corrosion", "exorcism"])
  {
  }
}
