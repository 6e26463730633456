// scripts/blood-curse/curse-detection.js: which Blood Curses an actor knows
// (from its features, or from its level) and which curse items it may use.
//
// The detector is a loop that pushes keys into a list, each push guarded by
// `includes`. It is written here as a method whose result is tied to a fold
// over the features (`KnownFromFeatures`); the properties of the detector are
// proved about the fold. The fold takes the curse table as a parameter so
// that the older generation, which carries its own copy of the table, shares
// it.

module CurseDetection {
  import opened Common
  import opened Documents
  import opened CurseRegistry
  import Utils
  import MaledictResources

  // ------------------------------------------------------------ matching

  /** The keyword table of the detector (`curseKeywords[key]`). */
  function Keywords(key: string): seq<string>
  {
    if key == "binding" then ["binding", "bind"]
    else if key == "marked" then ["marked", "mark"]
    else if key == "anxious" then ["anxious", "anxiety"]
    else if key == "eyeless" then ["eyeless", "blind"]
    else if key == "fallen_puppet" then ["fallen puppet", "puppet"]
    else if key == "bloated_agony" then ["bloated agony", "agony"]
    else if key == "corrosion" then ["corrosion", "corrode"]
    else if key == "exorcism" then ["exorcism", "exorcise"]
    else []
  }

  /** `name.includes(word) || description.includes(word)` */
  predicate Mentions(name: string, description: string, word: string)
  {
    Contains(name, word) || Contains(description, word)
  }

  /** One feature against one curse: its lowercased name or description holds
      the lowercased curse name, the key, or one of the key's keywords. */
  predicate KeyMatches(f: Item, c: CurseInfo)
  {
    var name := Lower(f.name);
    var description := Lower(f.description);
    Mentions(name, description, Lower(c.name)) || Mentions(name, description, c.key) ||
    exists q :: 0 <= q < |Keywords(c.key)| && Mentions(name, description, Keywords(c.key)[q])
  }

  /** The keys of `table` that one feature matches, in table order. */
  function MatchedKeys(table: seq<CurseInfo>, f: Item): seq<string>
  {
    if |table| == 0 then []
    else
      var last := table[|table| - 1];
      MatchedKeys(table[..|table| - 1], f) + (if KeyMatches(f, last) then [last.key] else [])
  }

  /** The `bloodCurse` flag's contribution: its `curseType` when set. */
  function FlagContribution(f: Item): seq<string>
  {
    if f.flags.IsBloodCurse() && f.flags.CurseType() != "" then [f.flags.CurseType()] else []
  }

  /** Everything one feature pushes, in push order. */
  function Contribution(table: seq<CurseInfo>, f: Item): seq<string>
  {
    MatchedKeys(table, f) + FlagContribution(f)
  }

  // ------------------------------------------------------ the fold

  /** Guarded pushes of every element of `ks`, in order. */
  function AddAll(acc: seq<string>, ks: seq<string>): seq<string>
  {
    if |ks| == 0 then acc else AddIfAbsent(AddAll(acc, ks[..|ks| - 1]), ks[|ks| - 1])
  }

  /** The list `getKnownCursesFromFeatures` returns for these items. */
  function KnownFromFeatures(table: seq<CurseInfo>, items: seq<Item>): seq<string>
  {
    if |items| == 0 then []
    else
      var prev := KnownFromFeatures(table, items[..|items| - 1]);
      var f := items[|items| - 1];
      if f.IsFeatOrFeature() then AddAll(prev, Contribution(table, f)) else prev
  }

  lemma {:induction false} AddAllConcat(acc: seq<string>, a: seq<string>, b: seq<string>)
    ensures AddAll(acc, a + b) == AddAll(AddAll(acc, a), b)
    decreases |b|
  {
    if |b| == 0 {
      assert a + b == a;
    } else {
      assert (a + b)[..|a + b| - 1] == a + b[..|b| - 1];
      AddAllConcat(acc, a, b[..|b| - 1]);
    }
  }

  lemma MatchedKeysStep(table: seq<CurseInfo>, j: nat, f: Item, acc: seq<string>)
    requires j < |table|
    ensures AddAll(acc, MatchedKeys(table[..j + 1], f)) ==
      (if KeyMatches(f, table[j]) then AddIfAbsent(AddAll(acc, MatchedKeys(table[..j], f)), table[j].key)
       else AddAll(acc, MatchedKeys(table[..j], f)))
  {
    assert table[..j + 1][..j] == table[..j];
    var m := MatchedKeys(table[..j], f);
    var tail := if KeyMatches(f, table[j]) then [table[j].key] else [];
    assert MatchedKeys(table[..j + 1], f) == m + tail;
    AddAllConcat(acc, m, tail);
    if KeyMatches(f, table[j]) {
      assert tail[..0] == [];
    }
  }

  /** One pass of the detector's inner loop: the checks of one feature
      against one curse, and the guarded push of its key. */
  method MatchCurse(feature: Item, name: string, description: string, c: CurseInfo, known: seq<string>)
    returns (after: seq<string>)
    requires name == Lower(feature.name) && description == Lower(feature.description)
    ensures after == if KeyMatches(feature, c) then AddIfAbsent(known, c.key) else known
  {
    after := known;
    var key := c.key;
    var curseName := Lower(c.name);
    if Contains(name, curseName) || Contains(name, key) ||
       Contains(description, curseName) || Contains(description, key) {
      if key !in after {
        after := after + [key];
      }
    }
    var keywords := Keywords(key);
    var q := 0;
    while q < |keywords|
      invariant 0 <= q <= |keywords|
      invariant after == if Mentions(name, description, curseName) || Mentions(name, description, key) ||
                            (exists p :: 0 <= p < q && Mentions(name, description, keywords[p]))
                         then AddIfAbsent(known, key) else known
    {
      if Contains(name, keywords[q]) || Contains(description, keywords[q]) {
        if key !in after {
          after := after + [key];
        }
      }
      q := q + 1;
    }
  }

  // ------------------------------------------------------ the detector

  /** `getKnownCursesFromFeatures(actor)` over the actor's items and a curse table. */
  method GetKnownCursesFromFeatures(table: seq<CurseInfo>, items: seq<Item>) returns (known: seq<string>)
    ensures known == KnownFromFeatures(table, items)
  {
    known := [];
    var i := 0;
    while i < |items|
      invariant 0 <= i <= |items|
      invariant known == KnownFromFeatures(table, items[..i])
    {
      var feature := items[i];
      assert items[..i + 1][..i] == items[..i];
      if feature.IsFeatOrFeature() {
        var name := Lower(feature.name);
        var description := Lower(feature.description);
        ghost var start := known;
        var j := 0;
        while j < |table|
          invariant 0 <= j <= |table|
          invariant known == AddAll(start, MatchedKeys(table[..j], feature))
        {
          MatchedKeysStep(table, j, feature, start);
          known := MatchCurse(feature, name, description, table[j], known);
          j := j + 1;
        }
        assert table[..|table|] == table;
        if feature.flags.IsBloodCurse() {
          var curseType := feature.flags.CurseType();
          if curseType != "" && curseType !in known {
            known := known + [curseType];
          }
        }
        AddAllConcat(start, MatchedKeys(table, feature), FlagContribution(feature));
      }
      i := i + 1;
    }
    assert items[..|items|] == items;
  }

  // ------------------------------------------------ properties of the fold

  lemma {:induction false} AddAllMembers(acc: seq<string>, ks: seq<string>)
    ensures forall x :: x in AddAll(acc, ks) <==> x in acc || x in ks
  {
    if |ks| > 0 {
      AddAllMembers(acc, ks[..|ks| - 1]);
      assert ks == ks[..|ks| - 1] + [ks[|ks| - 1]];
    }
  }

  lemma {:induction false} AddAllDistinct(acc: seq<string>, ks: seq<string>)
    requires Distinct(acc)
    ensures Distinct(AddAll(acc, ks))
  {
    if |ks| > 0 {
      AddAllDistinct(acc, ks[..|ks| - 1]);
    }
  }

  /** The detector never reports a curse twice. */
  lemma {:induction false} KnownNoDuplicates(table: seq<CurseInfo>, items: seq<Item>)
    ensures Distinct(KnownFromFeatures(table, items))
  {
    if |items| > 0 {
      KnownNoDuplicates(table, items[..|items| - 1]);
      var f := items[|items| - 1];
      if f.IsFeatOrFeature() {
        AddAllDistinct(KnownFromFeatures(table, items[..|items| - 1]), Contribution(table, f));
      }
    }
  }

  /** As a set, the result is the union of the features' contributions. */
  lemma {:induction false} KnownMembers(table: seq<CurseInfo>, items: seq<Item>, x: string)
    ensures x in KnownFromFeatures(table, items) <==>
      exists k :: 0 <= k < |items| && items[k].IsFeatOrFeature() && x in Contribution(table, items[k])
  {
    if |items| > 0 {
      var init := items[..|items| - 1];
      var f := items[|items| - 1];
      KnownMembers(table, init, x);
      if f.IsFeatOrFeature() {
        AddAllMembers(KnownFromFeatures(table, init), Contribution(table, f));
      }
      assert forall k :: 0 <= k < |init| ==> init[k] == items[k];
    }
  }

  lemma {:induction false} MatchedKeysMembers(table: seq<CurseInfo>, f: Item, x: string)
    ensures x in MatchedKeys(table, f) <==> exists j :: 0 <= j < |table| && table[j].key == x && KeyMatches(f, table[j])
  {
    if |table| > 0 {
      var init := table[..|table| - 1];
      MatchedKeysMembers(init, f, x);
      assert forall j :: 0 <= j < |init| ==> init[j] == table[j];
    }
  }

  /** Every detected curse is a key of the table or the `curseType` flag of a
      feature that carries the `bloodCurse` flag. */
  lemma KnownDrawnFromTable(table: seq<CurseInfo>, items: seq<Item>, x: string)
    requires x in KnownFromFeatures(table, items)
    ensures x in Keys(table) ||
      exists k :: 0 <= k < |items| && items[k].IsFeatOrFeature() && items[k].flags.IsBloodCurse() &&
        items[k].flags.CurseType() == x
  {
    KnownMembers(table, items, x);
    var k :| 0 <= k < |items| && items[k].IsFeatOrFeature() && x in Contribution(table, items[k]);
    MatchedKeysMembers(table, items[k], x);
  }

  /** Adding features never removes a curse: whatever `a` yields, any list of
      items holding all of `a`'s items yields too. */
  lemma KnownMonotone(table: seq<CurseInfo>, a: seq<Item>, b: seq<Item>)
    requires forall k :: 0 <= k < |a| ==> a[k] in b
    ensures forall x :: x in KnownFromFeatures(table, a) ==> x in KnownFromFeatures(table, b)
  {
    forall x | x in KnownFromFeatures(table, a)
      ensures x in KnownFromFeatures(table, b)
    {
      KnownMembers(table, a, x);
      var k :| 0 <= k < |a| && a[k].IsFeatOrFeature() && x in Contribution(table, a[k]);
      var m :| 0 <= m < |b| && b[m] == a[k];
      KnownMembers(table, b, x);
    }
  }

  /** Only features count: the detector ignores every other item. */
  lemma OnlyFeaturesContribute(table: seq<CurseInfo>, items: seq<Item>, other: Item)
    requires !other.IsFeatOrFeature()
    ensures KnownFromFeatures(table, items + [other]) == KnownFromFeatures(table, items)
  {
    assert (items + [other])[..|items|] == items;
  }

  /** Case-insensitive keyword matching: any feature whose name contains
      "mark" (in any letter case) makes `marked` known. */
  lemma MarkedFromName(items: seq<Item>, k: nat)
    requires k < |items| && items[k].IsFeatOrFeature() && Contains(Lower(items[k].name), "mark")
    ensures "marked" in KnownFromFeatures(CurseTypes, items)
  {
    MarkKeyword();
    KnownFromKeyword(CurseTypes, items, k, 1, 1);
  }

  /** A feature mentioning one of a table entry's keywords makes that
      entry's key known. */
  lemma KnownFromKeyword(table: seq<CurseInfo>, items: seq<Item>, k: nat, j: nat, q: nat)
    requires k < |items| && items[k].IsFeatOrFeature()
    requires j < |table| && q < |Keywords(table[j].key)|
    requires Mentions(Lower(items[k].name), Lower(items[k].description), Keywords(table[j].key)[q])
    ensures table[j].key in KnownFromFeatures(table, items)
  {
    var f := items[k];
    KeywordMatches(f, table[j], q);
    MatchedKeysMembers(table, f, table[j].key);
    assert table[j].key in Contribution(table, f);
    KnownMembers(table, items, table[j].key);
  }

  /** The registry's second entry is `marked`, whose second keyword is
      "mark". */
  lemma MarkKeyword()
    ensures |CurseTypes| > 1 && CurseTypes[1].key == "marked"
    ensures |Keywords(CurseTypes[1].key)| == 2 && Keywords(CurseTypes[1].key)[1] == "mark"
  {
    RegistryKeys();
    assert CurseTypes[1].key == Keys(CurseTypes)[1];
  }

  /** A mention of one of the curse's keywords is a match. */
  lemma KeywordMatches(f: Item, c: CurseInfo, q: nat)
    requires q < |Keywords(c.key)| && Mentions(Lower(f.name), Lower(f.description), Keywords(c.key)[q])
    ensures KeyMatches(f, c)
  {
  }

  // ------------------------------------------------------------- by level

  /** `getKnownCursesByLevel(level)` */
  function KnownCursesByLevel(level: int): seq<string>
  {
    (if level >= 1 then ["binding", "marked", "anxious"] else []) +
    (if level >= 6 then ["eyeless", "fallen_puppet"] else []) +
    (if level >= 10 then ["bloated_agony"] else []) +
    (if level >= 14 then ["corrosion"] else []) +
    (if level >= 18 then ["exorcism"] else [])
  }

  /** A registry curse is in the level list exactly when its unlock level is
      reached, and the list holds nothing else. */
  lemma ByLevelMatchesRegistry(level: int)
    ensures forall k :: 0 <= k < |CurseTypes| ==>
      (CurseTypes[k].key in KnownCursesByLevel(level) <==> CurseTypes[k].level <= level)
    ensures forall x :: x in KnownCursesByLevel(level) ==> x in Keys(CurseTypes)
    ensures Distinct(KnownCursesByLevel(level))
  {
    RegistryKeys();
    var keys := Keys(CurseTypes);
    var n := if level < 1 then 0 else if level < 6 then 3 else if level < 10 then 5
             else if level < 14 then 6 else if level < 18 then 7 else 8;
    assert KnownCursesByLevel(level) == keys[..n];
    DistinctPrefix(keys, n);
  }

  /** A prefix of a list without repeats has none either, and holds an
      entry of the list exactly when the entry sits before the cut. */
  lemma DistinctPrefix(s: seq<string>, n: nat)
    requires Distinct(s) && n <= |s|
    ensures Distinct(s[..n])
    ensures forall k :: 0 <= k < |s| ==> (s[k] in s[..n] <==> k < n)
  {
    forall k | 0 <= k < |s| && s[k] in s[..n]
      ensures k < n
    {
      var j :| 0 <= j < n && s[..n][j] == s[k];
      assert s[j] == s[k];
    }
  }

  /** Empty below level 1, the three first-level curses up to level 5, and
      from one level to a higher one the list only grows at its end. */
  lemma ByLevelShape(lo: int, hi: int)
    requires lo <= hi
    ensures lo < 1 ==> KnownCursesByLevel(lo) == []
    ensures 1 <= lo < 6 ==> KnownCursesByLevel(lo) == ["binding", "marked", "anxious"]
    ensures StartsWithSeq(KnownCursesByLevel(hi), KnownCursesByLevel(lo))
  {
  }

  predicate StartsWithSeq(s: seq<string>, p: seq<string>)
  {
    |p| <= |s| && s[..|p|] == p
  }

  // ----------------------------------------------------- mode and filter

  /** `game.settings.get(MODULE_ID, 'curseDetectionMode') || 'auto'` */
  function EffectiveMode(setting: string): string
  {
    if setting == "" then "auto" else setting
  }

  /** The curse list `getAvailableCurses` filters with. */
  function KnownForMode(table: seq<CurseInfo>, items: seq<Item>, level: int, mode: string): seq<string>
  {
    var detected := if mode == "features" || mode == "auto" then KnownFromFeatures(table, items) else [];
    if mode == "auto" && |detected| == 0 then KnownCursesByLevel(level)
    else if mode == "level" then KnownCursesByLevel(level)
    else detected
  }

  /** "level" uses only the level list, "features" only the detector with no
      fallback, "auto" falls back to the level list only when the detector
      finds nothing, and any other mode knows no curse. */
  lemma ModeSelection(table: seq<CurseInfo>, items: seq<Item>, level: int, mode: string)
    ensures mode == "level" ==> KnownForMode(table, items, level, mode) == KnownCursesByLevel(level)
    ensures mode == "features" ==> KnownForMode(table, items, level, mode) == KnownFromFeatures(table, items)
    ensures mode == "auto" && |KnownFromFeatures(table, items)| == 0 ==>
      KnownForMode(table, items, level, mode) == KnownCursesByLevel(level)
    ensures mode == "auto" && |KnownFromFeatures(table, items)| > 0 ==>
      KnownForMode(table, items, level, mode) == KnownFromFeatures(table, items)
    ensures mode !in ["level", "features", "auto"] ==> KnownForMode(table, items, level, mode) == []
  {
  }

  /** The test of the filter in `getAvailableCurses`, with the charge check
      passed in as `usable`. */
  predicate Eligible(i: Item, level: int, known: seq<string>, timing: string, usable: bool)
  {
    i.IsFeat() && i.flags.IsBloodCurse() &&
    (timing == "" || i.flags.Timing() == timing) &&
    i.flags.CurseType() in known &&
    level >= (if i.flags.MinLevel() == 0 then 1 else i.flags.MinLevel()) &&
    usable
  }

  /** `actor.items.filter(...)`: the eligible items in their original order. */
  function FilterCurses(items: seq<Item>, level: int, known: seq<string>, timing: string,
                        usable: Item -> bool): (r: seq<Item>)
    ensures |r| <= |items|
    ensures forall x :: x in r <==> x in items && Eligible(x, level, known, timing, usable(x))
    ensures (forall k :: 0 <= k < |items| ==> !usable(items[k])) ==> r == []
  {
    if |items| == 0 then []
    else
      var init := items[..|items| - 1];
      var last := items[|items| - 1];
      assert items == init + [last];
      FilterCurses(init, level, known, timing, usable) +
        (if Eligible(last, level, known, timing, usable(last)) then [last] else [])
  }

  /** The filter keeps order and multiplicity: filtering a concatenation
      is filtering each part in turn. */
  lemma {:induction false} FilterCursesAppend(a: seq<Item>, b: seq<Item>, level: int, known: seq<string>,
                                              timing: string, usable: Item -> bool)
    ensures FilterCurses(a + b, level, known, timing, usable) ==
      FilterCurses(a, level, known, timing, usable) + FilterCurses(b, level, known, timing, usable)
  {
    if |b| == 0 {
      assert a + b == a;
    } else {
      var init := b[..|b| - 1];
      var last := b[|b| - 1];
      assert (a + b)[..|a + b| - 1] == a + init;
      assert (a + b)[|a + b| - 1] == last;
      FilterCursesAppend(a, init, level, known, timing, usable);
      var tail := if Eligible(last, level, known, timing, usable(last)) then [last] else [];
      AppendAssoc(FilterCurses(a, level, known, timing, usable), FilterCurses(init, level, known, timing, usable),
                  tail);
    }
  }

  /** A single item is kept, once, exactly when it is eligible. */
  lemma FilterCursesOne(i: Item, level: int, known: seq<string>, timing: string, usable: Item -> bool)
    ensures FilterCurses([i], level, known, timing, usable) ==
      (if Eligible(i, level, known, timing, usable(i)) then [i] else [])
  {
    assert [i][..0] == [];
  }

  /** `getAvailableCurses(actor, timing)`; `setting` is the detection-mode
      setting and `timing` is "" for no timing filter. */
  function AvailableCurses(items: seq<Item>, setting: string, timing: string): seq<Item>
  {
    var level := Utils.BloodHunterLevelOf(items);
    var known := KnownForMode(CurseTypes, items, level, EffectiveMode(setting));
    FilterCurses(items, level, known, timing, (i: Item) => MaledictResources.HasUsesRemaining(items))
  }

  /** Every returned item is a usable curse feat of a known type whose
      timing and minimum level fit; since the charge check ignores the item,
      it passes for every candidate or for none. */
  lemma AvailableCursesSound(items: seq<Item>, setting: string, timing: string)
    ensures var level := Utils.BloodHunterLevelOf(items);
      var known := KnownForMode(CurseTypes, items, level, EffectiveMode(setting));
      forall x :: x in AvailableCurses(items, setting, timing) <==>
        x in items && Eligible(x, level, known, timing, MaledictResources.HasUsesRemaining(items))
    ensures !MaledictResources.HasUsesRemaining(items) ==> AvailableCurses(items, setting, timing) == []
  {
  }
}
