// scripts/crimson-rite/rite-detection.js: which Crimson Rites an actor knows,
// read from its features' module flags and names, and which rites are offered
// under the `riteDetectionMode` setting.
//
// The localized rite names are a parameter `localized`, mapping a rite key to
// the text `game.i18n.localize` gives for it.

module RiteDetection {
  import opened Common
  import opened Documents
  import opened RiteConstants
  import Utils

  // ------------------------------------------------------ the name cleaner

  /** A line terminator: JavaScript's `.` does not match it. */
  predicate IsLineTerminator(c: char)
  {
    c == '\n' || c == '\r' || c == '\U{2028}' || c == '\U{2029}'
  }

  /** A character of the class `\s`. */
  predicate IsJsSpace(c: char)
  {
    c == ' ' || c == '\t' || c == '\n' || c == '\U{B}' || c == '\U{C}' || c == '\r' ||
    c == '\U{A0}' || c == '\U{1680}' || ('\U{2000}' <= c <= '\U{200A}') ||
    c == '\U{2028}' || c == '\U{2029}' || c == '\U{202F}' || c == '\U{205F}' ||
    c == '\U{3000}' || c == '\U{FEFF}'
  }

  /** The first index at or after `from` holding `c`. */
  function IndexOfFrom(s: string, c: char, from: nat): (r: Option<nat>)
    ensures r.Some? ==> from <= r.value < |s| && s[r.value] == c
    ensures r.Some? ==> forall j :: from <= j < r.value ==> s[j] != c
    ensures r.None? ==> forall j :: from <= j < |s| ==> s[j] != c
    decreases |s| - from
  {
    if from >= |s| then None
    else if s[from] == c then Some(from)
    else IndexOfFrom(s, c, from + 1)
  }

  /** Where `\s*` started at `i` stops: the end of the run of spaces. */
  function SpaceRunEnd(s: string, i: nat): (j: nat)
    requires i <= |s|
    ensures i <= j <= |s|
    ensures forall k :: i <= k < j ==> IsJsSpace(s[k])
    ensures j == |s| || !IsJsSpace(s[j])
    decreases |s| - i
  {
    if i < |s| && IsJsSpace(s[i]) then SpaceRunEnd(s, i + 1) else i
  }

  /** The start of the run of spaces that ends just before `p`. */
  function SpaceRunStart(s: string, p: nat): (i: nat)
    requires p <= |s|
    ensures i <= p
    ensures forall k :: i <= k < p ==> IsJsSpace(s[k])
    ensures i == 0 || !IsJsSpace(s[i - 1])
  {
    if p > 0 && IsJsSpace(s[p - 1]) then SpaceRunStart(s, p - 1) else p
  }

  /** `\([^)]*\).*$` matches at `p`: an opening parenthesis, the first closing
      one after it, and no line terminator from there to the end of the text. */
  predicate ParenGroupAt(s: string, p: nat)
  {
    p < |s| && s[p] == '(' &&
    match IndexOfFrom(s, ')', p + 1)
    case None => false
    case Some(q) => forall k :: q < k < |s| ==> !IsLineTerminator(s[k])
  }

  /** The whole expression matches starting at `i`. A `\s*` that stops short
      of its run cannot be followed by `(`, so only the longest run counts. */
  predicate MatchStartsAt(s: string, i: nat)
    requires i <= |s|
  {
    ParenGroupAt(s, SpaceRunEnd(s, i))
  }

  /** The leftmost position at or after `i` where the expression matches. */
  function LeftmostMatch(s: string, i: nat): (r: Option<nat>)
    requires i <= |s|
    ensures r.Some? ==> i <= r.value < |s| && MatchStartsAt(s, r.value)
    ensures r.Some? ==> forall k :: i <= k < r.value ==> !MatchStartsAt(s, k)
    ensures r.None? ==> forall k :: i <= k <= |s| ==> !MatchStartsAt(s, k)
    decreases |s| - i
  {
    if MatchStartsAt(s, i) then Some(i)
    else if i == |s| then None
    else LeftmostMatch(s, i + 1)
  }

  /** `text.replace(/\s*\([^)]*\).*$/, '')`: the text before the leftmost
      match, or the whole text when nothing matches. */
  function CleanName(s: string): (r: string)
    ensures |r| <= |s| && r == s[..|r|]
  {
    match LeftmostMatch(s, 0)
    case None => s
    case Some(i) => s[..i]
  }

  /** When the first parenthesised group that reaches the end of the line is
      at `p`, cleaning keeps the text before `p` and the spaces in front of it. */
  lemma CleanNameAtGroup(s: string, p: nat)
    requires ParenGroupAt(s, p)
    requires forall k :: 0 <= k < p ==> !ParenGroupAt(s, k)
    ensures CleanName(s) == s[..SpaceRunStart(s, p)]
  {
    var i := SpaceRunStart(s, p);
    assert SpaceRunEnd(s, i) == p;
    assert MatchStartsAt(s, i);
    forall k | 0 <= k < i
      ensures !MatchStartsAt(s, k)
    {
      assert SpaceRunEnd(s, k) < i;
    }
    var r := LeftmostMatch(s, 0);
    assert r.Some? && r.value == i;
  }

  /** Without any such group the text is unchanged. */
  lemma CleanNameWithoutGroup(s: string)
    requires forall p :: 0 <= p < |s| ==> !ParenGroupAt(s, p)
    ensures CleanName(s) == s
  {
  }

  /** On a single line: when the first `(` has a later `)`, the spaces before
      that `(` and everything after are removed; otherwise the text is kept. */
  lemma CleanNameSingleLine(s: string)
    requires forall k :: 0 <= k < |s| ==> !IsLineTerminator(s[k])
    ensures IndexOfFrom(s, '(', 0).None? ==> CleanName(s) == s
    ensures IndexOfFrom(s, '(', 0).Some? ==>
      var p := IndexOfFrom(s, '(', 0).value;
      CleanName(s) == if IndexOfFrom(s, ')', p + 1).Some? then s[..SpaceRunStart(s, p)] else s
  {
    match IndexOfFrom(s, '(', 0)
    case None =>
      CleanNameWithoutGroup(s);
    case Some(p) =>
      if IndexOfFrom(s, ')', p + 1).Some? {
        CleanNameAtGroup(s, p);
      } else {
        forall p' | 0 <= p' < |s|
          ensures !ParenGroupAt(s, p')
        {
          if s[p'] == '(' {
            assert p <= p';
          }
        }
        CleanNameWithoutGroup(s);
      }
  }

  /** The lower-cased, cleaned localized name of a rite. */
  function CleanedName(localized: string -> string, key: string): string
  {
    Lower(CleanName(localized(key)))
  }

  // ------------------------------------------------------------- patterns

  /** The D&D Beyond importer's names: "crimson rite: " before each English
      pattern and "rite écarlate: " before each French one, in that order. */
  function DdbPatterns(key: string): seq<string>
  {
    var en, fr := EnglishPatterns(key), FrenchPatterns(key);
    [EnglishPrefix + en[0], EnglishPrefix + en[1],
     FrenchPrefix + fr[0], FrenchPrefix + fr[1], FrenchPrefix + fr[2], FrenchPrefix + fr[3]]
  }

  const EnglishPrefix := "crimson rite: "
  const FrenchPrefix := "rite écarlate: "

  function EnglishPatterns(key: string): seq<string>
  {
    ["rite of the " + key, "rite of " + key]
  }

  function FrenchPatterns(key: string): seq<string>
  {
    ["rite de la " + key, "rite de l'" + key, "rite du " + key, "rite des " + key]
  }

  predicate AnyContained(name: string, patterns: seq<string>)
  {
    exists q :: 0 <= q < |patterns| && Contains(name, patterns[q])
  }

  /** The four checks of priority 2 for one key. */
  predicate RiteMatches(name: string, key: string, cleanedName: string)
  {
    Contains(name, cleanedName) || AnyContained(name, DdbPatterns(key)) ||
    AnyContained(name, EnglishPatterns(key)) || AnyContained(name, FrenchPatterns(key))
  }

  /** Each prefixed pattern ends with an unprefixed one, so the prefixed
      check never finds a rite the unprefixed checks would miss. */
  lemma DdbPatternsSubsumed(name: string, key: string, cleanedName: string)
    ensures RiteMatches(name, key, cleanedName) <==>
      Contains(name, cleanedName) || AnyContained(name, EnglishPatterns(key)) ||
      AnyContained(name, FrenchPatterns(key))
  {
    if AnyContained(name, DdbPatterns(key)) {
      var q :| 0 <= q < 6 && Contains(name, DdbPatterns(key)[q]);
      var en, fr := EnglishPatterns(key), FrenchPatterns(key);
      if q < 2 {
        ContainsSuffix(name, EnglishPrefix, en[q]);
        assert Contains(name, en[q]);
      } else {
        ContainsSuffix(name, FrenchPrefix, fr[q - 2]);
        assert Contains(name, fr[q - 2]);
      }
    }
  }

  // -------------------------------------------------- the known-rite list

  /** The lower-cased name or description mentions the Crimson Rite, in
      English or in French. */
  predicate IsRiteRelated(name: string, description: string)
  {
    Contains(name, "crimson rite") || Contains(name, "rite écarlate") ||
    Contains(description, "crimson rite") || Contains(description, "rite écarlate")
  }

  /** Priority 1: the module flag names a rite of the table not yet known. */
  predicate FlagNamesNewRite(table: seq<RiteInfo>, f: Item, known: seq<string>)
  {
    f.flags.CrimsonRite() != NoRiteMarker && f.flags.RiteType() != "" &&
    f.flags.RiteType() in RiteKeys(table) && f.flags.RiteType() !in known
  }

  /** Priority 2 over the table's keys in order, for a relevant feature. */
  function MatchKeys(table: seq<RiteInfo>, localized: string -> string, name: string, known: seq<string>)
    : seq<string>
  {
    if |table| == 0 then known
    else
      var prev := MatchKeys(table[..|table| - 1], localized, name, known);
      var key := table[|table| - 1].key;
      if RiteMatches(name, key, CleanedName(localized, key)) then AddIfAbsent(prev, key) else prev
  }

  /** What one feature adds to the list found so far. */
  function FeatureStep(table: seq<RiteInfo>, localized: string -> string, known: seq<string>, f: Item)
    : seq<string>
  {
    var name := Lower(f.name);
    if FlagNamesNewRite(table, f, known) then known + [f.flags.RiteType()]
    else if !IsRiteRelated(name, Lower(f.description)) then known
    else MatchKeys(table, localized, name, known)
  }

  /** The list `getKnownRitesFromFeatures` returns for these items. */
  function KnownRites(table: seq<RiteInfo>, localized: string -> string, items: seq<Item>): seq<string>
  {
    if |items| == 0 then []
    else
      var prev := KnownRites(table, localized, items[..|items| - 1]);
      var f := items[|items| - 1];
      if f.IsFeatOrFeature() then FeatureStep(table, localized, prev, f) else prev
  }

  /** One pattern loop: push the key on the first pattern the name contains,
      unless the key is already known. */
  method PushOnFirstMatch(name: string, patterns: seq<string>, key: string, known: seq<string>)
    returns (after: seq<string>)
    ensures after == if AnyContained(name, patterns) then AddIfAbsent(known, key) else known
  {
    after := known;
    var q := 0;
    while q < |patterns|
      invariant 0 <= q <= |patterns|
      invariant after == known
      invariant key !in known ==> forall r :: 0 <= r < q ==> !Contains(name, patterns[r])
    {
      if Contains(name, patterns[q]) {
        if key !in after {
          after := after + [key];
          break;
        }
      }
      q := q + 1;
    }
  }

  /** The loop over the table's keys for one relevant feature. */
  method MatchAllKeys(table: seq<RiteInfo>, localized: string -> string, name: string, known: seq<string>)
    returns (after: seq<string>)
    ensures after == MatchKeys(table, localized, name, known)
  {
    after := known;
    var j := 0;
    while j < |table|
      invariant 0 <= j <= |table|
      invariant after == MatchKeys(table[..j], localized, name, known)
    {
      assert table[..j + 1][..j] == table[..j];
      var key := table[j].key;
      var cleanedName := Lower(CleanName(localized(key)));
      if Contains(name, cleanedName) {
        if key !in after {
          after := after + [key];
          j := j + 1;
          continue;
        }
      }
      after := PushOnFirstMatch(name, DdbPatterns(key), key, after);
      after := PushOnFirstMatch(name, EnglishPatterns(key), key, after);
      after := PushOnFirstMatch(name, FrenchPatterns(key), key, after);
      j := j + 1;
    }
    assert table[..|table|] == table;
  }

  /** `getKnownRitesFromFeatures(actor)` over `RITE_TYPES` = `table`; items
      that are not features are skipped as the source's filter drops them. */
  method GetKnownRitesFromFeatures(table: seq<RiteInfo>, localized: string -> string, items: seq<Item>)
    returns (knownRites: seq<string>)
    ensures knownRites == KnownRites(table, localized, items)
  {
    knownRites := [];
    var i := 0;
    while i < |items|
      invariant 0 <= i <= |items|
      invariant knownRites == KnownRites(table, localized, items[..i])
    {
      assert items[..i + 1][..i] == items[..i];
      var feature := items[i];
      i := i + 1;
      if !feature.IsFeatOrFeature() {
        continue;
      }
      var name := Lower(feature.name);
      var description := Lower(feature.description);
      if feature.flags.CrimsonRite() != NoRiteMarker {
        var riteType := feature.flags.RiteType();
        if riteType != "" && LookupRite(table, riteType).Some? && riteType !in knownRites {
          knownRites := knownRites + [riteType];
          continue;
        }
      }
      if !IsRiteRelated(name, description) {
        continue;
      }
      knownRites := MatchAllKeys(table, localized, name, knownRites);
    }
    assert items[..|items|] == items;
  }

  /** Priority 2 only adds table keys, and only keys not yet present. */
  lemma {:induction false} MatchKeysKeeps(table: seq<RiteInfo>, localized: string -> string, name: string,
                                          known: seq<string>)
    ensures var r := MatchKeys(table, localized, name, known);
      (Distinct(known) ==> Distinct(r)) &&
      (forall x :: x in known ==> x in r) &&
      (forall x :: x in r ==> x in known || x in RiteKeys(table))
  {
    if |table| > 0 {
      var init := table[..|table| - 1];
      MatchKeysKeeps(init, localized, name, known);
      forall x | x in RiteKeys(init)
        ensures x in RiteKeys(table)
      {
        var k :| 0 <= k < |init| && RiteKeys(init)[k] == x;
        assert RiteKeys(table)[k] == x;
      }
      assert table[|table| - 1].key == RiteKeys(table)[|table| - 1];
    }
  }

  /** A table key the name matches ends up in the list priority 2 returns. */
  lemma {:induction false} MatchKeysFinds(table: seq<RiteInfo>, localized: string -> string, name: string,
                                          known: seq<string>, j: nat)
    requires j < |table|
    requires RiteMatches(name, table[j].key, CleanedName(localized, table[j].key))
    ensures table[j].key in MatchKeys(table, localized, name, known)
  {
    if j < |table| - 1 {
      var init := table[..|table| - 1];
      assert init[j] == table[j];
      MatchKeysFinds(init, localized, name, known, j);
    }
  }

  /** No rite is reported twice, and every reported rite is a key of the table. */
  lemma {:induction false} KnownRitesWellFormed(table: seq<RiteInfo>, localized: string -> string, items: seq<Item>)
    ensures Distinct(KnownRites(table, localized, items))
    ensures forall x :: x in KnownRites(table, localized, items) ==> x in RiteKeys(table)
  {
    if |items| > 0 {
      var prev := KnownRites(table, localized, items[..|items| - 1]);
      KnownRitesWellFormed(table, localized, items[..|items| - 1]);
      MatchKeysKeeps(table, localized, Lower(items[|items| - 1].name), prev);
    }
  }

  /** Later features never remove a rite found earlier. */
  lemma {:induction false} KnownRitesGrow(table: seq<RiteInfo>, localized: string -> string, items: seq<Item>, m: nat)
    requires m <= |items|
    ensures forall x :: x in KnownRites(table, localized, items[..m]) ==> x in KnownRites(table, localized, items)
  {
    if m < |items| {
      var init := items[..|items| - 1];
      assert items[..m] == init[..m];
      KnownRitesGrow(table, localized, init, m);
      FeatureStepGrows(table, localized, KnownRites(table, localized, init), items[|items| - 1]);
    } else {
      assert items[..m] == items;
    }
  }

  /** One feature keeps what was found before it; a flag naming a rite of the
      table leaves that rite in the list, added now or found earlier. */
  lemma FeatureStepGrows(table: seq<RiteInfo>, localized: string -> string, known: seq<string>, f: Item)
    ensures forall x :: x in known ==> x in FeatureStep(table, localized, known, f)
    ensures (f.flags.CrimsonRite() != NoRiteMarker && f.flags.RiteType() != "" &&
             f.flags.RiteType() in RiteKeys(table)) ==>
      f.flags.RiteType() in FeatureStep(table, localized, known, f)
  {
    MatchKeysKeeps(table, localized, Lower(f.name), known);
  }

  /** A feature flagged with a rite of the table makes that rite known:
      either it was already known or the flag adds it. */
  lemma FlaggedRiteKnown(table: seq<RiteInfo>, localized: string -> string, items: seq<Item>, k: nat)
    requires k < |items| && items[k].IsFeatOrFeature()
    requires items[k].flags.CrimsonRite() != NoRiteMarker && items[k].flags.RiteType() != ""
    requires items[k].flags.RiteType() in RiteKeys(table)
    ensures items[k].flags.RiteType() in KnownRites(table, localized, items)
  {
    assert items[..k + 1][..k] == items[..k];
    FeatureStepGrows(table, localized, KnownRites(table, localized, items[..k]), items[k]);
    KnownRitesGrow(table, localized, items, k + 1);
  }

  /** When the flag adds a rite, the feature's name is not looked at. */
  lemma FlagSkipsMatching(table: seq<RiteInfo>, localized: string -> string, items: seq<Item>, f: Item)
    requires f.IsFeatOrFeature() && FlagNamesNewRite(table, f, KnownRites(table, localized, items))
    ensures KnownRites(table, localized, items + [f]) ==
      KnownRites(table, localized, items) + [f.flags.RiteType()]
  {
    assert (items + [f])[..|items|] == items;
  }

  /** A non-feature, or an unflagged feature that mentions no Crimson Rite in
      its name or description, contributes nothing. */
  lemma UnrelatedFeatureIgnored(table: seq<RiteInfo>, localized: string -> string, items: seq<Item>, f: Item)
    requires !f.IsFeatOrFeature() ||
      (f.flags.CrimsonRite() == NoRiteMarker && !IsRiteRelated(Lower(f.name), Lower(f.description)))
    ensures KnownRites(table, localized, items + [f]) == KnownRites(table, localized, items)
  {
    assert (items + [f])[..|items|] == items;
  }

  /** An unflagged feature mentioning the Crimson Rite whose name contains the
      cleaned localized name or one of the patterns of a key yields that key. */
  lemma NamedRiteDetected(table: seq<RiteInfo>, localized: string -> string, items: seq<Item>, k: nat, j: nat)
    requires k < |items| && items[k].IsFeatOrFeature() && items[k].flags.CrimsonRite() == NoRiteMarker
    requires IsRiteRelated(Lower(items[k].name), Lower(items[k].description))
    requires j < |table|
    requires RiteMatches(Lower(items[k].name), table[j].key, CleanedName(localized, table[j].key))
    ensures table[j].key in KnownRites(table, localized, items)
  {
    var known := KnownRites(table, localized, items[..k]);
    KnownRitesStep(table, localized, items, k);
    assert !FlagNamesNewRite(table, items[k], known);
    MatchKeysFinds(table, localized, Lower(items[k].name), known, j);
    KnownRitesGrow(table, localized, items, k + 1);
  }

  /** The list after `k + 1` items is the `k`-th feature's step on the list
      after `k`. */
  lemma KnownRitesStep(table: seq<RiteInfo>, localized: string -> string, items: seq<Item>, k: nat)
    requires k < |items| && items[k].IsFeatOrFeature()
    ensures KnownRites(table, localized, items[..k + 1]) ==
      FeatureStep(table, localized, KnownRites(table, localized, items[..k]), items[k])
  {
    assert items[..k + 1][..k] == items[..k];
  }

  // ------------------------------------------------------- available rites

  /** The rite list used under a detection mode: only "features" and "auto" look. */
  function KnownForMode(table: seq<RiteInfo>, localized: string -> string, items: seq<Item>, mode: string)
    : seq<string>
  {
    if mode == "features" || mode == "auto" then KnownRites(table, localized, items) else []
  }

  /** `available[riteKey] = RITE_TYPES[riteKey]` for each known key of the table. */
  function KnownInfos(table: seq<RiteInfo>, known: seq<string>): seq<RiteInfo>
  {
    if |known| == 0 then []
    else
      KnownInfos(table, known[..|known| - 1]) +
      match LookupRite(table, known[|known| - 1])
      case None => []
      case Some(info) => [info]
  }

  /** The entries `getAvailableRites` returns, in insertion order. */
  function AvailableRites(table: seq<RiteInfo>, localized: string -> string, items: seq<Item>, setting: string)
    : seq<RiteInfo>
  {
    var level := Utils.BloodHunterLevelOf(items);
    var mode := OrDefault(setting, "auto");
    var known := KnownForMode(table, localized, items, mode);
    if |known| == 0 && mode == "auto" then UnlockedRites(table, level)
    else if |known| > 0 then KnownInfos(table, known)
    else if mode == "level" then UnlockedRites(table, level)
    else []
  }

  /** `getAvailableRites(actor)`; `setting` is the `riteDetectionMode` value. */
  method GetAvailableRites(table: seq<RiteInfo>, localized: string -> string, items: seq<Item>, setting: string)
    returns (available: seq<RiteInfo>)
    ensures available == AvailableRites(table, localized, items, setting)
  {
    var bloodHunterLevel := Utils.BloodHunterLevelOf(items);
    available := [];
    var detectionMode := OrDefault(setting, "auto");
    var knownRites: seq<string> := [];
    if detectionMode == "features" || detectionMode == "auto" {
      knownRites := GetKnownRitesFromFeatures(table, localized, items);
    }
    if |knownRites| == 0 && detectionMode == "auto" {
      available := CollectUnlocked(table, bloodHunterLevel);
    } else if |knownRites| > 0 {
      available := CollectKnown(table, knownRites);
    } else if detectionMode == "level" {
      available := CollectUnlocked(table, bloodHunterLevel);
    }
  }

  /** The loop of `getAvailableRites` over the known rites: each one's table
      entry, skipping keys the table lacks. */
  method CollectKnown(table: seq<RiteInfo>, knownRites: seq<string>) returns (available: seq<RiteInfo>)
    ensures available == KnownInfos(table, knownRites)
  {
    available := [];
    var j := 0;
    while j < |knownRites|
      invariant 0 <= j <= |knownRites|
      invariant available == KnownInfos(table, knownRites[..j])
    {
      assert knownRites[..j + 1][..j] == knownRites[..j];
      var info := LookupRite(table, knownRites[j]);
      if info.Some? {
        available := available + [info.value];
      }
      j := j + 1;
    }
    assert knownRites[..|knownRites|] == knownRites;
  }

  /** The entries for a list of table keys are those keys' entries, in order. */
  lemma {:induction false} KnownInfosKeys(table: seq<RiteInfo>, known: seq<string>)
    requires forall x :: x in known ==> x in RiteKeys(table)
    ensures RiteKeys(KnownInfos(table, known)) == known
    ensures forall x :: x in KnownInfos(table, known) ==> x in table
  {
    if |known| > 0 {
      var init := known[..|known| - 1];
      assert forall x :: x in init ==> x in known;
      KnownInfosKeys(table, init);
      var last := LookupRite(table, known[|known| - 1]);
      assert last.Some?;
      assert known == init + [known[|known| - 1]];
    }
  }

  /** The detection modes: "level", and "auto" with nothing found, offer every
      rite the level unlocks; "auto" or "features" with detections offer
      exactly the detected rites whatever their level; "features" with none
      found, and any unknown mode, offer nothing. */
  lemma AvailableRitesByMode(table: seq<RiteInfo>, localized: string -> string, items: seq<Item>, setting: string)
    ensures var level := Utils.BloodHunterLevelOf(items);
      var known := KnownRites(table, localized, items);
      var r := AvailableRites(table, localized, items, setting);
      (setting == "level" ==> r == UnlockedRites(table, level)) &&
      ((setting == "" || setting == "auto") && known == [] ==> r == UnlockedRites(table, level)) &&
      ((setting in {"", "auto", "features"}) && known != [] ==> RiteKeys(r) == known) &&
      (setting == "features" && known == [] ==> r == []) &&
      (setting !in {"", "auto", "features", "level"} ==> r == [])
  {
    KnownRitesWellFormed(table, localized, items);
    KnownInfosKeys(table, KnownRites(table, localized, items));
  }
}
