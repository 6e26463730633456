// scripts/feature-sync.js: replacing the Blood Hunter features an importer
// put on an actor by the module's own compendium versions. A dry run pairs
// each candidate feature with a compendium feature (exact identifier first,
// then a looser match), then the sync deletes duplicates and swaps each
// matched feature for its compendium copy.
//
// The compendium's documents, the confirmation answer, whether each host
// call throws and the ids the host gives new items are inputs. After the
// swaps the source calls `updateBloodMaledictMaxUses` on the legacy
// `BloodCurse` class, which has no such method: the call throws, so the sync
// rejects before its results are shown. The model keeps that ending.

module FeatureSync {
  import opened Common
  import opened Documents

  const CompendiumId := "vtt-blood-hunter.blood-hunter-features"

  // ------------------------------------------------ the class's origin id

  /** A Blood Hunter feat that records the class advancement it came from. */
  predicate IsOriginFeature(i: Item)
  {
    i.itemType == "feat" && i.subtype == "bloodHunter" && i.advancementOrigin != ""
  }

  /** The class item the fallback looks for; unlike the class detection of
      the utilities it accepts the identifier `blood-hunter`. */
  predicate IsBloodHunterClassItem(i: Item)
  {
    i.itemType == "class" && (Contains(Lower(i.name), "blood hunter") || i.identifier == "blood-hunter")
  }

  function FirstOriginFeature(items: seq<Item>): (r: Option<nat>)
    ensures r.Some? ==> r.value < |items| && IsOriginFeature(items[r.value])
    ensures r.Some? ==> forall k :: 0 <= k < r.value ==> !IsOriginFeature(items[k])
    ensures r.None? ==> forall k :: 0 <= k < |items| ==> !IsOriginFeature(items[k])
  {
    if |items| == 0 then None
    else if IsOriginFeature(items[0]) then Some(0)
    else match FirstOriginFeature(items[1..])
      case None => None
      case Some(k) => Some(k + 1)
  }

  function FirstClassItem(items: seq<Item>): (r: Option<nat>)
    ensures r.Some? ==> r.value < |items| && IsBloodHunterClassItem(items[r.value])
    ensures r.Some? ==> forall k :: 0 <= k < r.value ==> !IsBloodHunterClassItem(items[k])
    ensures r.None? ==> forall k :: 0 <= k < |items| ==> !IsBloodHunterClassItem(items[k])
  {
    if |items| == 0 then None
    else if IsBloodHunterClassItem(items[0]) then Some(0)
    else match FirstClassItem(items[1..])
      case None => None
      case Some(k) => Some(k + 1)
  }

  /** `_detectBloodHunterOrigin(actor)`: the origin recorded on the first
      Blood Hunter feat that has one; else the id of the first Blood Hunter
      class item; else `None` (the source's `null`). */
  function DetectOrigin(items: seq<Item>): (r: Option<string>)
    ensures (exists k :: 0 <= k < |items| && IsOriginFeature(items[k])) ==>
      exists k :: 0 <= k < |items| && IsOriginFeature(items[k]) && r == Some(items[k].advancementOrigin) &&
        forall j :: 0 <= j < k ==> !IsOriginFeature(items[j])
    ensures (forall k :: 0 <= k < |items| ==> !IsOriginFeature(items[k])) ==>
      ((exists k :: 0 <= k < |items| && IsBloodHunterClassItem(items[k])) <==> r.Some?) &&
      (r.Some? ==>
         exists k :: (0 <= k < |items| && IsBloodHunterClassItem(items[k]) && r.value == items[k].id &&
           forall j :: 0 <= j < k ==> !IsBloodHunterClassItem(items[j])))
  {
    match FirstOriginFeature(items)
    case Some(k) => Some(items[k].advancementOrigin)
    case None =>
      match FirstClassItem(items)
      case Some(k) => Some(items[k].id)
      case None => None
  }

  // ----------------------------------------------------------- candidates

  /** A `feat` with a (truthy) identifier. */
  predicate IsCandidate(i: Item)
  {
    i.itemType == "feat" && i.identifier != ""
  }

  /** The candidate features, in the actor's order. */
  function Candidates(items: seq<Item>): (r: seq<Item>)
    ensures |r| <= |items|
    ensures forall x :: x in r <==> x in items && IsCandidate(x)
  {
    if |items| == 0 then []
    else (if IsCandidate(items[0]) then [items[0]] else []) + Candidates(items[1..])
  }

  /** Candidates of items with unique ids have unique ids. */
  lemma {:induction false} CandidatesUnique(items: seq<Item>)
    requires UniqueIds(items)
    ensures UniqueIds(Candidates(items))
  {
    if |items| > 0 {
      var rest := items[1..];
      assert UniqueIds(rest) by {
        forall i, j | 0 <= i < j < |rest|
          ensures rest[i].id != rest[j].id
        {
          assert rest[i] == items[i + 1] && rest[j] == items[j + 1];
        }
      }
      CandidatesUnique(rest);
      var c := Candidates(rest);
      forall x | x in c
        ensures x.id != items[0].id
      {
        var j :| 0 <= j < |rest| && rest[j] == x;
        assert x == items[j + 1];
      }
    }
  }

  // ------------------------------------------------------------- matching

  /** `identifier.replace(/-the-/g, '-')` */
  function Normalize(identifier: string): string
  {
    ReplaceAll(identifier, "-the-", "-")
  }

  /** The looser match: after normalising, either identifier contains the
      other. */
  predicate FlexMatch(actorIdentifier: string, compIdentifier: string)
  {
    Contains(Normalize(actorIdentifier), Normalize(compIdentifier)) ||
    Contains(Normalize(compIdentifier), Normalize(actorIdentifier))
  }

  /** The looser match is symmetric and holds between equal identifiers, so
      every exact match is also a loose one. */
  lemma FlexMatchProperties(a: string, c: string)
    ensures FlexMatch(a, c) <==> FlexMatch(c, a)
    ensures FlexMatch(a, a)
  {
    ContainsSelf(Normalize(a));
  }

  /** An exact candidate not yet claimed. */
  predicate IsExact(d: Item, actorIdentifier: string, used: set<string>)
  {
    d.identifier == actorIdentifier && d.identifier !in used
  }

  /** A loose candidate not yet claimed. */
  predicate IsFlex(d: Item, actorIdentifier: string, used: set<string>)
  {
    d.identifier != "" && d.identifier !in used && FlexMatch(actorIdentifier, d.identifier)
  }

  function FirstExact(docs: seq<Item>, actorIdentifier: string, used: set<string>): (r: Option<nat>)
    ensures r.Some? ==> r.value < |docs| && IsExact(docs[r.value], actorIdentifier, used)
    ensures r.Some? ==> forall k :: 0 <= k < r.value ==> !IsExact(docs[k], actorIdentifier, used)
    ensures r.None? ==> forall k :: 0 <= k < |docs| ==> !IsExact(docs[k], actorIdentifier, used)
  {
    if |docs| == 0 then None
    else if IsExact(docs[0], actorIdentifier, used) then Some(0)
    else match FirstExact(docs[1..], actorIdentifier, used)
      case None => None
      case Some(k) => Some(k + 1)
  }

  function FirstFlex(docs: seq<Item>, actorIdentifier: string, used: set<string>): (r: Option<nat>)
    ensures r.Some? ==> r.value < |docs| && IsFlex(docs[r.value], actorIdentifier, used)
    ensures r.Some? ==> forall k :: 0 <= k < r.value ==> !IsFlex(docs[k], actorIdentifier, used)
    ensures r.None? ==> forall k :: 0 <= k < |docs| ==> !IsFlex(docs[k], actorIdentifier, used)
  {
    if |docs| == 0 then None
    else if IsFlex(docs[0], actorIdentifier, used) then Some(0)
    else match FirstFlex(docs[1..], actorIdentifier, used)
      case None => None
      case Some(k) => Some(k + 1)
  }

  /** The compendium feature a candidate is paired with: the first unclaimed
      document with the same identifier, else the first unclaimed one that
      matches loosely. The pick is never claimed yet, and a candidate finds
      none only when no unclaimed document matches even loosely. */
  function FindMatch(docs: seq<Item>, actorIdentifier: string, used: set<string>): (r: Option<nat>)
    requires actorIdentifier != ""
    ensures r.Some? ==> r.value < |docs| && docs[r.value].identifier != "" && docs[r.value].identifier !in used
    ensures (exists k :: 0 <= k < |docs| && IsExact(docs[k], actorIdentifier, used)) ==>
      r.Some? && IsExact(docs[r.value], actorIdentifier, used) &&
      forall k :: 0 <= k < r.value ==> !IsExact(docs[k], actorIdentifier, used)
    ensures r.Some? ==> IsFlex(docs[r.value], actorIdentifier, used)
    ensures r.None? <==> forall k :: 0 <= k < |docs| ==> !IsFlex(docs[k], actorIdentifier, used)
  {
    match FirstExact(docs, actorIdentifier, used)
    case Some(k) =>
      FlexMatchProperties(actorIdentifier, actorIdentifier);
      Some(k)
    case None =>
      FirstFlex(docs, actorIdentifier, used)
  }

  /** Claiming more compendium identifiers never makes a match appear. */
  lemma FindMatchMonotone(docs: seq<Item>, actorIdentifier: string, used: set<string>, more: set<string>)
    requires actorIdentifier != "" && used <= more
    requires FindMatch(docs, actorIdentifier, used).None?
    ensures FindMatch(docs, actorIdentifier, more).None?
  {
    forall k | 0 <= k < |docs|
      ensures !IsFlex(docs[k], actorIdentifier, more)
    {
      assert !IsFlex(docs[k], actorIdentifier, used);
    }
  }

  /** `_areFeaturesSame(actorFeature, compendiumFeature)`: the actor's copy
      carries the module's flags and has the compendium's identifier and
      name. */
  predicate AreFeaturesSame(actorFeature: Item, compendiumFeature: Item)
  {
    actorFeature.flags.Flags? && actorFeature.identifier == compendiumFeature.identifier &&
    actorFeature.name == compendiumFeature.name
  }

  /** Only the module flag, the identifier and the name are compared: a
      flagged copy counts as synced with every compendium feature of that
      identifier and name, whatever its description, uses or effects; an
      unflagged copy is never synced, a flagged one always with itself. */
  lemma AreFeaturesSameKeysOnly(actorFeature: Item, compendiumFeature: Item, other: Item)
    requires other.identifier == compendiumFeature.identifier && other.name == compendiumFeature.name
    ensures AreFeaturesSame(actorFeature, other) == AreFeaturesSame(actorFeature, compendiumFeature)
    ensures actorFeature.flags.NoFlags? ==> !AreFeaturesSame(actorFeature, compendiumFeature)
    ensures actorFeature.flags.Flags? ==> AreFeaturesSame(actorFeature, actorFeature)
  {
  }

  // ------------------------------------------------------------- the plan

  datatype Match = Match(actor: Item, compendium: Item)

  /** The dry run's arrays and its two `used...Identifiers` sets. */
  datatype ScanState = ScanState(matched: seq<Match>, unmatched: seq<Item>, alreadySynced: seq<Item>,
                                 usedCompendium: set<string>, usedActor: set<string>)

  const EmptyScan := ScanState([], [], [], {}, {})

  /** What the dry run does with one candidate. */
  datatype Fate = Skipped | Unmatched | AlreadySynced | Matched

  function FateOf(docs: seq<Item>, st: ScanState, feature: Item): Fate
    requires IsCandidate(feature)
  {
    if feature.identifier in st.usedActor then Skipped
    else match FindMatch(docs, feature.identifier, st.usedCompendium)
      case None => Unmatched
      case Some(d) => if AreFeaturesSame(feature, docs[d]) then AlreadySynced else Matched
  }

  /** One pass of the dry run's loop. */
  function Step(docs: seq<Item>, st: ScanState, feature: Item): ScanState
    requires IsCandidate(feature)
  {
    if feature.identifier in st.usedActor then st
    else match FindMatch(docs, feature.identifier, st.usedCompendium)
      case None => st.(unmatched := st.unmatched + [feature])
      case Some(d) =>
        var claimed := st.(usedCompendium := st.usedCompendium + {docs[d].identifier},
                           usedActor := st.usedActor + {feature.identifier});
        if AreFeaturesSame(feature, docs[d]) then claimed.(alreadySynced := st.alreadySynced + [feature])
        else claimed.(matched := st.matched + [Match(feature, docs[d])])
  }

  predicate AllCandidates(cands: seq<Item>)
  {
    forall k :: 0 <= k < |cands| ==> IsCandidate(cands[k])
  }

  /** The dry run's loop over `cands`. */
  function Scan(docs: seq<Item>, cands: seq<Item>): ScanState
    requires AllCandidates(cands)
  {
    if |cands| == 0 then EmptyScan
    else Step(docs, Scan(docs, cands[..|cands| - 1]), cands[|cands| - 1])
  }

  function Actors(ms: seq<Match>): (r: seq<Item>)
    ensures |r| == |ms|
    ensures forall j :: 0 <= j < |ms| ==> r[j] == ms[j].actor
  {
    seq(|ms|, j requires 0 <= j < |ms| => ms[j].actor)
  }

  /** Some item of `xs` has this id (`xs.some(s => s.id === id)`). */
  predicate IdIn(xs: seq<Item>, id: string)
  {
    exists j :: 0 <= j < |xs| && xs[j].id == id
  }

  predicate IsDuplicate(st: ScanState, c: Item)
  {
    c.identifier in st.usedActor && !IdIn(Actors(st.matched), c.id) && !IdIn(st.alreadySynced, c.id)
  }

  /** The candidates whose identifier was claimed by another feature. */
  function Duplicates(cands: seq<Item>, st: ScanState): (r: seq<Item>)
    ensures forall x :: x in r <==> x in cands && IsDuplicate(st, x)
  {
    if |cands| == 0 then []
    else (if IsDuplicate(st, cands[0]) then [cands[0]] else []) + Duplicates(cands[1..], st)
  }

  datatype SyncPlan = SyncPlan(matched: seq<Match>, unmatched: seq<Item>, duplicates: seq<Item>,
                               alreadySynced: seq<Item>, total: nat)

  /** `_prepareSyncPlan(actor, documents)` */
  function PlanOf(items: seq<Item>, docs: seq<Item>): (p: SyncPlan)
    ensures p.total == |Candidates(items)|
  {
    var cands := Candidates(items);
    var st := Scan(docs, cands);
    SyncPlan(st.matched, st.unmatched, Duplicates(cands, st), st.alreadySynced, |cands|)
  }

  /** `_prepareSyncPlan(actor, documents)`, with its loop. */
  method PrepareSyncPlan(items: seq<Item>, docs: seq<Item>) returns (plan: SyncPlan)
    ensures plan == PlanOf(items, docs)
  {
    var candidateFeatures := Candidates(items);
    var matched: seq<Match> := [];
    var unmatched: seq<Item> := [];
    var alreadySynced: seq<Item> := [];
    var usedCompendiumIdentifiers: set<string> := {};
    var usedActorIdentifiers: set<string> := {};
    var i := 0;
    while i < |candidateFeatures|
      invariant 0 <= i <= |candidateFeatures|
      invariant ScanState(matched, unmatched, alreadySynced, usedCompendiumIdentifiers, usedActorIdentifiers) ==
        Scan(docs, candidateFeatures[..i])
    {
      ScanUnfold(docs, candidateFeatures, i);
      var actorFeature := candidateFeatures[i];
      var actorIdentifier := actorFeature.identifier;
      if actorIdentifier !in usedActorIdentifiers {
        var compendiumFeature := FindMatch(docs, actorIdentifier, usedCompendiumIdentifiers);
        if compendiumFeature.Some? {
          var found := docs[compendiumFeature.value];
          if AreFeaturesSame(actorFeature, found) {
            alreadySynced := alreadySynced + [actorFeature];
          } else {
            matched := matched + [Match(actorFeature, found)];
          }
          usedCompendiumIdentifiers := usedCompendiumIdentifiers + {found.identifier};
          usedActorIdentifiers := usedActorIdentifiers + {actorIdentifier};
        } else {
          unmatched := unmatched + [actorFeature];
        }
      }
      i := i + 1;
    }
    assert candidateFeatures[..|candidateFeatures|] == candidateFeatures;
    var st := ScanState(matched, unmatched, alreadySynced, usedCompendiumIdentifiers, usedActorIdentifiers);
    var duplicates := Duplicates(candidateFeatures, st);
    plan := SyncPlan(matched, unmatched, duplicates, alreadySynced, |candidateFeatures|);
  }

  // --------------------------------------------- each identifier once

  /** The dry run's bookkeeping: every pair's compendium identifier and every
      already-synced identifier is claimed, and no identifier is claimed
      twice, on either side. */
  predicate ClaimsOnce(st: ScanState)
  {
    (forall i :: 0 <= i < |st.matched| ==>
       st.matched[i].compendium.identifier in st.usedCompendium &&
       st.matched[i].actor.identifier in st.usedActor) &&
    (forall i :: 0 <= i < |st.alreadySynced| ==>
       st.alreadySynced[i].identifier in st.usedCompendium && st.alreadySynced[i].identifier in st.usedActor) &&
    (forall i, j :: 0 <= i < j < |st.matched| ==>
       st.matched[i].compendium.identifier != st.matched[j].compendium.identifier &&
       st.matched[i].actor.identifier != st.matched[j].actor.identifier) &&
    (forall i, j :: 0 <= i < j < |st.alreadySynced| ==> st.alreadySynced[i].identifier != st.alreadySynced[j].identifier) &&
    (forall i, j :: 0 <= i < |st.matched| && 0 <= j < |st.alreadySynced| ==>
       st.matched[i].compendium.identifier != st.alreadySynced[j].identifier &&
       st.matched[i].actor.identifier != st.alreadySynced[j].identifier)
  }

  lemma StepClaimsOnce(docs: seq<Item>, st: ScanState, feature: Item)
    requires IsCandidate(feature) && ClaimsOnce(st)
    ensures ClaimsOnce(Step(docs, st, feature))
  {
    if feature.identifier !in st.usedActor {
      match FindMatch(docs, feature.identifier, st.usedCompendium)
      case None =>
      case Some(d) =>
        if AreFeaturesSame(feature, docs[d]) {
          SyncedClaimsOnce(st, feature);
        } else {
          MatchClaimsOnce(st, Match(feature, docs[d]));
        }
    }
  }

  /** Claiming a fresh pair keeps every identifier claimed once. */
  lemma MatchClaimsOnce(st: ScanState, m: Match)
    requires ClaimsOnce(st)
    requires m.compendium.identifier !in st.usedCompendium && m.actor.identifier !in st.usedActor
    ensures ClaimsOnce(st.(matched := st.matched + [m],
                           usedCompendium := st.usedCompendium + {m.compendium.identifier},
                           usedActor := st.usedActor + {m.actor.identifier}))
  {
  }

  /** Claiming a fresh already-synced feature keeps every identifier claimed
      once. */
  lemma SyncedClaimsOnce(st: ScanState, feature: Item)
    requires ClaimsOnce(st)
    requires feature.identifier !in st.usedCompendium && feature.identifier !in st.usedActor
    ensures ClaimsOnce(st.(alreadySynced := st.alreadySynced + [feature],
                           usedCompendium := st.usedCompendium + {feature.identifier},
                           usedActor := st.usedActor + {feature.identifier}))
  {
  }

  /** Each compendium identifier ends up in at most one matched or
      already-synced pair, and each actor identifier is consumed at most
      once. */
  lemma {:induction false} ScanClaimsOnce(docs: seq<Item>, cands: seq<Item>)
    requires AllCandidates(cands)
    ensures ClaimsOnce(Scan(docs, cands))
    decreases |cands|
  {
    if |cands| > 0 {
      var init := cands[..|cands| - 1];
      ScanClaimsOnce(docs, init);
      StepClaimsOnce(docs, Scan(docs, init), cands[|cands| - 1]);
    }
  }

  // ----------------------------------------------------------- partition

  /** The fate of the `k`-th candidate, met in the state the loop had
      reached. */
  function FateAt(docs: seq<Item>, cands: seq<Item>, k: nat): Fate
    requires AllCandidates(cands) && k < |cands|
  {
    FateOf(docs, Scan(docs, cands[..k]), cands[k])
  }

  /** The array of the plan a fate puts a candidate in (none for a skip). */
  function ListOf(st: ScanState, fate: Fate): seq<Item>
  {
    match fate
    case Skipped => []
    case Unmatched => st.unmatched
    case AlreadySynced => st.alreadySynced
    case Matched => Actors(st.matched)
  }

  lemma StepLists(docs: seq<Item>, st: ScanState, feature: Item, fate: Fate)
    requires IsCandidate(feature) && fate != Skipped
    ensures ListOf(Step(docs, st, feature), fate) ==
      ListOf(st, fate) + (if FateOf(docs, st, feature) == fate then [feature] else [])
  {
    if FateOf(docs, st, feature) == Matched && fate == Matched {
      var d := FindMatch(docs, feature.identifier, st.usedCompendium).value;
      assert Actors(st.matched + [Match(feature, docs[d])]) == Actors(st.matched) + [feature];
    }
  }

  lemma ScanUnfold(docs: seq<Item>, cands: seq<Item>, n: nat)
    requires AllCandidates(cands) && n < |cands|
    ensures AllCandidates(cands[..n]) && AllCandidates(cands[..n + 1])
    ensures Scan(docs, cands[..n + 1]) == Step(docs, Scan(docs, cands[..n]), cands[n])
  {
    assert cands[..n + 1][..n] == cands[..n];
  }

  /** One more candidate adds itself to the list its fate names, and nothing
      else to any list. */
  lemma ScanListsStep(docs: seq<Item>, cands: seq<Item>, n: nat, fate: Fate)
    requires AllCandidates(cands) && n < |cands| && fate != Skipped
    ensures AllCandidates(cands[..n]) && AllCandidates(cands[..n + 1])
    ensures ListOf(Scan(docs, cands[..n + 1]), fate) ==
      ListOf(Scan(docs, cands[..n]), fate) + (if FateAt(docs, cands, n) == fate then [cands[n]] else [])
  {
    ScanUnfold(docs, cands, n);
    StepLists(docs, Scan(docs, cands[..n]), cands[n], fate);
  }

  /** Every candidate's fate, in candidate order. */
  function Fates(docs: seq<Item>, cands: seq<Item>): (fs: seq<Fate>)
    requires AllCandidates(cands)
    ensures |fs| == |cands|
  {
    seq(|cands|, k requires 0 <= k < |cands| => FateAt(docs, cands, k))
  }

  /** The first `n` of `xs` whose fate in `fs` is `fate`, in their order. */
  function Pick(xs: seq<Item>, fs: seq<Fate>, n: nat, fate: Fate): seq<Item>
    requires n <= |xs| == |fs|
  {
    if n == 0 then []
    else Pick(xs, fs, n - 1, fate) + (if fs[n - 1] == fate then [xs[n - 1]] else [])
  }

  /** An item is picked exactly when some position before `n` holds it with
      that fate. */
  lemma {:induction false} PickMembers(xs: seq<Item>, fs: seq<Fate>, n: nat, fate: Fate, x: Item)
    requires n <= |xs| == |fs|
    ensures x in Pick(xs, fs, n, fate) <==> exists k :: 0 <= k < n && xs[k] == x && fs[k] == fate
  {
    if n > 0 {
      PickMembers(xs, fs, n - 1, fate, x);
      if exists k :: 0 <= k < n && xs[k] == x && fs[k] == fate {
        var k :| 0 <= k < n && xs[k] == x && fs[k] == fate;
        if k < n - 1 {
          assert x in Pick(xs, fs, n - 1, fate);
        }
      }
    }
  }

  /** After `n` candidates, each array holds, in order, the candidates whose
      fate sends them there. */
  lemma {:induction false} ScanListsPicked(docs: seq<Item>, cands: seq<Item>, n: nat, fate: Fate)
    requires AllCandidates(cands) && n <= |cands| && fate != Skipped
    ensures AllCandidates(cands[..n])
    ensures ListOf(Scan(docs, cands[..n]), fate) == Pick(cands, Fates(docs, cands), n, fate)
  {
    if n > 0 {
      ScanListsPicked(docs, cands, n - 1, fate);
      ScanListsStep(docs, cands, n - 1, fate);
      assert Fates(docs, cands)[n - 1] == FateAt(docs, cands, n - 1);
    }
  }

  /** After `n` candidates, each array holds exactly the candidates whose
      fate sends them there. */
  lemma ScanListsExact(docs: seq<Item>, cands: seq<Item>, n: nat, fate: Fate)
    requires AllCandidates(cands) && n <= |cands| && fate != Skipped
    ensures AllCandidates(cands[..n])
    ensures forall x :: x in ListOf(Scan(docs, cands[..n]), fate) <==>
      exists k :: 0 <= k < n && cands[k] == x && FateAt(docs, cands, k) == fate
  {
    ScanListsPicked(docs, cands, n, fate);
    var fs := Fates(docs, cands);
    forall x
      ensures x in ListOf(Scan(docs, cands[..n]), fate) <==>
        exists k :: 0 <= k < n && cands[k] == x && FateAt(docs, cands, k) == fate
    {
      PickMembers(cands, fs, n, fate, x);
    }
  }

  /** After `n` candidates, the claimed actor identifiers are exactly those
      of the candidates matched or found already synced. */
  lemma {:induction false} ScanUsedActor(docs: seq<Item>, cands: seq<Item>, n: nat)
    requires AllCandidates(cands) && n <= |cands|
    ensures AllCandidates(cands[..n])
    ensures forall s :: s in Scan(docs, cands[..n]).usedActor <==>
      exists k :: 0 <= k < n && cands[k].identifier == s &&
        (FateAt(docs, cands, k) == Matched || FateAt(docs, cands, k) == AlreadySynced)
  {
    if n > 0 {
      var st := Scan(docs, cands[..n - 1]);
      var c := cands[n - 1];
      ScanUsedActor(docs, cands, n - 1);
      ScanUnfold(docs, cands, n - 1);
      StepUsedActor(docs, st, c);
      assert FateAt(docs, cands, n - 1) == FateOf(docs, st, c);
      forall s | s in Scan(docs, cands[..n]).usedActor
        ensures exists k :: (0 <= k < n && cands[k].identifier == s &&
          (FateAt(docs, cands, k) == Matched || FateAt(docs, cands, k) == AlreadySynced))
      {
        if s in st.usedActor {
          var k :| 0 <= k < n - 1 && cands[k].identifier == s &&
            (FateAt(docs, cands, k) == Matched || FateAt(docs, cands, k) == AlreadySynced);
        }
      }
      forall k | 0 <= k < n && (FateAt(docs, cands, k) == Matched || FateAt(docs, cands, k) == AlreadySynced)
        ensures cands[k].identifier in Scan(docs, cands[..n]).usedActor
      {
        if k < n - 1 {
          assert cands[k].identifier in st.usedActor;
        }
      }
    }
  }

  lemma StepUsedActor(docs: seq<Item>, st: ScanState, feature: Item)
    requires IsCandidate(feature)
    ensures Step(docs, st, feature).usedActor ==
      st.usedActor + (if FateOf(docs, st, feature) == Matched || FateOf(docs, st, feature) == AlreadySynced
                      then {feature.identifier} else {})
  {
  }

  /** The claimed compendium identifiers only grow. */
  lemma {:induction false} ScanUsedCompendiumGrows(docs: seq<Item>, cands: seq<Item>, m: nat, n: nat)
    requires AllCandidates(cands) && m <= n <= |cands|
    ensures AllCandidates(cands[..m]) && AllCandidates(cands[..n])
    ensures Scan(docs, cands[..m]).usedCompendium <= Scan(docs, cands[..n]).usedCompendium
    decreases n - m
  {
    if m < n {
      ScanUnfold(docs, cands, m);
      ScanUsedCompendiumGrows(docs, cands, m + 1, n);
    }
  }

  /** A candidate left unmatched never has its identifier claimed later: a
      later candidate with the same identifier meets a larger claimed set
      and so finds no match either. */
  lemma UnmatchedNeverUsed(docs: seq<Item>, cands: seq<Item>, k: nat)
    requires AllCandidates(cands) && k < |cands| && FateAt(docs, cands, k) == Unmatched
    ensures cands[k].identifier !in Scan(docs, cands[..|cands|]).usedActor
  {
    ScanUsedActor(docs, cands, |cands|);
    if cands[k].identifier in Scan(docs, cands[..|cands|]).usedActor {
      var j :| 0 <= j < |cands| && cands[j].identifier == cands[k].identifier &&
        (FateAt(docs, cands, j) == Matched || FateAt(docs, cands, j) == AlreadySynced);
      if j < k {
        ScanUsedActor(docs, cands, k);
      } else {
        ScanUsedCompendiumGrows(docs, cands, k, j);
        FindMatchMonotone(docs, cands[k].identifier, Scan(docs, cands[..k]).usedCompendium,
                          Scan(docs, cands[..j]).usedCompendium);
      }
    }
  }

  /** A skipped candidate's identifier stays claimed. */
  lemma SkippedStaysUsed(docs: seq<Item>, cands: seq<Item>, k: nat)
    requires AllCandidates(cands) && k < |cands| && FateAt(docs, cands, k) == Skipped
    ensures cands[k].identifier in Scan(docs, cands[..|cands|]).usedActor
  {
    ScanUsedActor(docs, cands, k);
    var j :| 0 <= j < k && cands[j].identifier == cands[k].identifier &&
      (FateAt(docs, cands, j) == Matched || FateAt(docs, cands, j) == AlreadySynced);
    ScanUsedActor(docs, cands, |cands|);
  }

  /** With unique ids, a candidate is in a list exactly when its fate puts
      it there. */
  lemma InListExact(docs: seq<Item>, cands: seq<Item>, k: nat, fate: Fate)
    requires AllCandidates(cands) && UniqueIds(cands) && k < |cands| && fate != Skipped
    ensures (cands[k] in ListOf(Scan(docs, cands[..|cands|]), fate) <==> FateAt(docs, cands, k) == fate)
    ensures (IdIn(ListOf(Scan(docs, cands[..|cands|]), fate), cands[k].id) <==> FateAt(docs, cands, k) == fate)
  {
    var list := ListOf(Scan(docs, cands[..|cands|]), fate);
    ScanListsExact(docs, cands, |cands|, fate);
    if IdIn(list, cands[k].id) {
      var j :| 0 <= j < |list| && list[j].id == cands[k].id;
      assert list[j] in list;
      var i :| 0 <= i < |cands| && cands[i] == list[j] && FateAt(docs, cands, i) == fate;
    }
    if FateAt(docs, cands, k) == fate {
      assert cands[k] in list;
      var j :| 0 <= j < |list| && list[j] == cands[k];
      assert list[j].id == cands[k].id;
    }
  }

  /** Where the `k`-th of candidates with unique ids ends up: in exactly
      the array its fate names, the skipped ones among the duplicates. */
  lemma PartitionAt(docs: seq<Item>, cands: seq<Item>, k: nat)
    requires AllCandidates(cands) && UniqueIds(cands) && k < |cands|
    ensures var st := Scan(docs, cands);
      (cands[k] in st.unmatched <==> FateAt(docs, cands, k) == Unmatched) &&
      (cands[k] in Actors(st.matched) <==> FateAt(docs, cands, k) == Matched) &&
      (cands[k] in st.alreadySynced <==> FateAt(docs, cands, k) == AlreadySynced) &&
      (cands[k] in Duplicates(cands, st) <==> FateAt(docs, cands, k) == Skipped)
  {
    assert cands[..|cands|] == cands;
    InListExact(docs, cands, k, Unmatched);
    InListExact(docs, cands, k, Matched);
    InListExact(docs, cands, k, AlreadySynced);
    match FateAt(docs, cands, k)
    case Skipped => SkippedStaysUsed(docs, cands, k);
    case Unmatched => UnmatchedNeverUsed(docs, cands, k);
    case Matched =>
    case AlreadySynced =>
  }

  /** The plan's arrays hold candidates only. */
  lemma PlanFromCandidates(docs: seq<Item>, cands: seq<Item>)
    requires AllCandidates(cands)
    ensures var st := Scan(docs, cands);
      (forall x :: x in st.unmatched ==> x in cands) &&
      (forall x :: x in Actors(st.matched) ==> x in cands) &&
      (forall x :: x in st.alreadySynced ==> x in cands)
  {
    assert cands[..|cands|] == cands;
    var st := Scan(docs, cands);
    ScanListsExact(docs, cands, |cands|, Unmatched);
    ScanListsExact(docs, cands, |cands|, Matched);
    ScanListsExact(docs, cands, |cands|, AlreadySynced);
    forall x | x in Actors(st.matched)
      ensures x in cands
    {
      assert x in ListOf(st, Matched);
    }
  }

  /** With unique item ids the plan's four arrays partition the candidates:
      each candidate is in exactly the array its fate names (the duplicates
      holding the skipped ones), and the arrays hold nothing else. */
  lemma PlanPartition(items: seq<Item>, docs: seq<Item>)
    requires UniqueIds(items)
    ensures var cands := Candidates(items);
      var plan := PlanOf(items, docs);
      AllCandidates(cands) &&
      forall k :: 0 <= k < |cands| ==>
        (cands[k] in plan.unmatched <==> FateAt(docs, cands, k) == Unmatched) &&
        (cands[k] in Actors(plan.matched) <==> FateAt(docs, cands, k) == Matched) &&
        (cands[k] in plan.alreadySynced <==> FateAt(docs, cands, k) == AlreadySynced) &&
        (cands[k] in plan.duplicates <==> FateAt(docs, cands, k) == Skipped)
    ensures var cands := Candidates(items);
      var plan := PlanOf(items, docs);
      (forall x :: x in plan.unmatched ==> x in cands) &&
      (forall x :: x in Actors(plan.matched) ==> x in cands) &&
      (forall x :: x in plan.alreadySynced ==> x in cands) &&
      (forall x :: x in plan.duplicates ==> x in cands)
  {
    var cands := Candidates(items);
    CandidatesUnique(items);
    forall k | 0 <= k < |cands|
      ensures var st := Scan(docs, cands);
        (cands[k] in st.unmatched <==> FateAt(docs, cands, k) == Unmatched) &&
        (cands[k] in Actors(st.matched) <==> FateAt(docs, cands, k) == Matched) &&
        (cands[k] in st.alreadySynced <==> FateAt(docs, cands, k) == AlreadySynced) &&
        (cands[k] in Duplicates(cands, st) <==> FateAt(docs, cands, k) == Skipped)
    {
      PartitionAt(docs, cands, k);
    }
    PlanFromCandidates(docs, cands);
  }

  // ------------------------------------------------------------ execution

  /** The duplicate-removal loop: each duplicate's id is deleted unless that
      call throws (`fails(k)` for the `k`-th). */
  function AfterDuplicates(items: seq<Item>, duplicates: seq<Item>, fails: nat -> bool): seq<Item>
  {
    if |duplicates| == 0 then items
    else
      var before := AfterDuplicates(items, duplicates[..|duplicates| - 1], fails);
      if fails(|duplicates| - 1) then before else WithoutIds(before, [duplicates[|duplicates| - 1].id])
  }

  /** `results.duplicatesRemoved` after that loop. */
  function RemovedCount(duplicates: seq<Item>, fails: nat -> bool): (n: nat)
  {
    if |duplicates| == 0 then 0
    else RemovedCount(duplicates[..|duplicates| - 1], fails) + (if fails(|duplicates| - 1) then 0 else 1)
  }

  /** The item created from a compendium feature: its data under a new id,
      with the detected origin written into `flags.dnd5e` when there is one. */
  function Replacement(compendiumFeature: Item, origin: Option<string>, newId: string): Item
  {
    compendiumFeature.(id := newId,
                       advancementOrigin := if origin.Some? && origin.value != "" then origin.value
                                            else compendiumFeature.advancementOrigin)
  }

  /** One pass of the swap loop on the pair `m`: a throwing delete changes
      nothing, a throwing create leaves the old feature deleted. */
  function SwapStep(items: seq<Item>, m: Match, failure: HostFailure, origin: Option<string>, newId: string)
    : seq<Item>
  {
    match failure
    case FirstCallFails => items
    case SecondCallFails => WithoutIds(items, [m.actor.id])
    case NoFailure => WithoutIds(items, [m.actor.id]) + [Replacement(m.compendium, origin, newId)]
  }

  /** The swap loop: for the `k`-th pair the delete or the create may throw
      (`failure(k)`), and the created item gets the id `freshId(k)`. */
  function AfterSwaps(items: seq<Item>, matched: seq<Match>, failure: nat -> HostFailure, origin: Option<string>,
                      freshId: nat -> string): seq<Item>
  {
    if |matched| == 0 then items
    else
      var k := |matched| - 1;
      SwapStep(AfterSwaps(items, matched[..k], failure, origin, freshId), matched[k], failure(k), origin, freshId(k))
  }

  /** `results.synced` and `results.failed` after the swap loop. */
  function SwapCounts(matched: seq<Match>, failure: nat -> HostFailure): (counts: (nat, nat))
  {
    if |matched| == 0 then (0, 0)
    else
      var (synced, failed) := SwapCounts(matched[..|matched| - 1], failure);
      if failure(|matched| - 1) == NoFailure then (synced + 1, failed) else (synced, failed + 1)
  }

  /** Every pair is counted once: as synced or as failed. */
  lemma {:induction false} SwapCountsTotal(matched: seq<Match>, failure: nat -> HostFailure)
    ensures SwapCounts(matched, failure).0 + SwapCounts(matched, failure).1 == |matched|
    ensures (forall k: nat :: k < |matched| ==> failure(k) == NoFailure) ==> SwapCounts(matched, failure).1 == 0
  {
    if |matched| > 0 {
      SwapCountsTotal(matched[..|matched| - 1], failure);
    }
  }

  /** No more duplicates are removed than there are, and all are when no
      delete throws. */
  lemma {:induction false} RemovedCountBound(duplicates: seq<Item>, fails: nat -> bool)
    ensures RemovedCount(duplicates, fails) <= |duplicates|
    ensures (forall k: nat :: k < |duplicates| ==> !fails(k)) ==> RemovedCount(duplicates, fails) == |duplicates|
  {
    if |duplicates| > 0 {
      RemovedCountBound(duplicates[..|duplicates| - 1], fails);
    }
  }

  /** `{ synced, failed, skipped, duplicatesRemoved, alreadySynced }` */
  datatype SyncResults = SyncResults(synced: nat, failed: nat, skipped: nat, duplicatesRemoved: nat,
                                     alreadySynced: nat)

  const NoResults := SyncResults(0, 0, 0, 0, 0)

  /** How `syncFeatures` ends: with a results object, or rejected by the
      call into the legacy curse class, with the results it had gathered. */
  datatype SyncOutcome = Finished(results: SyncResults) | Rejected(gathered: SyncResults)

  /** The texts the sync shows: the localized missing-compendium, no-feature
      and no-match messages. */
  datatype SyncTexts = SyncTexts(compendiumNotFound: string, noFeaturesFound: string,
                                 noMatching: nat -> string)

  /** The duplicate-removal loop of `syncFeatures`. */
  method RemoveDuplicates(actor: Actor, duplicates: seq<Item>, fails: nat -> bool) returns (removed: nat)
    modifies actor
    ensures actor.hp == old(actor.hp) && actor.effects == old(actor.effects)
    ensures actor.items == AfterDuplicates(old(actor.items), duplicates, fails)
    ensures removed == RemovedCount(duplicates, fails)
  {
    removed := 0;
    var i := 0;
    while i < |duplicates|
      invariant 0 <= i <= |duplicates|
      invariant actor.items == AfterDuplicates(old(actor.items), duplicates[..i], fails)
      invariant removed == RemovedCount(duplicates[..i], fails)
      invariant actor.hp == old(actor.hp) && actor.effects == old(actor.effects)
    {
      assert duplicates[..i + 1][..i] == duplicates[..i];
      if !fails(i) {
        actor.items := WithoutIds(actor.items, [duplicates[i].id]);
        removed := removed + 1;
      }
      i := i + 1;
    }
    assert duplicates[..|duplicates|] == duplicates;
  }

  /** The swap loop of `syncFeatures`. */
  method SwapMatched(actor: Actor, matched: seq<Match>, failure: nat -> HostFailure, origin: Option<string>,
                     freshId: nat -> string) returns (synced: nat, failed: nat)
    modifies actor
    ensures actor.hp == old(actor.hp) && actor.effects == old(actor.effects)
    ensures actor.items == AfterSwaps(old(actor.items), matched, failure, origin, freshId)
    ensures (synced, failed) == SwapCounts(matched, failure)
  {
    synced, failed := 0, 0;
    var i := 0;
    while i < |matched|
      invariant 0 <= i <= |matched|
      invariant actor.items == AfterSwaps(old(actor.items), matched[..i], failure, origin, freshId)
      invariant synced == SwapCounts(matched[..i], failure).0 && failed == SwapCounts(matched[..i], failure).1
      invariant actor.hp == old(actor.hp) && actor.effects == old(actor.effects)
    {
      SwapsExtend(old(actor.items), matched, i, failure, origin, freshId);
      var f, newId := failure(i), freshId(i);
      SwapOne(actor, matched[i], f, origin, newId);
      if f == NoFailure {
        synced := synced + 1;
      } else {
        failed := failed + 1;
      }
      i := i + 1;
    }
    assert matched[..|matched|] == matched;
  }

  /** One more pass of the swap loop is one more `SwapStep` and one more
      count. */
  lemma SwapsExtend(items: seq<Item>, matched: seq<Match>, i: nat, failure: nat -> HostFailure,
                    origin: Option<string>, freshId: nat -> string)
    requires i < |matched|
    ensures AfterSwaps(items, matched[..i + 1], failure, origin, freshId) ==
      SwapStep(AfterSwaps(items, matched[..i], failure, origin, freshId), matched[i], failure(i), origin, freshId(i))
    ensures SwapCounts(matched[..i + 1], failure) ==
      if failure(i) == NoFailure then (SwapCounts(matched[..i], failure).0 + 1, SwapCounts(matched[..i], failure).1)
      else (SwapCounts(matched[..i], failure).0, SwapCounts(matched[..i], failure).1 + 1)
  {
    assert matched[..i + 1][..i] == matched[..i];
  }

  /** The body of the swap loop: delete the actor's feature, then create its
      replacement from the compendium. */
  method SwapOne(actor: Actor, m: Match, failure: HostFailure, origin: Option<string>, newId: string)
    modifies actor
    ensures actor.hp == old(actor.hp) && actor.effects == old(actor.effects)
    ensures actor.items == SwapStep(old(actor.items), m, failure, origin, newId)
  {
    if failure == FirstCallFails {
      return;
    }
    actor.items := WithoutIds(actor.items, [m.actor.id]);
    if failure == SecondCallFails {
      return;
    }
    actor.items := actor.items + [Replacement(m.compendium, origin, newId)];
  }

  /** `syncFeatures(actor)`. `packFound` says whether the compendium exists,
      `docs` are its documents and `proceed` the confirmation answer. When
      it gets as far as swapping, duplicates go first, then the matched
      features are swapped, and the call into the legacy curse class
      rejects. */
  method SyncFeatures(actor: Actor?, packFound: bool, docs: seq<Item>, proceed: bool, duplicateFails: nat -> bool,
                      swapFailure: nat -> HostFailure, freshId: nat -> string, texts: SyncTexts, client: Client)
    returns (outcome: SyncOutcome)
    modifies actor, client
    ensures client.outbox == old(client.outbox) && client.targets == old(client.targets)
    ensures actor != null ==> actor.hp == old(actor.hp) && actor.effects == old(actor.effects)
    ensures actor == null ==>
      outcome == Finished(NoResults) &&
      client.notices == old(client.notices) + [Notice("error", "No actor provided for feature sync")]
    ensures actor != null && !packFound ==>
      outcome == Finished(NoResults) && actor.items == old(actor.items) &&
      client.notices == old(client.notices) + [Notice("error", texts.compendiumNotFound)]
    ensures actor != null && packFound ==>
      var plan := PlanOf(old(actor.items), docs);
      (plan.total == 0 ==>
        outcome == Finished(NoResults) && actor.items == old(actor.items) &&
        client.notices == old(client.notices) + [Notice("warn", texts.noFeaturesFound)]) &&
      (plan.total > 0 && plan.matched == [] ==>
        outcome == Finished(SyncResults(0, 0, plan.total, 0, 0)) && actor.items == old(actor.items) &&
        client.notices == old(client.notices) + [Notice("info", texts.noMatching(plan.total))]) &&
      (plan.total > 0 && plan.matched != [] && !proceed ==>
        outcome == Finished(NoResults) && actor.items == old(actor.items) && client.notices == old(client.notices)) &&
      (plan.total > 0 && plan.matched != [] && proceed ==>
        var counts := SwapCounts(plan.matched, swapFailure);
        client.notices == old(client.notices) &&
        actor.items == AfterSwaps(AfterDuplicates(old(actor.items), plan.duplicates, duplicateFails),
                                  plan.matched, swapFailure, DetectOrigin(old(actor.items)), freshId) &&
        outcome == Rejected(SyncResults(counts.0, counts.1, |plan.unmatched|,
                                        RemovedCount(plan.duplicates, duplicateFails), |plan.alreadySynced|)))
  {
    if actor == null {
      client.notices := client.notices + [Notice("error", "No actor provided for feature sync")];
      return Finished(NoResults);
    }
    if !packFound {
      client.notices := client.notices + [Notice("error", texts.compendiumNotFound)];
      return Finished(NoResults);
    }
    var advancementOrigin := DetectOrigin(actor.items);
    var syncPlan := PrepareSyncPlan(actor.items, docs);
    if syncPlan.total == 0 {
      client.notices := client.notices + [Notice("warn", texts.noFeaturesFound)];
      return Finished(NoResults);
    }
    if |syncPlan.matched| == 0 {
      client.notices := client.notices + [Notice("info", texts.noMatching(syncPlan.total))];
      return Finished(SyncResults(0, 0, syncPlan.total, 0, 0));
    }
    if !proceed {
      return Finished(NoResults);
    }
    var duplicatesRemoved := RemoveDuplicates(actor, syncPlan.duplicates, duplicateFails);
    var synced, failed := SwapMatched(actor, syncPlan.matched, swapFailure, advancementOrigin, freshId);
    var results := SyncResults(synced, failed, |syncPlan.unmatched|, duplicatesRemoved, |syncPlan.alreadySynced|);
    // `BloodCurse.updateBloodMaledictMaxUses` is undefined on the legacy class: the call throws here.
    return Rejected(results);
  }

  /** A completed swap phase reports every pair as synced or failed, every
      unmatched candidate as skipped, and no more removed duplicates than
      the plan found. */
  lemma SyncTallies(plan: SyncPlan, duplicateFails: nat -> bool, swapFailure: nat -> HostFailure)
    ensures var counts := SwapCounts(plan.matched, swapFailure);
      var results := SyncResults(counts.0, counts.1, |plan.unmatched|,
                                 RemovedCount(plan.duplicates, duplicateFails), |plan.alreadySynced|);
      results.synced + results.failed == |plan.matched| && results.skipped == |plan.unmatched| &&
      results.duplicatesRemoved <= |plan.duplicates|
  {
    SwapCountsTotal(plan.matched, swapFailure);
    RemovedCountBound(plan.duplicates, duplicateFails);
  }

  // -------------------------------------------------------- the report

  /** `parts.join(sep)` */
  function Join(parts: seq<string>, sep: string): string
  {
    if |parts| == 0 then ""
    else if |parts| == 1 then parts[0]
    else parts[0] + sep + Join(parts[1..], sep)
  }

  /** The message parts, in the order the source builds them. */
  function MessageParts(r: SyncResults): seq<string>
  {
    (if r.synced > 0 then [Decimal(r.synced) + " synced"] else []) +
    (if r.duplicatesRemoved > 0 then [Decimal(r.duplicatesRemoved) + " duplicates removed"] else []) +
    (if r.alreadySynced > 0 then [Decimal(r.alreadySynced) + " already up-to-date"] else []) +
    (if r.skipped > 0 then [Decimal(r.skipped) + " skipped"] else []) +
    (if r.failed > 0 then [Decimal(r.failed) + " failed"] else [])
  }

  /** `_showSyncResults(actor, results)`: the one notification of the
      outcome; `noMatching` is the localized no-match text for a count. */
  function SyncResultsNotice(actorName: string, r: SyncResults, noMatching: nat -> string): (n: Notice)
  {
    var message := actorName + ": " + Join(MessageParts(r), ", ");
    if r.synced == 0 && r.failed == 0 && r.duplicatesRemoved == 0 && r.alreadySynced > 0 && r.skipped == 0 then
      Notice("info", actorName + ": All features are already up-to-date!")
    else if r.synced == 0 && r.failed == 0 && r.duplicatesRemoved == 0 && r.skipped > 0 then
      Notice("info", noMatching(r.skipped))
    else if r.failed == 0 then Notice("info", message)
    else if r.failed > 0 && r.synced > 0 then Notice("warn", message)
    else Notice("error", message)
  }

  /** The report is an error exactly when something failed and nothing was
      synced, a warning when both happened, and information otherwise. */
  lemma SyncResultsLevel(actorName: string, r: SyncResults, noMatching: nat -> string)
    ensures SyncResultsNotice(actorName, r, noMatching).level == "error" <==> r.failed > 0 && r.synced == 0
    ensures SyncResultsNotice(actorName, r, noMatching).level == "warn" <==> r.failed > 0 && r.synced > 0
    ensures SyncResultsNotice(actorName, r, noMatching).level == "info" <==> r.failed == 0
  {
  }
}
