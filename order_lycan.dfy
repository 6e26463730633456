// scripts/order-lycan.js: the Order of the Lycan's hybrid transformation.
//
// The bonuses of the hybrid form come from a table keyed by Blood Hunter
// level, looked up by the highest key not above the hunter's level. The
// transformation is one active effect on the actor, recognised by its
// `hybridTransformation` flag: `transform` adds it when there is none and
// `revertTransformation` deletes the first one. Whether an actor belongs to
// the order is a flag on a feat or a keyword in a feature's text, searched by
// two nested loops with an early return.

module OrderLycan {
  import opened Common
  import opened Documents
  import Utils

  // ------------------------------------------------------ hybrid bonuses

  /** One entry of `HYBRID_BONUSES`. */
  datatype HybridBonuses = HybridBonuses(ac: int, speed: int, strength: int, dexterity: int,
                                         damageReduction: int, features: seq<string>)

  /** The keys of `HYBRID_BONUSES`, as `Object.keys` lists them. */
  const HybridLevels: seq<int> := [3, 7, 11, 15, 18]

  const PredatoryStrikes := "predatoryStrikes"

  const HybridBonusTable: map<int, HybridBonuses> := map[
    3 := HybridBonuses(1, 10, 0, 0, 0,
           ["predatoryStrikes", "cursedWeakness", "bloodLust"]),
    7 := HybridBonuses(1, 15, 1, 0, 0,
           ["predatoryStrikes", "cursedWeakness", "bloodLust", "stalkersprowess"]),
    11 := HybridBonuses(2, 15, 1, 1, 3,
           ["predatoryStrikes", "cursedWeakness", "bloodLust", "stalkersprowess",
            "brandOfTheVoracious"]),
    15 := HybridBonuses(2, 20, 2, 1, 5,
           ["predatoryStrikes", "cursedWeakness", "bloodLust", "stalkersprowess",
            "brandOfTheVoracious", "advancedTransformation"]),
    18 := HybridBonuses(2, 20, 2, 2, 5,
           ["predatoryStrikes", "cursedWeakness", "bloodLust", "stalkersprowess",
            "brandOfTheVoracious", "advancedTransformation", "hybridTransformationMastery"])
  ]

  /** `.filter(l => level >= l)`: the levels not above `level`, in order. */
  function AtMost(levels: seq<int>, level: int): (r: seq<int>)
    ensures forall x :: x in r <==> x in levels && x <= level
  {
    if |levels| == 0 then []
    else (if levels[0] <= level then [levels[0]] else []) + AtMost(levels[1..], level)
  }

  /** The first element after `.sort((a, b) => b - a)`: the largest one. */
  function Largest(levels: seq<int>): (r: int)
    requires |levels| > 0
    ensures r in levels
    ensures forall x :: x in levels ==> x <= r
  {
    if |levels| == 1 then levels[0]
    else
      assert levels == [levels[0]] + levels[1..];
      var rest := Largest(levels[1..]);
      if levels[0] >= rest then levels[0] else rest
  }

  /** `getHybridBonuses(level)`: the entry of the highest key not above the
      level, or the level-3 entry when there is none. */
  function GetHybridBonuses(level: int): HybridBonuses
  {
    var applicable := AtMost(HybridLevels, level);
    if |applicable| > 0 && Largest(applicable) in HybridBonusTable then
      HybridBonusTable[Largest(applicable)]
    else
      HybridBonusTable[3]
  }

  /** The threshold whose entry a level gets, read off the table by hand. */
  function Threshold(level: int): (t: int)
    ensures t in HybridLevels && t in HybridBonusTable
    ensures level < 3 ==> t == 3
    ensures level >= 3 ==> t <= level
    ensures forall x :: x in HybridLevels && x <= level ==> x <= t
  {
    if level >= 18 then 18
    else if level >= 15 then 15
    else if level >= 11 then 11
    else if level >= 7 then 7
    else 3
  }

  /** The lookup picks the highest threshold not above the level; levels
      below 3 get the level-3 entry. */
  lemma GetHybridBonusesThreshold(level: int)
    ensures GetHybridBonuses(level) == HybridBonusTable[Threshold(level)]
  {
    var applicable := AtMost(HybridLevels, level);
    if level >= 3 {
      assert 3 in applicable;
      var top := Largest(applicable);
      assert top in HybridLevels && top <= level;
      assert Threshold(level) in applicable;
      assert top == Threshold(level);
    } else {
      AtMostNone(HybridLevels, level);
    }
  }

  /** No level is kept when all of them are above the bound. */
  lemma {:induction false} AtMostNone(levels: seq<int>, level: int)
    requires forall k :: 0 <= k < |levels| ==> levels[k] > level
    ensures AtMost(levels, level) == []
  {
    if |levels| > 0 {
      AtMostNone(levels[1..], level);
    }
  }

  /** `b` extends `a` by exactly one name it did not already hold. */
  predicate ExtendsByOne(a: seq<string>, b: seq<string>)
  {
    |b| == |a| + 1 && b[..|a|] == a && b[|a|] !in a
  }

  /** From each threshold to the next, no bonus shrinks and the feature list
      gains exactly one new name. */
  lemma HybridTableSteps(i: nat)
    requires i + 1 < |HybridLevels|
    ensures var lo := HybridBonusTable[HybridLevels[i]];
            var hi := HybridBonusTable[HybridLevels[i + 1]];
            lo.ac <= hi.ac && lo.speed <= hi.speed && lo.strength <= hi.strength &&
            lo.dexterity <= hi.dexterity && lo.damageReduction <= hi.damageReduction &&
            ExtendsByOne(lo.features, hi.features)
  {
  }

  /** Every entry grants Predatory Strikes, as its first feature. */
  lemma EveryEntryHasPredatoryStrikes(level: int)
    ensures |GetHybridBonuses(level).features| > 0
    ensures GetHybridBonuses(level).features[0] == PredatoryStrikes
  {
    GetHybridBonusesThreshold(level);
  }

  /** A higher level never gets a smaller bonus, and its feature list extends
      the lower level's. */
  lemma GetHybridBonusesMonotone(lo: int, hi: int)
    requires lo <= hi
    ensures GetHybridBonuses(lo).ac <= GetHybridBonuses(hi).ac
    ensures GetHybridBonuses(lo).speed <= GetHybridBonuses(hi).speed
    ensures GetHybridBonuses(lo).strength <= GetHybridBonuses(hi).strength
    ensures GetHybridBonuses(lo).dexterity <= GetHybridBonuses(hi).dexterity
    ensures GetHybridBonuses(lo).damageReduction <= GetHybridBonuses(hi).damageReduction
    ensures |GetHybridBonuses(lo).features| <= |GetHybridBonuses(hi).features|
    ensures GetHybridBonuses(hi).features[..|GetHybridBonuses(lo).features|] == GetHybridBonuses(lo).features
  {
    GetHybridBonusesThreshold(lo);
    GetHybridBonusesThreshold(hi);
    TableMonotone(Threshold(lo), Threshold(hi));
  }

  /** The level-18 list, of which every entry's list is a prefix. */
  const AllHybridFeatures := HybridBonusTable[18].features

  /** Between two thresholds no bonus shrinks and the feature list grows by
      extension. */
  lemma TableMonotone(a: int, b: int)
    requires a in HybridLevels && b in HybridLevels && a <= b
    ensures var lo := HybridBonusTable[a];
            var hi := HybridBonusTable[b];
            lo.ac <= hi.ac && lo.speed <= hi.speed && lo.strength <= hi.strength &&
            lo.dexterity <= hi.dexterity && lo.damageReduction <= hi.damageReduction &&
            |lo.features| <= |hi.features| && hi.features[..|lo.features|] == lo.features
  {
    EntryIsPrefix(a);
    EntryIsPrefix(b);
    var n := |HybridBonusTable[a].features|;
    var m := |HybridBonusTable[b].features|;
    assert n <= m;
    PrefixOfPrefix(AllHybridFeatures, n, m);
  }

  /** Each entry's feature list is a prefix of the level-18 list. */
  lemma EntryIsPrefix(t: int)
    requires t in HybridLevels
    ensures var fs := HybridBonusTable[t].features;
      |fs| <= |AllHybridFeatures| && fs == AllHybridFeatures[..|fs|]
  {
  }

  lemma PrefixOfPrefix<T>(s: seq<T>, n: nat, m: nat)
    requires n <= m <= |s|
    ensures s[..m][..n] == s[..n]
  {
  }

  // ------------------------------------------------ the transformation effect

  const HybridIcon := "icons/creatures/mammals/wolf-howl-moon-white.webp"
  const HybridDuration := 3600
  const AcKey := "system.attributes.ac.bonus"
  const WalkKey := "system.attributes.movement.walk"
  const StrKey := "system.abilities.str.value"
  const DexKey := "system.abilities.dex.value"

  /** Some change of the list targets `key`. */
  predicate ChangesKey(changes: seq<Change>, key: string)
  {
    exists c :: c in changes && c.key == key
  }

  /** `createTransformationEffect(actor, bonuses)` for an actor of Blood Hunter
      level `level`; the host gives the new effect its id and `transfer`. */
  function TransformationEffect(level: int, actorUuid: string, effectName: string, bonuses: HybridBonuses,
                                newEffectId: string, defaultTransfer: bool): (e: Effect)
    ensures e.IsHybrid() && e.flags.features == bonuses.features
    ensures e.flags.lycanLevel == level && e.flags.damageReduction == bonuses.damageReduction
    ensures e.duration.seconds == Some(HybridDuration) && e.origin == actorUuid
    ensures |e.changes| >= 2
    ensures e.changes[0] == Change(AcKey, Add, NumValue(bonuses.ac), 20)
    ensures e.changes[1] == Change(WalkKey, Add, NumValue(bonuses.speed), 20)
    ensures ChangesKey(e.changes, StrKey) <==> bonuses.strength > 0
    ensures ChangesKey(e.changes, DexKey) <==> bonuses.dexterity > 0
    ensures forall c :: c in e.changes && c.key == StrKey ==> c.value == NumValue(bonuses.strength)
    ensures forall c :: c in e.changes && c.key == DexKey ==> c.value == NumValue(bonuses.dexterity)
    ensures forall c :: c in e.changes ==>
      c.mode == Add && c.priority == 20 && c.key in {AcKey, WalkKey, StrKey, DexKey}
  {
    var changes :=
      [Change(AcKey, Add, NumValue(bonuses.ac), 20), Change(WalkKey, Add, NumValue(bonuses.speed), 20)] +
      (if bonuses.strength > 0 then [Change(StrKey, Add, NumValue(bonuses.strength), 20)] else []) +
      (if bonuses.dexterity > 0 then [Change(DexKey, Add, NumValue(bonuses.dexterity), 20)] else []);
    Effect(newEffectId, effectName, HybridIcon, actorUuid, changes, Duration(None, Some(HybridDuration)),
           HybridFlags(level, bonuses.damageReduction, bonuses.features), [], defaultTransfer)
  }

  // ------------------------------------------------------ transformed state

  /** `getTransformationEffect(actor)`: the first effect carrying the
      `hybridTransformation` flag. */
  function FirstHybrid(effects: seq<Effect>): (r: Option<nat>)
    ensures r.Some? ==> r.value < |effects| && effects[r.value].IsHybrid()
    ensures r.Some? ==> forall k :: 0 <= k < r.value ==> !effects[k].IsHybrid()
    ensures r.None? ==> forall k :: 0 <= k < |effects| ==> !effects[k].IsHybrid()
  {
    if |effects| == 0 then None
    else if effects[0].IsHybrid() then Some(0)
    else match FirstHybrid(effects[1..])
      case None => None
      case Some(k) => Some(k + 1)
  }

  /** `isTransformed(actor)`: some effect of a non-null actor is a hybrid
      transformation, which is exactly when there is one to revert. */
  function IsTransformed(actor: Actor?): (b: bool)
    reads actor
    ensures b <==> actor != null && FirstHybrid(actor.effects).Some?
  {
    actor != null && exists k :: 0 <= k < |actor.effects| && actor.effects[k].IsHybrid()
  }

  /** `hasPredatoryStrikes(actor)`: the transformation effect lists
      'predatoryStrikes' among its features. */
  function HasPredatoryStrikes(effects: seq<Effect>): (b: bool)
    ensures b ==> exists k :: 0 <= k < |effects| && effects[k].IsHybrid() &&
                              PredatoryStrikes in effects[k].flags.features
  {
    match FirstHybrid(effects)
    case None => false
    case Some(k) => PredatoryStrikes in effects[k].flags.features
  }

  /** The effects after `revertTransformation`: the first transformation
      effect deleted. */
  function Reverted(effects: seq<Effect>): seq<Effect>
  {
    match FirstHybrid(effects)
    case None => effects
    case Some(k) => effects[..k] + effects[k + 1..]
  }

  /** At most one transformation effect is on the actor. */
  predicate AtMostOneHybrid(effects: seq<Effect>)
  {
    forall i, j :: 0 <= i < j < |effects| && effects[i].IsHybrid() ==> !effects[j].IsHybrid()
  }

  /** Behind effects none of which is a transformation, a transformation is
      the first one found. */
  lemma {:induction false} FirstHybridAtEnd(effects: seq<Effect>, effect: Effect)
    requires forall k :: 0 <= k < |effects| ==> !effects[k].IsHybrid()
    requires effect.IsHybrid()
    ensures FirstHybrid(effects + [effect]) == Some(|effects|)
  {
    if |effects| > 0 {
      assert (effects + [effect])[1..] == effects[1..] + [effect];
      FirstHybridAtEnd(effects[1..], effect);
    }
  }

  /** Reverting right after a transformation gives back the effects the
      actor had before it. */
  lemma TransformRevertRoundTrip(effects: seq<Effect>, effect: Effect)
    requires FirstHybrid(effects).None?
    requires effect.IsHybrid()
    ensures Reverted(effects + [effect]) == effects
  {
    FirstHybridAtEnd(effects, effect);
    assert (effects + [effect])[..|effects|] == effects;
  }

  /** A transformation at any level grants Predatory Strikes. */
  lemma TransformGrantsPredatoryStrikes(effects: seq<Effect>, level: int, actorUuid: string, effectName: string,
                                        newEffectId: string, defaultTransfer: bool)
    requires FirstHybrid(effects).None?
    ensures HasPredatoryStrikes(effects + [TransformationEffect(level, actorUuid, effectName,
                                  GetHybridBonuses(level), newEffectId, defaultTransfer)])
  {
    var e := TransformationEffect(level, actorUuid, effectName, GetHybridBonuses(level), newEffectId, defaultTransfer);
    FirstHybridAtEnd(effects, e);
    EveryEntryHasPredatoryStrikes(level);
    assert e.flags.features[0] == PredatoryStrikes;
  }

  /** Adding a transformation only when there is none keeps at most one. */
  lemma TransformKeepsOneHybrid(effects: seq<Effect>, effect: Effect)
    requires FirstHybrid(effects).None?
    ensures AtMostOneHybrid(effects + [effect])
  {
    assert forall k :: 0 <= k < |effects| ==> (effects + [effect])[k] == effects[k];
  }

  /** With at most one transformation, reverting leaves none. */
  lemma RevertLeavesNone(effects: seq<Effect>)
    requires AtMostOneHybrid(effects)
    ensures FirstHybrid(Reverted(effects)).None?
    ensures |Reverted(effects)| == if FirstHybrid(effects).Some? then |effects| - 1 else |effects|
  {
    match FirstHybrid(effects)
    case None =>
    case Some(k) =>
      var after := effects[..k] + effects[k + 1..];
      forall m | 0 <= m < |after|
        ensures !after[m].IsHybrid()
      {
        if m >= k {
          assert after[m] == effects[m + 1];
        }
      }
  }

  // ----------------------------------------------------- transform / revert

  const AlreadyTransformedKey := "BLOODHUNTER.Lycan.AlreadyTransformed"
  const TransformedKey := "BLOODHUNTER.Lycan.Transformed"
  const NotTransformedKey := "BLOODHUNTER.Lycan.NotTransformed"
  const RevertedKey := "BLOODHUNTER.Lycan.Reverted"
  const HybridFormKey := "BLOODHUNTER.Lycan.HybridForm"

  /** `transform(actor)`: a warning when already transformed; otherwise the
      transformation effect for the actor's level, and an info notice. */
  method Transform(actor: Actor, actorUuid: string, localized: string -> string, newEffectId: string,
                   defaultTransfer: bool, client: Client)
    modifies actor, client
    ensures old(IsTransformed(actor)) ==> actor.effects == old(actor.effects)
    ensures old(IsTransformed(actor)) ==>
      client.notices == old(client.notices) + [Notice("warn", localized(AlreadyTransformedKey))]
    ensures !old(IsTransformed(actor)) ==>
      var level := Utils.BloodHunterLevelOf(old(actor.items));
      actor.effects == old(actor.effects) +
        [TransformationEffect(level, actorUuid, localized(HybridFormKey), GetHybridBonuses(level),
                              newEffectId, defaultTransfer)]
    ensures !old(IsTransformed(actor)) ==>
      client.notices == old(client.notices) + [Notice("info", localized(TransformedKey))]
    ensures IsTransformed(actor)
    ensures actor.items == old(actor.items) && actor.hp == old(actor.hp)
    ensures client.targets == old(client.targets) && client.outbox == old(client.outbox)
  {
    if IsTransformed(actor) {
      client.notices := client.notices + [Notice("warn", localized(AlreadyTransformedKey))];
      return;
    }
    var level := Utils.BloodHunterLevelOf(actor.items);
    var bonuses := GetHybridBonuses(level);
    var effectData := TransformationEffect(level, actorUuid, localized(HybridFormKey), bonuses,
                                           newEffectId, defaultTransfer);
    actor.effects := actor.effects + [effectData];
    assert actor.effects[|actor.effects| - 1].IsHybrid();
    client.notices := client.notices + [Notice("info", localized(TransformedKey))];
  }

  /** `revertTransformation(actor)`: a warning when not transformed;
      otherwise the transformation effect is deleted, with an info notice. */
  method RevertTransformation(actor: Actor, localized: string -> string, client: Client)
    modifies actor, client
    ensures actor.effects == Reverted(old(actor.effects))
    ensures !old(IsTransformed(actor)) ==> actor.effects == old(actor.effects)
    ensures !old(IsTransformed(actor)) ==>
      client.notices == old(client.notices) + [Notice("warn", localized(NotTransformedKey))]
    ensures old(IsTransformed(actor)) ==>
      client.notices == old(client.notices) + [Notice("info", localized(RevertedKey))]
    ensures actor.items == old(actor.items) && actor.hp == old(actor.hp)
    ensures client.targets == old(client.targets) && client.outbox == old(client.outbox)
  {
    var effect := FirstHybrid(actor.effects);
    if effect.None? {
      client.notices := client.notices + [Notice("warn", localized(NotTransformedKey))];
      return;
    }
    var k := effect.value;
    actor.effects := actor.effects[..k] + actor.effects[k + 1..];
    client.notices := client.notices + [Notice("info", localized(RevertedKey))];
  }

  // ------------------------------------------------------ order detection

  /** The keywords `hasLycanFeatures` looks for, in English and French. */
  const LycanKeywords: seq<string> := [
    "lycan", "lycanthrope", "hybrid transformation", "hybrid form",
    "predatory strikes", "blood lust", "cursed weakness",
    "heightened senses", "stalker's prowess", "stalkers prowess",
    "brand of the voracious", "advanced transformation",
    "hybrid transformation mastery",
    "transformation hybride", "forme hybride", "frappes prédatrices",
    "soif de sang", "faiblesse maudite", "sens aiguisés",
    "prouesse du traqueur", "marque du vorace",
    "transformation avancée", "maîtrise de la transformation hybride"
  ]

  /** The lowercased name or description of a feature holds a keyword. */
  predicate MentionsLycan(f: Item)
  {
    exists q :: 0 <= q < |LycanKeywords| &&
      (Contains(Lower(f.name), LycanKeywords[q]) || Contains(Lower(f.description), LycanKeywords[q]))
  }

  /** Some feat or feature of the items mentions the order. */
  predicate LycanByText(items: seq<Item>)
  {
    exists f :: f in items && f.IsFeatOrFeature() && MentionsLycan(f)
  }

  /** Some feat carries the `orderOfTheLycan` flag. */
  predicate LycanByFlag(items: seq<Item>)
  {
    exists f :: f in items && f.IsFeat() && f.flags.IsLycanOrder()
  }

  /** `items.filter(i => i.type === 'feat' || i.type === 'feature')` */
  function FeatureItems(items: seq<Item>): (r: seq<Item>)
    ensures forall x :: x in r <==> x in items && x.IsFeatOrFeature()
  {
    if |items| == 0 then []
    else (if items[0].IsFeatOrFeature() then [items[0]] else []) + FeatureItems(items[1..])
  }

  /** The inner loop of `hasLycanFeatures`: one feature's lowercased name
      and description against every keyword, until one matches. */
  method FeatureMentionsLycan(feature: Item) returns (found: bool)
    ensures found <==> MentionsLycan(feature)
  {
    var name := Lower(feature.name);
    var description := Lower(feature.description);
    var q := 0;
    while q < |LycanKeywords|
      invariant 0 <= q <= |LycanKeywords|
      invariant forall p :: 0 <= p < q ==>
        !Contains(name, LycanKeywords[p]) && !Contains(description, LycanKeywords[p])
    {
      if Contains(name, LycanKeywords[q]) || Contains(description, LycanKeywords[q]) {
        return true;
      }
      q := q + 1;
    }
    return false;
  }

  /** `hasLycanFeatures(actor)`: every feature against every keyword, until
      one matches. */
  method HasLycanFeatures(actor: Actor?) returns (found: bool)
    ensures found <==> actor != null && LycanByText(actor.items)
  {
    if actor == null {
      return false;
    }
    var features := FeatureItems(actor.items);
    var i := 0;
    while i < |features|
      invariant 0 <= i <= |features|
      invariant forall p :: 0 <= p < i ==> !MentionsLycan(features[p])
    {
      var mentions := FeatureMentionsLycan(features[i]);
      if mentions {
        assert features[i] in features;
        return true;
      }
      i := i + 1;
    }
    forall f | f in actor.items && f.IsFeatOrFeature()
      ensures !MentionsLycan(f)
    {
      assert f in features;
      var p :| 0 <= p < |features| && features[p] == f;
    }
    return false;
  }

  /** `isLycan(actor)`: the order's flag on a feat, else the keyword search. */
  method IsLycan(actor: Actor?) returns (b: bool)
    ensures b <==> actor != null && (LycanByFlag(actor.items) || LycanByText(actor.items))
  {
    if actor == null {
      return false;
    }
    if LycanByFlag(actor.items) {
      return true;
    }
    b := HasLycanFeatures(actor);
  }

  /** Detection only grows: an actor of the order stays one when items are
      added. */
  lemma LycanKeptByAppend(items: seq<Item>, extra: seq<Item>)
    requires LycanByFlag(items) || LycanByText(items)
    ensures LycanByFlag(items + extra) || LycanByText(items + extra)
  {
    if LycanByFlag(items) {
      var f :| f in items && f.IsFeat() && f.flags.IsLycanOrder();
      assert f in items + extra;
    } else {
      var f :| f in items && f.IsFeatOrFeature() && MentionsLycan(f);
      assert f in items + extra;
    }
  }

  /** A feature whose name mentions "Lycan", in any case, marks the order. */
  lemma LycanNamedFeature(items: seq<Item>, f: Item)
    requires f.IsFeatOrFeature() && Contains(Lower(f.name), "lycan")
    ensures LycanByText(items + [f])
  {
    assert LycanKeywords[0] == "lycan";
    assert MentionsLycan(f);
    assert f in items + [f];
  }

  // ---------------------------------------------------------------- dialog

  /** The button the user presses: the dialog's action (transform or revert,
      by the current state) or Cancel. */
  datatype DialogChoice = Cancel | Confirm

  /** The actor the dialog is for: the one given, else the first controlled
      token's. */
  function DialogActor(actor: Actor?, controlled: Option<Token>): Actor?
  {
    if actor != null then actor else if controlled.Some? then controlled.value.actor else null
  }

  /** `transformationDialog(actor)` with the dialog's choice as an input. */
  method TransformationDialog(actor: Actor?, controlled: Option<Token>, choice: DialogChoice, actorUuid: string,
                              localized: string -> string, newEffectId: string, defaultTransfer: bool,
                              client: Client)
    modifies DialogActor(actor, controlled), client
    ensures actor == null && controlled.None? ==>
      client.notices == old(client.notices) + [Notice("warn", "Please select a token")]
    ensures var target := DialogActor(actor, controlled);
      target != null && !old(LycanByFlag(target.items) || LycanByText(target.items)) ==>
        target.effects == old(target.effects) &&
        client.notices == old(client.notices) + [Notice("error", localized("BLOODHUNTER.Lycan.NotLycan"))]
    ensures var target := DialogActor(actor, controlled);
      target != null && choice == Cancel ==> target.effects == old(target.effects)
    ensures var target := DialogActor(actor, controlled);
      target != null && choice == Confirm && old(LycanByFlag(target.items) || LycanByText(target.items)) ==>
        target.effects ==
          (if old(IsTransformed(target)) then Reverted(old(target.effects)) else
           old(target.effects) +
             [TransformationEffect(Utils.BloodHunterLevelOf(old(target.items)), actorUuid,
                                   localized(HybridFormKey),
                                   GetHybridBonuses(Utils.BloodHunterLevelOf(old(target.items))),
                                   newEffectId, defaultTransfer)])
    ensures client.targets == old(client.targets) && client.outbox == old(client.outbox)
  {
    var target := actor;
    if target == null {
      if controlled.None? {
        client.notices := client.notices + [Notice("warn", "Please select a token")];
        return;
      }
      target := controlled.value.actor;
    }
    var lycan := IsLycan(target);
    if !lycan {
      client.notices := client.notices + [Notice("error", localized("BLOODHUNTER.Lycan.NotLycan"))];
      return;
    }
    if choice == Confirm {
      if IsTransformed(target) {
        RevertTransformation(target, localized, client);
      } else {
        Transform(target, actorUuid, localized, newEffectId, defaultTransfer, client);
      }
    }
  }

  // ------------------------------------------------------ predatory strikes

  /** The roll configuration of `dnd5e.preRollDamage`; `parts` may be
      missing. */
  class RollConfig {
    var parts: Option<seq<string>>
  }

  /** `addPredatoryStrikesDamage(item, rollConfig)`: the hemocraft die as
      slashing damage, the same formula a slashing Crimson Rite would add,
      appended when there are parts. */
  method AddPredatoryStrikesDamage(actor: Actor?, rollConfig: RollConfig)
    modifies rollConfig
    ensures old(rollConfig.parts).Some? ==>
      rollConfig.parts == Some(old(rollConfig.parts).value + [Utils.RiteDamage(Utils.BloodHunterLevel(actor), "slashing")])
    ensures old(rollConfig.parts).None? ==> rollConfig.parts == None
  {
    var hemocraftDie := Utils.HemocraftDieOf(actor);
    assert hemocraftDie + "[slashing]" == Utils.RiteDamage(Utils.BloodHunterLevel(actor), "slashing");
    if rollConfig.parts.Some? {
      rollConfig.parts := Some(rollConfig.parts.value + [hemocraftDie + "[slashing]"]);
    }
  }
}
