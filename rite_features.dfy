// scripts/crimson-rite-features.js: Crimson Rites as feature items the
// player clicks instead of opening the rite dialog. A feature is a `feat`
// item whose module flags carry `crimsonRiteFeature` and the rite's type;
// it works on the legacy `CrimsonRite` class and its nine-rite table.

module RiteFeatures {
  import opened Common
  import opened Documents
  import opened RiteConstants
  import Utils
  import Integrations
  import LegacyCrimsonRite

  // ------------------------------------------------------ the feature item

  /** The record `createRiteFeatureData` builds, as far as the plugin reads
      or writes it again. */
  datatype FeatureData = FeatureData(
    name: string,
    itemType: string,
    img: string,
    description: string,
    activationType: string,
    activationCost: int,
    requirements: string,
    flags: ModuleFlags)

  /** The fixed parts of the feature's description, around the damage type
      it names twice. */
  const DescriptionOpening: string :=
    "<p><strong>Crimson Rite</strong></p><p>As a bonus action, you can activate a Crimson Rite on a single " +
    "weapon with the elemental energy of "
  const DescriptionMiddle: string :=
    " damage.</p><p>The rite lasts until you finish a short or long rest. When you activate a Crimson Rite, " +
    "you take necrotic damage equal to one roll of your hemocraft die.</p><p>While the rite is active, " +
    "attacks you make with this weapon deal an extra hemocraft die of "
  const DescriptionClosing: string :=
    " damage.</p><p><em>Click to activate this rite on one of your weapons.</em></p>"

  function FeatureDescription(damageType: string): string
  {
    DescriptionOpening + damageType + DescriptionMiddle + damageType + DescriptionClosing
  }

  /** `createRiteFeatureData(riteType)` over the rite table `table` (the
      legacy `RITE_TYPES`): `None` (the source's `null`) for a type the table
      does not know. */
  function CreateRiteFeatureData(table: seq<RiteInfo>, localized: string -> string, riteType: string)
    : (r: Option<FeatureData>)
    ensures r.None? <==> riteType !in RiteKeys(table)
    ensures r.Some? ==> r.value.itemType == "feat" && r.value.activationType == "bonus" && r.value.activationCost == 1
    ensures r.Some? ==> r.value.flags.IsRiteFeature() && r.value.flags.RiteType() == riteType
    ensures r.Some? ==>
      LookupRite(table, riteType).Some? &&
      r.value.requirements == "Blood Hunter " + IntDecimal(LookupRite(table, riteType).value.level) &&
      r.value.flags.damageType == LookupRite(table, riteType).value.damageType &&
      r.value.flags.requiredLevel == LookupRite(table, riteType).value.level
  {
    match LookupRite(table, riteType)
    case None => None
    case Some(info) =>
      Some(FeatureData(
        localized("BLOODHUNTER.CrimsonRite.Types." + riteType),
        "feat",
        Integrations.RiteIcon(riteType),
        FeatureDescription(info.damageType),
        "bonus",
        1,
        "Blood Hunter " + IntDecimal(info.level),
        EmptyFlags.(crimsonRiteFeature := true, riteType := riteType, damageType := info.damageType,
                    requiredLevel := info.level)))
  }

  /** The item `createEmbeddedDocuments` makes of a record, under the id the
      host gives it: no uses, no range value, no effects. */
  function CreatedItem(d: FeatureData, id: string): Item
  {
    Item(id, d.itemType, d.name, d.description, "", 0, "", "", d.flags, NoUses, false, true, [])
  }

  /** The items created from `records`, the `k`-th under `freshId(k)`. */
  function CreatedItems(records: seq<FeatureData>, freshId: nat -> string): (r: seq<Item>)
    ensures |r| == |records|
    ensures forall k :: 0 <= k < |records| ==> r[k] == CreatedItem(records[k], freshId(k))
  {
    seq(|records|, k requires 0 <= k < |records| => CreatedItem(records[k], freshId(k)))
  }

  // ---------------------------------------------------- using the feature

  /** What a `dnd5e.useItem` hook returns: `undefined` lets the host go on,
      `false` stops its default use of the item. */
  datatype HookResult = Undefined | Prevent

  /** What the player does in the weapon dialog. */
  datatype DialogChoice = Cancelled | ActivateOn(weaponId: string) | DeactivateOn(weaponId: string)

  /** The values `activate` and `deactivate` take from the host: those of
      `activate`, and the deactivation and no-weapon texts. */
  datatype RiteInputs = RiteInputs(
    activate: LegacyCrimsonRite.ActivateInputs, deactivatedText: string, noWeaponsText: string)

  predicate HasWeapon(items: seq<Item>)
  {
    exists k :: 0 <= k < |items| && items[k].itemType == "weapon"
  }

  /** The dialog's weapons are exactly the items `isValidRiteWeapon` accepts,
      so it opens exactly when one of them is a valid rite weapon. */
  lemma HasWeaponIsValidRiteWeapon(items: seq<Item>)
    ensures HasWeapon(items) <==> exists k :: 0 <= k < |items| && Utils.IsValidRiteWeapon(Some(items[k]))
  {
    if HasWeapon(items) {
      var k :| 0 <= k < |items| && items[k].itemType == "weapon";
      assert Utils.IsValidRiteWeapon(Some(items[k]));
    }
  }

  /** `activateRiteFromFeature(actor, riteType)` with the dialog answered by
      `choice`. With no weapon only a warning is shown; the buttons call the
      legacy `activate` and `deactivate`. */
  method ActivateRiteFromFeature(actor: Actor, riteType: string, choice: DialogChoice, inputs: RiteInputs,
                                 client: Client)
    returns (outcome: Option<LegacyCrimsonRite.ActivateOutcome>)
    modifies actor, client
    ensures actor.effects == old(actor.effects)
    ensures client.outbox == old(client.outbox) && client.targets == old(client.targets)
    ensures !HasWeapon(old(actor.items)) ==>
      actor.items == old(actor.items) && actor.hp == old(actor.hp) &&
      client.notices == old(client.notices) + [Notice("warn", inputs.noWeaponsText)]
    ensures HasWeapon(old(actor.items)) && choice.Cancelled? ==>
      actor.items == old(actor.items) && actor.hp == old(actor.hp) && client.notices == old(client.notices)
    ensures outcome.Some? <==> HasWeapon(old(actor.items)) && choice.ActivateOn?
    ensures HasWeapon(old(actor.items)) && choice.DeactivateOn? ==>
      actor.hp == old(actor.hp) &&
      actor.items == LegacyCrimsonRite.DeactivatedItems(old(actor.items), choice.weaponId) &&
      client.notices == old(client.notices) +
        LegacyCrimsonRite.DeactivateNotices(old(actor.items), choice.weaponId, true, inputs.deactivatedText)
    ensures HasWeapon(old(actor.items)) && choice.ActivateOn? ==>
      var r := LegacyCrimsonRite.ActivateSpec(old(actor.items), old(actor.hp), choice.weaponId, riteType,
                                              inputs.activate);
      outcome == Some(r.outcome) && actor.items == r.items && actor.hp == r.hp &&
      client.notices == old(client.notices) + r.shown
  {
    var weapons := HasWeapon(actor.items);
    if !weapons {
      client.notices := client.notices + [Notice("warn", inputs.noWeaponsText)];
      return None;
    }
    match choice
    case Cancelled =>
      return None;
    case DeactivateOn(weaponId) =>
      LegacyCrimsonRite.Deactivate(actor, weaponId, true, inputs.deactivatedText, client);
      return None;
    case ActivateOn(weaponId) =>
      var result := LegacyCrimsonRite.Activate(actor, weaponId, riteType, inputs.activate, client);
      return Some(result);
  }

  /** `_onUseItem(item)`: items without the feature flag, or without an
      actor, are left to the host; a flagged item never is. A flagged item
      without a rite type only raises an error; one with a rite type opens
      the weapon dialog of `activateRiteFromFeature` for that type. */
  method OnUseItem(item: Item, actor: Actor?, choice: DialogChoice, inputs: RiteInputs, client: Client)
    returns (result: HookResult)
    modifies actor, client
    ensures result == Undefined <==> !item.flags.IsRiteFeature() || actor == null
    ensures client.outbox == old(client.outbox) && client.targets == old(client.targets)
    ensures actor != null ==> actor.effects == old(actor.effects)
    ensures result == Undefined || item.flags.RiteType() == "" ==>
      (actor != null ==> actor.items == old(actor.items) && actor.hp == old(actor.hp)) &&
      client.notices == old(client.notices) +
        (if result == Prevent then [Notice("error", "Invalid Crimson Rite feature: missing rite type")] else [])
    ensures result == Prevent && item.flags.RiteType() != "" && !HasWeapon(old(actor.items)) ==>
      actor.items == old(actor.items) && actor.hp == old(actor.hp) &&
      client.notices == old(client.notices) + [Notice("warn", inputs.noWeaponsText)]
    ensures result == Prevent && item.flags.RiteType() != "" && HasWeapon(old(actor.items)) && choice.Cancelled? ==>
      actor.items == old(actor.items) && actor.hp == old(actor.hp) && client.notices == old(client.notices)
    ensures result == Prevent && item.flags.RiteType() != "" && HasWeapon(old(actor.items)) &&
            choice.DeactivateOn? ==>
      actor.hp == old(actor.hp) &&
      actor.items == LegacyCrimsonRite.DeactivatedItems(old(actor.items), choice.weaponId) &&
      client.notices == old(client.notices) +
        LegacyCrimsonRite.DeactivateNotices(old(actor.items), choice.weaponId, true, inputs.deactivatedText)
    ensures result == Prevent && item.flags.RiteType() != "" && HasWeapon(old(actor.items)) &&
            choice.ActivateOn? ==>
      var r := LegacyCrimsonRite.ActivateSpec(old(actor.items), old(actor.hp), choice.weaponId,
                                              item.flags.RiteType(), inputs.activate);
      actor.items == r.items && actor.hp == r.hp && client.notices == old(client.notices) + r.shown
  {
    if !item.flags.IsRiteFeature() {
      return Undefined;
    }
    if actor == null {
      return Undefined;
    }
    var riteType := item.flags.RiteType();
    if riteType == "" {
      client.notices := client.notices + [Notice("error", "Invalid Crimson Rite feature: missing rite type")];
      return Prevent;
    }
    var _ := ActivateRiteFromFeature(actor, riteType, choice, inputs, client);
    return Prevent;
  }

  // ------------------------------------------------------ adding features

  /** `actor.items.find(...)` for a feature of this rite type exists. */
  predicate HasRiteFeature(items: seq<Item>, riteType: string)
  {
    exists k :: 0 <= k < |items| && items[k].flags.IsRiteFeature() && items[k].flags.RiteType() == riteType
  }

  /** The rite types `addRiteFeaturesToActor` goes through: the given list,
      or else the keys of `getAvailableRites`, in table order. */
  function RequestedRites(table: seq<RiteInfo>, items: seq<Item>, riteTypes: Option<seq<string>>): seq<string>
  {
    match riteTypes
    case Some(given) => given
    case None => RiteKeys(UnlockedRites(table, Utils.BloodHunterLevelOf(items)))
  }

  /** The records to create and the `alreadyHas` count. */
  datatype FeaturePlan = FeaturePlan(toCreate: seq<FeatureData>, alreadyHas: nat)

  /** The loop of `addRiteFeaturesToActor` over `requested`: a type the actor
      already has a feature for is counted, any other known type gets a
      record, an unknown one is dropped. */
  function PlanFeatures(table: seq<RiteInfo>, items: seq<Item>, localized: string -> string,
                        requested: seq<string>): (p: FeaturePlan)
    ensures |p.toCreate| + p.alreadyHas <= |requested|
  {
    if |requested| == 0 then FeaturePlan([], 0)
    else
      var p := PlanFeatures(table, items, localized, requested[..|requested| - 1]);
      var riteType := requested[|requested| - 1];
      if HasRiteFeature(items, riteType) then p.(alreadyHas := p.alreadyHas + 1)
      else match CreateRiteFeatureData(table, localized, riteType)
        case None => p
        case Some(d) => p.(toCreate := p.toCreate + [d])
  }

  /** The notifications after the loop: how many were added, how many the
      actor already had, and a warning exactly when both are zero. */
  function AddNotices(actorName: string, created: nat, alreadyHas: nat): (r: seq<Notice>)
    ensures 1 <= |r| <= 2
    ensures forall k :: 0 <= k < |r| ==> (r[k].level == "warn" <==> created == 0 && alreadyHas == 0)
  {
    (if created > 0 then [Notice("info", "Added " + Decimal(created) + " Crimson Rite feature(s) to " + actorName)]
     else []) +
    (if alreadyHas > 0 then [Notice("info", actorName + " already has " + Decimal(alreadyHas) + " Crimson Rite feature(s)")]
     else []) +
    (if created == 0 && alreadyHas == 0 then [Notice("warn", "No Crimson Rite features to add")] else [])
  }

  /** `addRiteFeaturesToActor(actor, riteTypes)`; the host names the created
      items `freshId(0)`, `freshId(1)`, ... */
  method AddRiteFeaturesToActor(actor: Actor, riteTypes: Option<seq<string>>, localized: string -> string,
                                freshId: nat -> string, client: Client)
    modifies actor, client
    ensures actor.hp == old(actor.hp) && actor.effects == old(actor.effects)
    ensures client.outbox == old(client.outbox) && client.targets == old(client.targets)
    ensures !Utils.HasBloodHunterClass(old(actor.items)) ==>
      actor.items == old(actor.items) &&
      client.notices == old(client.notices) + [Notice("error", localized("BLOODHUNTER.CrimsonRite.NotBloodHunter"))]
    ensures Utils.HasBloodHunterClass(old(actor.items)) ==>
      var plan := PlanFeatures(LegacyCrimsonRite.LegacyRiteTypes, old(actor.items), localized,
                               RequestedRites(LegacyCrimsonRite.LegacyRiteTypes, old(actor.items), riteTypes));
      actor.items == old(actor.items) + CreatedItems(plan.toCreate, freshId) &&
      client.notices == old(client.notices) + AddNotices(actor.name, |plan.toCreate|, plan.alreadyHas)
  {
    if !Utils.HasBloodHunterClass(actor.items) {
      client.notices := client.notices + [Notice("error", localized("BLOODHUNTER.CrimsonRite.NotBloodHunter"))];
      return;
    }
    var requested: seq<string>;
    if riteTypes.None? {
      var availableRites := LegacyCrimsonRite.GetAvailableRites(actor.items);
      requested := RiteKeys(availableRites);
    } else {
      requested := riteTypes.value;
    }
    AddRequested(actor, requested, localized, freshId, client);
  }

  /** The rest of `addRiteFeaturesToActor` once the rite list is known:
      the loop, one `createEmbeddedDocuments` call when there is anything to
      create, and the summary notifications. */
  method AddRequested(actor: Actor, requested: seq<string>, localized: string -> string,
                      freshId: nat -> string, client: Client)
    modifies actor, client
    ensures actor.hp == old(actor.hp) && actor.effects == old(actor.effects)
    ensures client.outbox == old(client.outbox) && client.targets == old(client.targets)
    ensures var plan := PlanFeatures(LegacyCrimsonRite.LegacyRiteTypes, old(actor.items), localized, requested);
      actor.items == old(actor.items) + CreatedItems(plan.toCreate, freshId) &&
      client.notices == old(client.notices) + AddNotices(actor.name, |plan.toCreate|, plan.alreadyHas)
  {
    var plan := CollectFeatures(LegacyCrimsonRite.LegacyRiteTypes, actor.items, localized, requested);
    if |plan.toCreate| > 0 {
      actor.items := actor.items + CreatedItems(plan.toCreate, freshId);
    } else {
      assert actor.items + CreatedItems(plan.toCreate, freshId) == actor.items;
    }
    client.notices := client.notices + AddNotices(actor.name, |plan.toCreate|, plan.alreadyHas);
  }

  /** The loop of `addRiteFeaturesToActor`, filling `itemsToCreate` and
      counting `alreadyHas`. */
  method CollectFeatures(table: seq<RiteInfo>, items: seq<Item>, localized: string -> string,
                         requested: seq<string>) returns (plan: FeaturePlan)
    ensures plan == PlanFeatures(table, items, localized, requested)
  {
    var itemsToCreate: seq<FeatureData> := [];
    var alreadyHas: nat := 0;
    var i := 0;
    while i < |requested|
      invariant 0 <= i <= |requested|
      invariant FeaturePlan(itemsToCreate, alreadyHas) == PlanFeatures(table, items, localized, requested[..i])
    {
      assert requested[..i + 1][..i] == requested[..i];
      var riteType := requested[i];
      var existing := HasRiteFeature(items, riteType);
      if existing {
        alreadyHas := alreadyHas + 1;
      } else {
        var featureData := CreateRiteFeatureData(table, localized, riteType);
        if featureData.Some? {
          itemsToCreate := itemsToCreate + [featureData.value];
        }
      }
      i := i + 1;
    }
    assert requested[..|requested|] == requested;
    plan := FeaturePlan(itemsToCreate, alreadyHas);
  }

  /** Every record of the plan is the feature of a requested type the actor
      had no feature for. */
  lemma {:induction false} PlanFeaturesSound(table: seq<RiteInfo>, items: seq<Item>, localized: string -> string,
                                             requested: seq<string>)
    ensures forall d :: d in PlanFeatures(table, items, localized, requested).toCreate ==>
      d.flags.IsRiteFeature() && d.flags.RiteType() in requested && !HasRiteFeature(items, d.flags.RiteType())
    decreases |requested|
  {
    if |requested| > 0 {
      var init := requested[..|requested| - 1];
      PlanFeaturesSound(table, items, localized, init);
      assert forall t :: t in init ==> t in requested;
    }
  }

  /** Every requested type of the table the actor had no feature for gets a
      record. */
  lemma {:induction false} PlanFeaturesComplete(table: seq<RiteInfo>, items: seq<Item>,
                                                localized: string -> string, requested: seq<string>, t: string)
    requires t in requested && t in RiteKeys(table) && !HasRiteFeature(items, t)
    ensures exists d :: d in PlanFeatures(table, items, localized, requested).toCreate && d.flags.RiteType() == t
    decreases |requested|
  {
    var init := requested[..|requested| - 1];
    var last := requested[|requested| - 1];
    var p := PlanFeatures(table, items, localized, init);
    var q := PlanFeatures(table, items, localized, requested);
    if t == last {
      var d := CreateRiteFeatureData(table, localized, t).value;
      assert d in q.toCreate;
    } else {
      assert requested == init + [last];
      assert t in init;
      PlanFeaturesComplete(table, items, localized, init, t);
      var d :| d in p.toCreate && d.flags.RiteType() == t;
      assert d in q.toCreate;
    }
  }

  /** When the actor has a feature for every requested type, nothing is
      created and every type is counted in `alreadyHas`. */
  lemma {:induction false} PlanFeaturesNothingNew(table: seq<RiteInfo>, items: seq<Item>,
                                                  localized: string -> string, requested: seq<string>)
    requires forall t :: t in requested ==> HasRiteFeature(items, t)
    ensures PlanFeatures(table, items, localized, requested) == FeaturePlan([], |requested|)
    decreases |requested|
  {
    if |requested| > 0 {
      var init := requested[..|requested| - 1];
      assert forall t :: t in init ==> t in requested;
      PlanFeaturesNothingNew(table, items, localized, init);
    }
  }

  /** A created feature is recognised as that rite's feature. */
  lemma CreatedFeatureFound(items: seq<Item>, records: seq<FeatureData>, freshId: nat -> string, d: FeatureData)
    requires d in records && d.flags.IsRiteFeature()
    ensures HasRiteFeature(items + CreatedItems(records, freshId), d.flags.RiteType())
  {
    var k :| 0 <= k < |records| && records[k] == d;
    var after := items + CreatedItems(records, freshId);
    assert after[|items| + k] == CreatedItem(d, freshId(k));
  }

  /** Every available rite ends up with a feature after the default add. */
  lemma DefaultAddCovers(table: seq<RiteInfo>, items: seq<Item>, localized: string -> string,
                         freshId: nat -> string, t: string)
    requires t in RequestedRites(table, items, None)
    ensures HasRiteFeature(items + CreatedItems(PlanFeatures(table, items, localized,
                                                             RequestedRites(table, items, None)).toCreate, freshId), t)
  {
    var requested := RequestedRites(table, items, None);
    var first := PlanFeatures(table, items, localized, requested);
    var after := items + CreatedItems(first.toCreate, freshId);
    var unlocked := UnlockedRites(table, Utils.BloodHunterLevelOf(items));
    var j :| 0 <= j < |requested| && requested[j] == t;
    var n :| 0 <= n < |table| && table[n] == unlocked[j];
    assert RiteKeys(table)[n] == t;
    if HasRiteFeature(items, t) {
      var m :| 0 <= m < |items| && items[m].flags.IsRiteFeature() && items[m].flags.RiteType() == t;
      assert after[m] == items[m];
    } else {
      PlanFeaturesComplete(table, items, localized, requested, t);
      var d :| d in first.toCreate && d.flags.RiteType() == t;
      PlanFeaturesSound(table, items, localized, requested);
      CreatedFeatureFound(items, first.toCreate, freshId, d);
    }
  }

  /** Adding the default features twice: the second call creates nothing,
      and counts every available rite as already present. */
  lemma DefaultAddIdempotent(table: seq<RiteInfo>, items: seq<Item>, localized: string -> string,
                             freshId: nat -> string)
    requires Utils.HasBloodHunterClass(items)
    ensures var first := PlanFeatures(table, items, localized, RequestedRites(table, items, None));
      var after := items + CreatedItems(first.toCreate, freshId);
      Utils.HasBloodHunterClass(after) &&
      PlanFeatures(table, after, localized, RequestedRites(table, after, None)) ==
        FeaturePlan([], |RequestedRites(table, items, None)|)
  {
    var requested := RequestedRites(table, items, None);
    var first := PlanFeatures(table, items, localized, requested);
    var created := CreatedItems(first.toCreate, freshId);
    var after := items + created;
    var k :| 0 <= k < |items| && Utils.IsBloodHunterClass(items[k]);
    assert after[k] == items[k];
    Utils.LevelKeptByAppend(items, created);
    assert RequestedRites(table, after, None) == requested;
    forall t | t in requested
      ensures HasRiteFeature(after, t)
    {
      DefaultAddCovers(table, items, localized, freshId, t);
    }
    PlanFeaturesNothingNew(table, after, localized, requested);
  }

  // ---------------------------------------------------- removing features

  /** `riteFeatures.map(f => f.id)` for the flagged items, in order. */
  function RiteFeatureIds(items: seq<Item>): (r: seq<string>)
    ensures forall k :: 0 <= k < |items| && items[k].flags.IsRiteFeature() ==> items[k].id in r
    ensures forall id :: id in r ==> exists k :: 0 <= k < |items| && items[k].flags.IsRiteFeature() && items[k].id == id
  {
    if |items| == 0 then []
    else
      var rest := RiteFeatureIds(items[1..]);
      assert forall k :: 1 <= k < |items| ==> items[k] == items[1..][k - 1];
      (if items[0].flags.IsRiteFeature() then [items[0].id] else []) + rest
  }

  /** `removeRiteFeaturesFromActor(actor)` */
  method RemoveRiteFeaturesFromActor(actor: Actor, client: Client)
    modifies actor, client
    ensures actor.hp == old(actor.hp) && actor.effects == old(actor.effects)
    ensures client.outbox == old(client.outbox) && client.targets == old(client.targets)
    ensures actor.items == WithoutIds(old(actor.items), RiteFeatureIds(old(actor.items)))
    ensures client.notices == old(client.notices) +
      if RiteFeatureIds(old(actor.items)) == [] then [Notice("info", "No Crimson Rite features to remove")]
      else [Notice("info", "Removed " + Decimal(|RiteFeatureIds(old(actor.items))|) +
                           " Crimson Rite feature(s) from " + actor.name)]
  {
    var ids := RiteFeatureIds(actor.items);
    if |ids| == 0 {
      client.notices := client.notices + [Notice("info", "No Crimson Rite features to remove")];
      WithoutNothing(actor.items);
      return;
    }
    actor.items := WithoutIds(actor.items, ids);
    client.notices := client.notices +
      [Notice("info", "Removed " + Decimal(|ids|) + " Crimson Rite feature(s) from " + actor.name)];
  }

  /** With unique ids the removal deletes exactly the flagged items: no
      feature is left, and every other item stays. */
  lemma RemoveExactlyFeatures(items: seq<Item>)
    requires UniqueIds(items)
    ensures forall x :: x in WithoutIds(items, RiteFeatureIds(items)) <==> x in items && !x.flags.IsRiteFeature()
  {
    var ids := RiteFeatureIds(items);
    forall x | x in items && !x.flags.IsRiteFeature()
      ensures x.id !in ids
    {
      var i :| 0 <= i < |items| && items[i] == x;
    }
  }

  /** Without unique ids, an item sharing its id with a feature goes too. */
  lemma RemoveTakesSharedIds(items: seq<Item>, f: nat, x: nat)
    requires f < |items| && x < |items| && items[f].flags.IsRiteFeature() && items[x].id == items[f].id
    ensures items[x] !in WithoutIds(items, RiteFeatureIds(items))
  {
  }
}
