// scripts/crimson-rite/rite-manager.js: putting a Crimson Rite on a weapon
// and taking it off. A rite is an active effect on the weapon plus a pointer
// to it in the weapon's `crimsonRite` flag.
//
// The HP roll, the effect's localized name, the id the host gives the new
// effect and whether each host update throws are inputs; `applyDamage` is
// modelled as taking the cost off the hit points.

module RiteManager {
  import opened Common
  import opened Documents
  import opened RiteConstants
  import Utils
  import Integrations

  /** Localized and formatted notification texts. */
  datatype RiteTexts = RiteTexts(insufficientHP: string, costApplied: string, activated: string,
                                 deactivated: string)

  // --------------------------------------------------- the rite of a weapon

  /** `getActiveRite(weapon)`: the position of the effect the flag points at,
      when the flag has a non-empty `effectId` and the weapon has that effect. */
  function ActiveRite(weapon: Item): (r: Option<nat>)
    ensures r.Some? ==> r.value < |weapon.effects|
    ensures r.Some? ==>
      weapon.flags.CrimsonRite().RitePointer? &&
      weapon.effects[r.value].id == weapon.flags.CrimsonRite().effectId
    ensures r.None? <==>
      (!weapon.flags.CrimsonRite().RitePointer? || weapon.flags.CrimsonRite().effectId == "" ||
       weapon.flags.CrimsonRite().effectId !in EffectIds(weapon.effects))
  {
    var flag := weapon.flags.CrimsonRite();
    if !flag.RitePointer? || flag.effectId == "" then None
    else FindEffect(weapon.effects, flag.effectId)
  }

  function WithoutEffect(weapon: Item, k: nat): Item
    requires k < |weapon.effects|
  {
    weapon.(effects := weapon.effects[..k] + weapon.effects[k + 1..])
  }

  function WithRiteFlag(weapon: Item, m: RiteMarker): Item
  {
    weapon.(flags := weapon.flags.WithCrimsonRite(m))
  }

  /** The weapon after `deactivate`: unchanged without an active rite or when
      deleting the effect throws; without the effect when unsetting the flag
      throws; without both otherwise. */
  function Deactivated(weapon: Item, failure: HostFailure): Item
  {
    match ActiveRite(weapon)
    case None => weapon
    case Some(k) =>
      match failure
      case FirstCallFails => weapon
      case SecondCallFails => WithoutEffect(weapon, k)
      case NoFailure => WithRiteFlag(WithoutEffect(weapon, k), NoRiteMarker)
  }

  /** The weapon after the try block of `activate`. */
  function Applied(weapon: Item, effect: Effect, pointer: RiteMarker, failure: HostFailure): Item
  {
    match failure
    case FirstCallFails => weapon
    case SecondCallFails => weapon.(effects := weapon.effects + [effect])
    case NoFailure => WithRiteFlag(weapon.(effects := weapon.effects + [effect]), pointer)
  }

  /** The notifications of `deactivate` on this weapon. */
  function DeactivateNotices(weapon: Item, showNotification: bool, failure: HostFailure, text: string)
    : seq<Notice>
  {
    if ActiveRite(weapon).None? then
      (if showNotification then [Notice("warn", "No active Crimson Rite on this weapon")] else [])
    else if failure != NoFailure then [Notice("error", "Failed to remove Crimson Rite")]
    else if showNotification then [Notice("info", text)]
    else []
  }

  // -------------------------------------------------------------- deactivate

  datatype DeactivateOutcome = NoWeapon | NoActiveRite | RemoveFailed | Removed

  /** `deactivate(actor, weaponId, showNotification)` */
  method Deactivate(actor: Actor, weaponId: string, showNotification: bool, failure: HostFailure,
                    deactivatedText: string, client: Client)
    returns (outcome: DeactivateOutcome)
    modifies actor, client
    ensures actor.hp == old(actor.hp) && actor.effects == old(actor.effects)
    ensures client.outbox == old(client.outbox) && client.targets == old(client.targets)
    ensures outcome == NoWeapon <==> FindItem(old(actor.items), weaponId).None?
    ensures outcome == NoWeapon ==> actor.items == old(actor.items) && client.notices == old(client.notices)
    ensures outcome != NoWeapon ==>
      var w := FindItem(old(actor.items), weaponId).value;
      var weapon := old(actor.items)[w];
      actor.items == old(actor.items)[w := Deactivated(weapon, failure)] &&
      (outcome == NoActiveRite <==> ActiveRite(weapon).None?) &&
      (outcome == RemoveFailed <==> ActiveRite(weapon).Some? && failure != NoFailure) &&
      client.notices == old(client.notices) + DeactivateNotices(weapon, showNotification, failure, deactivatedText)
  {
    var found := FindItem(actor.items, weaponId);
    if found.None? {
      return NoWeapon;
    }
    var w := found.value;
    var weapon := actor.items[w];
    var activeRite := ActiveRite(weapon);
    if activeRite.None? {
      if showNotification {
        client.notices := client.notices + [Notice("warn", "No active Crimson Rite on this weapon")];
      }
      assert actor.items == actor.items[w := weapon];
      return NoActiveRite;
    }
    if failure == FirstCallFails {
      client.notices := client.notices + [Notice("error", "Failed to remove Crimson Rite")];
      assert actor.items == actor.items[w := weapon];
      return RemoveFailed;
    }
    weapon := WithoutEffect(weapon, activeRite.value);
    actor.items := actor.items[w := weapon];
    if failure == SecondCallFails {
      client.notices := client.notices + [Notice("error", "Failed to remove Crimson Rite")];
      return RemoveFailed;
    }
    actor.items := actor.items[w := WithRiteFlag(weapon, NoRiteMarker)];
    if showNotification {
      client.notices := client.notices + [Notice("info", deactivatedText)];
    }
    return Removed;
  }

  // ---------------------------------------------------------------- activate

  datatype ActivateOutcome = NoWeaponFound | InsufficientHP | UnknownRite | ApplyFailed | Activated

  /** The entry of the rite table for a rite type known to it. */
  function RiteEntry(riteType: string): RiteInfo
    requires LookupRite(RiteTypes, riteType).Some?
  {
    LookupRite(RiteTypes, riteType).value
  }

  /** The effect `activate` creates for the rite, with the die of the actor's level. */
  function RiteEffect(items: seq<Item>, weaponId: string, riteType: string, daeActive: bool, actorUuid: string,
                      effectName: string, newEffectId: string): Effect
    requires LookupRite(RiteTypes, riteType).Some?
  {
    Integrations.CrimsonRiteEffect(riteType, RiteEntry(riteType).damageType,
                                   Utils.HemocraftDie(Utils.BloodHunterLevelOf(items)), weaponId, actorUuid,
                                   effectName, daeActive, newEffectId)
  }

  /** The flag `activate` stores: a pointer to the new effect. */
  function RitePointerFor(items: seq<Item>, riteType: string, newEffectId: string): RiteMarker
    requires LookupRite(RiteTypes, riteType).Some?
  {
    RitePointer(newEffectId, riteType, RiteEntry(riteType).damageType,
                Utils.HemocraftDie(Utils.BloodHunterLevelOf(items)))
  }

  /** What `activate` takes from outside: the `autoCalculateHP` setting,
      the HP roll, how the host's removal and creation calls fail, whether
      DAE is active, the actor's uuid, the effect's localized name, the id
      the host gives the new effect and the notification texts. */
  datatype ActivateInputs = ActivateInputs(autoHP: bool, cost: int, removeFailure: HostFailure,
                                           applyFailure: HostFailure, daeActive: bool, actorUuid: string,
                                           effectName: string, newEffectId: string, texts: RiteTexts)

  /** The outcome, the items, the hit points and the notifications shown. */
  datatype ActivateResult = ActivateResult(outcome: ActivateOutcome, items: seq<Item>, hp: int, shown: seq<Notice>)

  /** The end of `activate`, after the payment: the table lookup, which
      throws for an unknown type, then the try block on the weapon at `w`. */
  function ApplyTailSpec(items: seq<Item>, w: nat, hp: int, weaponId: string, riteType: string,
                         inputs: ActivateInputs): ActivateResult
    requires w < |items|
  {
    if LookupRite(RiteTypes, riteType).None? then ActivateResult(UnknownRite, items, hp, [])
    else
      var effect := RiteEffect(items, weaponId, riteType, inputs.daeActive, inputs.actorUuid,
                               inputs.effectName, inputs.newEffectId);
      var pointer := RitePointerFor(items, riteType, inputs.newEffectId);
      var ok := inputs.applyFailure == NoFailure;
      ActivateResult(if ok then Activated else ApplyFailed,
                     items[w := Applied(items[w], effect, pointer, inputs.applyFailure)], hp,
                     if ok then [Notice("info", inputs.texts.activated)]
                     else [Notice("error", "Failed to apply Crimson Rite")])
  }

  /** The rest of `activate` once any old rite is off the weapon at `w`: the
      HP check and payment (both only with `autoHP`), then the lookup and
      the try block. */
  function PayAndApplySpec(items: seq<Item>, w: nat, hp: int, weaponId: string, riteType: string,
                           inputs: ActivateInputs): ActivateResult
    requires w < |items|
  {
    if hp <= inputs.cost && inputs.autoHP then
      ActivateResult(InsufficientHP, items, hp, [Notice("error", inputs.texts.insufficientHP)])
    else
      var paidHP := if inputs.autoHP then hp - inputs.cost else hp;
      var paid := if inputs.autoHP then [Notice("info", inputs.texts.costApplied)] else [];
      var r := ApplyTailSpec(items, w, paidHP, weaponId, riteType, inputs);
      r.(shown := paid + r.shown)
  }

  /** `activate(actor, weaponId, riteType)`: an unknown weapon stops it; an
      existing rite comes off first, silently, before the HP check. */
  function ActivateSpec(items: seq<Item>, hp: int, weaponId: string, riteType: string, inputs: ActivateInputs)
    : ActivateResult
  {
    match FindItem(items, weaponId)
    case None => ActivateResult(NoWeaponFound, items, hp, [])
    case Some(w) =>
      var r := PayAndApplySpec(items[w := Deactivated(items[w], inputs.removeFailure)], w, hp, weaponId,
                               riteType, inputs);
      r.(shown := DeactivateNotices(items[w], false, inputs.removeFailure, inputs.texts.deactivated) + r.shown)
  }

  /** `activate(actor, weaponId, riteType)` on the actor's documents. */
  method Activate(actor: Actor, weaponId: string, riteType: string, inputs: ActivateInputs, client: Client)
    returns (outcome: ActivateOutcome)
    requires Utils.IsHemocraftRoll(inputs.cost, 1, Utils.BloodHunterLevelOf(actor.items))
    modifies actor, client
    ensures actor.effects == old(actor.effects)
    ensures client.outbox == old(client.outbox) && client.targets == old(client.targets)
    ensures var r := ActivateSpec(old(actor.items), old(actor.hp), weaponId, riteType, inputs);
      outcome == r.outcome && actor.items == r.items && actor.hp == r.hp &&
      client.notices == old(client.notices) + r.shown
    ensures inputs.autoHP && outcome !in {NoWeaponFound, InsufficientHP} ==>
      old(actor.hp) - Utils.HemocraftFaces(old(Utils.BloodHunterLevelOf(actor.items))) <= actor.hp < old(actor.hp)
  {
    var found := FindItem(actor.items, weaponId);
    if found.None? {
      return NoWeaponFound;
    }
    var w := found.value;
    ghost var notices0 := client.notices;
    ClearExistingRite(actor, w, weaponId, inputs.removeFailure, inputs.texts.deactivated, client);
    ghost var notices1 := client.notices;
    outcome := PayAndApply(actor, w, weaponId, riteType, inputs, client);
    AppendAssoc(notices0, notices1[|notices0|..], client.notices[|notices1|..]);
    ActivateOutcomes(old(actor.items), old(actor.hp), weaponId, riteType, inputs);
  }

  /** The rest of `activate`, case by case: too little HP (with `autoHP`)
      stops before any damage; otherwise the cost is paid, then an unknown
      rite type stops it, and a known one is applied to the weapon at `w`
      with the die of the actor's level. */
  lemma PayAndApplyCases(items: seq<Item>, w: nat, hp: int, weaponId: string, riteType: string,
                         inputs: ActivateInputs)
    requires w < |items|
    ensures var r := PayAndApplySpec(items, w, hp, weaponId, riteType, inputs);
      (r.outcome == InsufficientHP <==> inputs.autoHP && hp <= inputs.cost) &&
      (r.outcome == InsufficientHP ==>
        r.hp == hp && r.items == items && r.shown == [Notice("error", inputs.texts.insufficientHP)]) &&
      (r.outcome != InsufficientHP ==> r.hp == hp - (if inputs.autoHP then inputs.cost else 0)) &&
      (r.outcome == UnknownRite <==> r.outcome != InsufficientHP && LookupRite(RiteTypes, riteType).None?) &&
      (r.outcome == ApplyFailed <==>
        r.outcome !in {InsufficientHP, UnknownRite} && inputs.applyFailure != NoFailure) &&
      r.outcome != NoWeaponFound
    ensures var r := PayAndApplySpec(items, w, hp, weaponId, riteType, inputs);
      var paid := if inputs.autoHP then [Notice("info", inputs.texts.costApplied)] else [];
      (r.outcome == UnknownRite ==> r.items == items && r.shown == paid) &&
      ((r.outcome == ApplyFailed || r.outcome == Activated) ==>
        r.items == items[w := Applied(items[w],
          RiteEffect(items, weaponId, riteType, inputs.daeActive, inputs.actorUuid, inputs.effectName,
                     inputs.newEffectId),
          RitePointerFor(items, riteType, inputs.newEffectId), inputs.applyFailure)] &&
        r.shown == paid +
          (if r.outcome == Activated then [Notice("info", inputs.texts.activated)]
           else [Notice("error", "Failed to apply Crimson Rite")]))
  {
  }

  /** The outcome and the hit points of `activate`: an unknown weapon
      changes nothing; too little HP (with `autoHP`) stops before any
      damage; otherwise the cost is paid, whatever happens next. */
  lemma ActivateOutcomes(items: seq<Item>, hp: int, weaponId: string, riteType: string, inputs: ActivateInputs)
    ensures var r := ActivateSpec(items, hp, weaponId, riteType, inputs);
      (r.outcome == NoWeaponFound <==> FindItem(items, weaponId).None?) &&
      (r.outcome == NoWeaponFound ==> r.items == items && r.hp == hp && r.shown == []) &&
      (r.outcome == InsufficientHP <==> r.outcome != NoWeaponFound && inputs.autoHP && hp <= inputs.cost) &&
      (r.outcome in {NoWeaponFound, InsufficientHP} ==> r.hp == hp) &&
      (r.outcome !in {NoWeaponFound, InsufficientHP} ==> r.hp == hp - (if inputs.autoHP then inputs.cost else 0)) &&
      (r.outcome == UnknownRite <==>
        r.outcome !in {NoWeaponFound, InsufficientHP} && LookupRite(RiteTypes, riteType).None?) &&
      (r.outcome == ApplyFailed <==>
        r.outcome !in {NoWeaponFound, InsufficientHP, UnknownRite} && inputs.applyFailure != NoFailure)
  {
    match FindItem(items, weaponId)
    case None =>
    case Some(w) =>
      PayAndApplyCases(items[w := Deactivated(items[w], inputs.removeFailure)], w, hp, weaponId, riteType, inputs);
  }

  /** A refused `activate` on a found weapon still takes any old rite off
      it first, silently. */
  lemma ActivateRefusedChanges(items: seq<Item>, hp: int, weaponId: string, riteType: string,
                               inputs: ActivateInputs)
    requires FindItem(items, weaponId).Some?
    ensures var r := ActivateSpec(items, hp, weaponId, riteType, inputs);
      var w := FindItem(items, weaponId).value;
      var cleared := Deactivated(items[w], inputs.removeFailure);
      var notices := DeactivateNotices(items[w], false, inputs.removeFailure, inputs.texts.deactivated);
      (r.outcome == InsufficientHP ==>
        r.items == items[w := cleared] && r.shown == notices + [Notice("error", inputs.texts.insufficientHP)]) &&
      (r.outcome == UnknownRite ==>
        r.items == items[w := cleared] &&
        r.shown == notices + (if inputs.autoHP then [Notice("info", inputs.texts.costApplied)] else []))
  {
    var w := FindItem(items, weaponId).value;
    PayAndApplyCases(items[w := Deactivated(items[w], inputs.removeFailure)], w, hp, weaponId, riteType, inputs);
  }

  /** An applied `activate` replaces any old rite on the found weapon by the
      new effect and its pointer, with the die of the actor's level, after
      the cost is paid. */
  lemma ActivateAppliedChanges(items: seq<Item>, hp: int, weaponId: string, riteType: string,
                               inputs: ActivateInputs)
    requires FindItem(items, weaponId).Some?
    ensures var r := ActivateSpec(items, hp, weaponId, riteType, inputs);
      var w := FindItem(items, weaponId).value;
      var cleared := Deactivated(items[w], inputs.removeFailure);
      (r.outcome == ApplyFailed || r.outcome == Activated) ==>
        r.items == items[w := Applied(cleared,
          RiteEffect(items, weaponId, riteType, inputs.daeActive, inputs.actorUuid, inputs.effectName,
                     inputs.newEffectId),
          RitePointerFor(items, riteType, inputs.newEffectId), inputs.applyFailure)] &&
        r.shown == DeactivateNotices(items[w], false, inputs.removeFailure, inputs.texts.deactivated) +
          (if inputs.autoHP then [Notice("info", inputs.texts.costApplied)] else []) +
          (if r.outcome == Activated then [Notice("info", inputs.texts.activated)]
           else [Notice("error", "Failed to apply Crimson Rite")])
  {
    var w := FindItem(items, weaponId).value;
    var cleared := Deactivated(items[w], inputs.removeFailure);
    var r := PayAndApplySpec(items[w := cleared], w, hp, weaponId, riteType, inputs);
    if r.outcome == ApplyFailed || r.outcome == Activated {
      AppliedItems(items, w, hp, weaponId, riteType, inputs);
      PayAndApplyCases(items[w := cleared], w, hp, weaponId, riteType, inputs);
      var paid := if inputs.autoHP then [Notice("info", inputs.texts.costApplied)] else [];
      AppendAssoc(DeactivateNotices(items[w], false, inputs.removeFailure, inputs.texts.deactivated),
                  paid, r.shown[|paid|..]);
    }
  }

  /** The items an activation that got past payment leaves: one update of
      the weapon, computed from the untouched items. */
  lemma AppliedItems(items: seq<Item>, w: nat, hp: int, weaponId: string, riteType: string,
                     inputs: ActivateInputs)
    requires w < |items|
    ensures var cleared := Deactivated(items[w], inputs.removeFailure);
      var r := PayAndApplySpec(items[w := cleared], w, hp, weaponId, riteType, inputs);
      (r.outcome == ApplyFailed || r.outcome == Activated) ==>
        r.items == items[w := Applied(cleared,
          RiteEffect(items, weaponId, riteType, inputs.daeActive, inputs.actorUuid, inputs.effectName,
                     inputs.newEffectId),
          RitePointerFor(items, riteType, inputs.newEffectId), inputs.applyFailure)]
  {
    var cleared := Deactivated(items[w], inputs.removeFailure);
    var items1 := items[w := cleared];
    PayAndApplyItems(items1, w, hp, weaponId, riteType, inputs);
    var r := PayAndApplySpec(items1, w, hp, weaponId, riteType, inputs);
    if r.outcome == ApplyFailed || r.outcome == Activated {
      ClearedKeepsLevel(items, w, weaponId, riteType, inputs);
      var applied := Applied(cleared,
        RiteEffect(items, weaponId, riteType, inputs.daeActive, inputs.actorUuid, inputs.effectName,
                   inputs.newEffectId),
        RitePointerFor(items, riteType, inputs.newEffectId), inputs.applyFailure);
      UpdateTwice(items, w, cleared, applied);
    }
  }

  /** Past payment, the weapon at `w` is the only item `activate` changes. */
  lemma PayAndApplyItems(items: seq<Item>, w: nat, hp: int, weaponId: string, riteType: string,
                         inputs: ActivateInputs)
    requires w < |items|
    ensures var r := PayAndApplySpec(items, w, hp, weaponId, riteType, inputs);
      (r.outcome == ApplyFailed || r.outcome == Activated) ==>
        r.items == items[w := Applied(items[w],
          RiteEffect(items, weaponId, riteType, inputs.daeActive, inputs.actorUuid, inputs.effectName,
                     inputs.newEffectId),
          RitePointerFor(items, riteType, inputs.newEffectId), inputs.applyFailure)]
  {
  }

  /** Taking the rite off a weapon leaves the level, so the new effect and
      its pointer are the ones the untouched items give. */
  lemma ClearedKeepsLevel(items: seq<Item>, w: nat, weaponId: string, riteType: string, inputs: ActivateInputs)
    requires w < |items| && LookupRite(RiteTypes, riteType).Some?
    ensures var items1 := items[w := Deactivated(items[w], inputs.removeFailure)];
      RiteEffect(items1, weaponId, riteType, inputs.daeActive, inputs.actorUuid, inputs.effectName,
                 inputs.newEffectId) ==
      RiteEffect(items, weaponId, riteType, inputs.daeActive, inputs.actorUuid, inputs.effectName,
                 inputs.newEffectId) &&
      RitePointerFor(items1, riteType, inputs.newEffectId) == RitePointerFor(items, riteType, inputs.newEffectId)
  {
    Utils.LevelKeptByUpdate(items, w, Deactivated(items[w], inputs.removeFailure));
  }

  /** The first step of `activate`: an active rite on the weapon at `w` is
      deactivated without a notification. */
  method ClearExistingRite(actor: Actor, w: nat, weaponId: string, removeFailure: HostFailure,
                           deactivatedText: string, client: Client)
    requires FindItem(actor.items, weaponId) == Some(w)
    modifies actor, client
    ensures actor.hp == old(actor.hp) && actor.effects == old(actor.effects)
    ensures client.outbox == old(client.outbox) && client.targets == old(client.targets)
    ensures actor.items == old(actor.items)[w := Deactivated(old(actor.items)[w], removeFailure)]
    ensures client.notices ==
      old(client.notices) + DeactivateNotices(old(actor.items)[w], false, removeFailure, deactivatedText)
  {
    var existingRite := ActiveRite(actor.items[w]);
    if existingRite.Some? {
      var _ := Deactivate(actor, weaponId, false, removeFailure, deactivatedText, client);
    } else {
      assert actor.items == actor.items[w := actor.items[w]];
    }
  }

  /** The rest of `activate` once any old rite is off the weapon at `w`. */
  method PayAndApply(actor: Actor, w: nat, weaponId: string, riteType: string, inputs: ActivateInputs,
                     client: Client)
    returns (outcome: ActivateOutcome)
    requires w < |actor.items|
    modifies actor, client
    ensures actor.effects == old(actor.effects)
    ensures client.outbox == old(client.outbox) && client.targets == old(client.targets)
    ensures var r := PayAndApplySpec(old(actor.items), w, old(actor.hp), weaponId, riteType, inputs);
      outcome == r.outcome && actor.items == r.items && actor.hp == r.hp &&
      client.notices == old(client.notices) + r.shown
  {
    var hpCost := inputs.cost;
    var currentHP := actor.hp;
    if currentHP <= hpCost && inputs.autoHP {
      client.notices := client.notices + [Notice("error", inputs.texts.insufficientHP)];
      return InsufficientHP;
    }
    ghost var notices0 := client.notices;
    var paid := [];
    if inputs.autoHP {
      actor.hp := actor.hp - hpCost;
      paid := [Notice("info", inputs.texts.costApplied)];
      client.notices := client.notices + paid;
    }
    ghost var notices1 := client.notices;
    outcome := ApplyTail(actor, w, weaponId, riteType, inputs, client);
    AppendAssoc(notices0, paid, client.notices[|notices1|..]);
  }

  /** The lookup and the try block of `activate`, after the payment. */
  method ApplyTail(actor: Actor, w: nat, weaponId: string, riteType: string, inputs: ActivateInputs,
                   client: Client)
    returns (outcome: ActivateOutcome)
    requires w < |actor.items|
    modifies actor, client
    ensures actor.effects == old(actor.effects)
    ensures client.outbox == old(client.outbox) && client.targets == old(client.targets)
    ensures var r := ApplyTailSpec(old(actor.items), w, old(actor.hp), weaponId, riteType, inputs);
      outcome == r.outcome && actor.items == r.items && actor.hp == r.hp &&
      client.notices == old(client.notices) + r.shown
  {
    var riteDamage := Utils.HemocraftDie(Utils.BloodHunterLevelOf(actor.items));
    var entry := LookupRite(RiteTypes, riteType);
    if entry.None? {
      return UnknownRite;
    }
    var damageType := entry.value.damageType;
    var effectData := Integrations.CrimsonRiteEffect(riteType, damageType, riteDamage, weaponId, inputs.actorUuid,
                                                     inputs.effectName, inputs.daeActive, inputs.newEffectId);
    outcome := ApplyRite(actor, w, effectData, RitePointer(inputs.newEffectId, riteType, damageType, riteDamage),
                         inputs.applyFailure, inputs.texts.activated, client);
  }

  /** The try block of `activate`: create the effect on the weapon at `w`,
      then point the weapon's flag at it. */
  method ApplyRite(actor: Actor, w: nat, effectData: Effect, pointer: RiteMarker, failure: HostFailure,
                   activatedText: string, client: Client)
    returns (outcome: ActivateOutcome)
    requires w < |actor.items|
    modifies actor, client
    ensures actor.hp == old(actor.hp) && actor.effects == old(actor.effects)
    ensures client.outbox == old(client.outbox) && client.targets == old(client.targets)
    ensures actor.items == old(actor.items)[w := Applied(old(actor.items)[w], effectData, pointer, failure)]
    ensures outcome == if failure == NoFailure then Activated else ApplyFailed
    ensures client.notices == old(client.notices) +
      (if failure == NoFailure then [Notice("info", activatedText)]
       else [Notice("error", "Failed to apply Crimson Rite")])
  {
    var weapon := actor.items[w];
    if failure == FirstCallFails {
      client.notices := client.notices + [Notice("error", "Failed to apply Crimson Rite")];
      assert actor.items == actor.items[w := weapon];
      return ApplyFailed;
    }
    weapon := weapon.(effects := weapon.effects + [effectData]);
    actor.items := actor.items[w := weapon];
    if failure == SecondCallFails {
      client.notices := client.notices + [Notice("error", "Failed to apply Crimson Rite")];
      return ApplyFailed;
    }
    actor.items := actor.items[w := WithRiteFlag(weapon, pointer)];
    client.notices := client.notices + [Notice("info", activatedText)];
    return Activated;
  }

  // -------------------------------------------------- the one-rite invariant

  /** Every Crimson Rite effect on the weapon is the one its flag points at,
      so a weapon carries at most one rite. */
  predicate OneRite(weapon: Item)
  {
    forall k :: 0 <= k < |weapon.effects| && weapon.effects[k].IsCrimsonRite() ==> ActiveRite(weapon) == Some(k)
  }

  /** A successful deactivate leaves no active rite and keeps the other
      effects in order; if the weapon kept the invariant, no rite effect is
      left at all. */
  lemma DeactivateClears(weapon: Item)
    ensures ActiveRite(Deactivated(weapon, NoFailure)).None?
    ensures ActiveRite(weapon).Some? ==>
      Deactivated(weapon, NoFailure).effects ==
        weapon.effects[..ActiveRite(weapon).value] + weapon.effects[ActiveRite(weapon).value + 1..]
    ensures OneRite(weapon) ==>
      forall e :: e in Deactivated(weapon, NoFailure).effects ==> !e.IsCrimsonRite()
  {
    if OneRite(weapon) && ActiveRite(weapon).Some? {
      RemovedRiteWasTheOnly(weapon, ActiveRite(weapon).value);
    }
  }

  /** Without the effect its flag points at, a weapon that kept the
      invariant has no rite effect. */
  lemma RemovedRiteWasTheOnly(weapon: Item, k: nat)
    requires OneRite(weapon) && ActiveRite(weapon) == Some(k)
    ensures forall e :: e in weapon.effects[..k] + weapon.effects[k + 1..] ==> !e.IsCrimsonRite()
  {
    var rest := weapon.effects[..k] + weapon.effects[k + 1..];
    forall j | 0 <= j < |rest|
      ensures !rest[j].IsCrimsonRite()
    {
      if j < k {
        assert rest[j] == weapon.effects[j];
      } else {
        assert rest[j] == weapon.effects[j + 1];
      }
    }
  }

  /** After a successful activation with a fresh, non-empty effect id, the
      weapon's active rite is the new effect, appended after the others. */
  lemma ActivatedRiteIsActive(weapon: Item, effect: Effect, riteType: string, damageType: string,
                              riteDamage: string)
    requires effect.id != "" && effect.id !in EffectIds(weapon.effects)
    ensures var after := Applied(weapon, effect, RitePointer(effect.id, riteType, damageType, riteDamage), NoFailure);
      ActiveRite(after) == Some(|weapon.effects|) && after.effects == weapon.effects + [effect]
  {
    var after := Applied(weapon, effect, RitePointer(effect.id, riteType, damageType, riteDamage), NoFailure);
    assert after.effects[|weapon.effects|].id == effect.id;
    assert effect.id in EffectIds(after.effects);
  }

  /** Deactivating and then activating with a fresh id keeps the invariant:
      the old rite's effect is gone and the new one is the only rite. */
  lemma ActivateKeepsOneRite(weapon: Item, effect: Effect, riteType: string, damageType: string,
                             riteDamage: string)
    requires OneRite(weapon)
    requires effect.IsCrimsonRite() && effect.id != "" && effect.id !in EffectIds(weapon.effects)
    ensures OneRite(Deactivated(weapon, NoFailure))
    ensures OneRite(Applied(Deactivated(weapon, NoFailure), effect,
                            RitePointer(effect.id, riteType, damageType, riteDamage), NoFailure))
  {
    var cleared := Deactivated(weapon, NoFailure);
    ClearedEffects(weapon);
    assert effect.id !in EffectIds(cleared.effects);
    RiteAppendedAlone(cleared, effect, riteType, damageType, riteDamage);
  }

  /** A deactivated weapon that kept the invariant has no rite effect left,
      and only effects it had before. */
  lemma ClearedEffects(weapon: Item)
    requires OneRite(weapon)
    ensures var cleared := Deactivated(weapon, NoFailure);
      (forall k :: 0 <= k < |cleared.effects| ==> !cleared.effects[k].IsCrimsonRite()) &&
      (forall e :: e in cleared.effects ==> e in weapon.effects)
  {
    var cleared := Deactivated(weapon, NoFailure);
    DeactivateClears(weapon);
    assert forall k :: 0 <= k < |cleared.effects| ==> cleared.effects[k] in cleared.effects;
  }

  /** On a weapon without rite effects, an applied rite is the only one. */
  lemma RiteAppendedAlone(weapon: Item, effect: Effect, riteType: string, damageType: string,
                          riteDamage: string)
    requires forall k :: 0 <= k < |weapon.effects| ==> !weapon.effects[k].IsCrimsonRite()
    requires effect.id != "" && effect.id !in EffectIds(weapon.effects)
    ensures OneRite(Applied(weapon, effect, RitePointer(effect.id, riteType, damageType, riteDamage), NoFailure))
  {
    ActivatedRiteIsActive(weapon, effect, riteType, damageType, riteDamage);
    var after := Applied(weapon, effect, RitePointer(effect.id, riteType, damageType, riteDamage), NoFailure);
    assert forall k :: 0 <= k < |weapon.effects| ==> after.effects[k] == weapon.effects[k];
  }

  // --------------------------------------------------------------- on rest

  /** A weapon whose rite `removeAllActiveRites` takes off and counts. */
  predicate RemovesRite(item: Item, failure: HostFailure)
  {
    item.itemType == "weapon" && ActiveRite(item).Some? && failure == NoFailure
  }

  /** The items after `removeAllActiveRites`, `failureAt(k)` saying how the
      host updates of the item at position `k` fail. */
  function Rested(items: seq<Item>, failureAt: nat -> HostFailure): (r: seq<Item>)
    ensures |r| == |items|
  {
    seq(|items|, k requires 0 <= k < |items| => RestedItem(items[k], failureAt(k)))
  }

  /** One item after `removeAllActiveRites`: only weapons are touched. */
  function RestedItem(item: Item, failure: HostFailure): Item
  {
    if item.itemType == "weapon" then Deactivated(item, failure) else item
  }

  /** The number `removeAllActiveRites` returns. */
  function RemovedCount(items: seq<Item>, failureAt: nat -> HostFailure): nat
  {
    if |items| == 0 then 0
    else
      RemovedCount(items[..|items| - 1], failureAt) +
      (if RemovesRite(items[|items| - 1], failureAt(|items| - 1)) then 1 else 0)
  }

  /** `removeAllActiveRites(actor)`: 0 for no actor; each weapon with an
      active rite is deactivated on its own, and a failure is caught and not
      counted. */
  method RemoveAllActiveRites(actor: Actor?, failureAt: nat -> HostFailure) returns (ritesRemoved: nat)
    modifies actor
    ensures actor == null ==> ritesRemoved == 0
    ensures actor != null ==>
      actor.items == Rested(old(actor.items), failureAt) &&
      ritesRemoved == RemovedCount(old(actor.items), failureAt) &&
      actor.hp == old(actor.hp) && actor.effects == old(actor.effects)
  {
    if actor == null {
      return 0;
    }
    ritesRemoved := 0;
    ghost var items0 := actor.items;
    var k := 0;
    while k < |actor.items|
      invariant 0 <= k <= |items0| == |actor.items|
      invariant forall j :: 0 <= j < k ==> actor.items[j] == Rested(items0, failureAt)[j]
      invariant forall j :: k <= j < |items0| ==> actor.items[j] == items0[j]
      invariant ritesRemoved == RemovedCount(items0[..k], failureAt)
      invariant actor.hp == old(actor.hp) && actor.effects == old(actor.effects)
    {
      RemovedCountStep(items0, k, failureAt);
      ghost var before := actor.items;
      var weapon := actor.items[k];
      if weapon.itemType == "weapon" {
        var removed := RemoveRiteAt(actor, k, failureAt(k));
        if removed {
          ritesRemoved := ritesRemoved + 1;
        }
      }
      assert actor.items == before[k := RestedItem(items0[k], failureAt(k))];
      k := k + 1;
    }
    assert items0[..|items0|] == items0;
  }

  /** One more item in the prefix adds one to the count exactly when that
      item's rite is removed. */
  lemma RemovedCountStep(items: seq<Item>, k: nat, failureAt: nat -> HostFailure)
    requires k < |items|
    ensures RemovedCount(items[..k + 1], failureAt) ==
      RemovedCount(items[..k], failureAt) + (if RemovesRite(items[k], failureAt(k)) then 1 else 0)
  {
    assert items[..k + 1][..k] == items[..k];
  }

  /** One iteration of `removeAllActiveRites` on the item at `k`: delete the
      active rite's effect, then unset the flag; a failure is caught. */
  method RemoveRiteAt(actor: Actor, k: nat, failure: HostFailure) returns (removed: bool)
    requires k < |actor.items|
    modifies actor
    ensures actor.hp == old(actor.hp) && actor.effects == old(actor.effects)
    ensures actor.items == old(actor.items)[k := Deactivated(old(actor.items)[k], failure)]
    ensures removed <==> ActiveRite(old(actor.items)[k]).Some? && failure == NoFailure
  {
    var weapon := actor.items[k];
    var activeRite := ActiveRite(weapon);
    removed := false;
    if activeRite.None? || failure == FirstCallFails {
      assert actor.items == actor.items[k := weapon];
      return;
    }
    var stripped := WithoutEffect(weapon, activeRite.value);
    actor.items := actor.items[k := stripped];
    if failure == NoFailure {
      actor.items := actor.items[k := WithRiteFlag(stripped, NoRiteMarker)];
      removed := true;
    }
  }

  /** No host update fails. */
  function NoFailures(k: nat): HostFailure
  {
    NoFailure
  }

  /** The number of weapons with an active rite. */
  function ActiveCount(items: seq<Item>): nat
  {
    if |items| == 0 then 0
    else
      ActiveCount(items[..|items| - 1]) +
      (if items[|items| - 1].itemType == "weapon" && ActiveRite(items[|items| - 1]).Some? then 1 else 0)
  }

  /** The count never exceeds the weapons that had a rite, and equals it when
      nothing fails. */
  lemma {:induction false} RemovedCountBound(items: seq<Item>, failureAt: nat -> HostFailure)
    ensures RemovedCount(items, failureAt) <= ActiveCount(items)
    ensures RemovedCount(items, NoFailures) == ActiveCount(items)
  {
    if |items| > 0 {
      RemovedCountBound(items[..|items| - 1], failureAt);
    }
  }

  /** After a rest with no failures no weapon has an active rite, other items
      are unchanged, and a second rest removes nothing more. */
  lemma RestRemovesAll(items: seq<Item>)
    ensures var once := Rested(items, NoFailures);
      (forall k :: 0 <= k < |items| && items[k].itemType == "weapon" ==> ActiveRite(once[k]).None?) &&
      (forall k :: 0 <= k < |items| && items[k].itemType != "weapon" ==> once[k] == items[k]) &&
      Rested(once, NoFailures) == once && RemovedCount(once, NoFailures) == 0
  {
    var once := Rested(items, NoFailures);
    forall k | 0 <= k < |items|
      ensures once[k].itemType == items[k].itemType
      ensures items[k].itemType == "weapon" ==> ActiveRite(once[k]).None?
      ensures items[k].itemType != "weapon" ==> once[k] == items[k]
      ensures Rested(once, NoFailures)[k] == once[k]
    {
      assert NoFailures(k) == NoFailure;
      assert once[k] == RestedItem(items[k], NoFailure);
      assert Rested(once, NoFailures)[k] == RestedItem(once[k], NoFailure);
      if items[k].itemType == "weapon" {
        assert once[k] == Deactivated(items[k], NoFailure);
        DeactivateClears(items[k]);
      }
    }
    assert Rested(once, NoFailures) == once;
    NoActiveNoCount(once);
  }

  lemma {:induction false} NoActiveNoCount(items: seq<Item>)
    requires forall k :: 0 <= k < |items| && items[k].itemType == "weapon" ==> ActiveRite(items[k]).None?
    ensures RemovedCount(items, NoFailures) == 0
  {
    if |items| > 0 {
      NoActiveNoCount(items[..|items| - 1]);
    }
  }
}
