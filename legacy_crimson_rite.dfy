// scripts/crimson-rite.js: the older `CrimsonRite` class, still the one the
// module entry point imports. It knows nine rites, charges a fixed HP cost by
// level, and finds a weapon's rite by scanning its effects for the rite flag
// instead of following a pointer.
//
// Its `getRiteIcon` has the same nine icons and the same fallback as the
// integration layer's, so `Integrations.RiteIcon` serves both.

module LegacyCrimsonRite {
  import opened Common
  import opened Documents
  import opened RiteConstants
  import Utils
  import Integrations

  const LegacyRiteTypes: seq<RiteInfo> := [
    RiteInfo("flame", "fire", 1),
    RiteInfo("frozen", "cold", 1),
    RiteInfo("storm", "lightning", 1),
    RiteInfo("corrosion", "acid", 6),
    RiteInfo("toxin", "poison", 6),
    RiteInfo("dead", "necrotic", 14),
    RiteInfo("oracle", "psychic", 14),
    RiteInfo("dawn", "radiant", 14),
    RiteInfo("roar", "thunder", 14)
  ]

  /** Nine rites with distinct keys: three at level 1, two at 6, four at 14;
      the six rites of the refactored table are among them, unchanged. */
  lemma LegacyRiteTable()
    ensures RiteKeys(LegacyRiteTypes) ==
      ["flame", "frozen", "storm", "corrosion", "toxin", "dead", "oracle", "dawn", "roar"]
    ensures forall i, j :: 0 <= i < j < |LegacyRiteTypes| ==> LegacyRiteTypes[i].key != LegacyRiteTypes[j].key
    ensures forall k :: 0 <= k < |LegacyRiteTypes| ==>
      (LegacyRiteTypes[k].level == 1 <==> k < 3) &&
      (LegacyRiteTypes[k].level == 6 <==> 3 <= k < 5) &&
      (LegacyRiteTypes[k].level == 14 <==> 5 <= k)
    ensures forall x :: x in RiteTypes ==> x in LegacyRiteTypes
  {
    assert RiteTypes == [LegacyRiteTypes[0], LegacyRiteTypes[1], LegacyRiteTypes[2],
                         LegacyRiteTypes[5], LegacyRiteTypes[6], LegacyRiteTypes[8]];
  }

  /** `calculateHPCost(actor)` for the actor's Blood Hunter level. */
  function HPCost(level: int): (cost: int)
    ensures 1 <= cost <= 4
  {
    if level < 5 then 1 else if level < 11 then 2 else if level < 17 then 3 else 4
  }

  /** The cost follows the hemocraft die: one less than half its faces, so it
      never falls as the level rises. */
  lemma HPCostTracksDie(level: int, higher: int)
    requires level <= higher
    ensures HPCost(level) == Utils.HemocraftFaces(level) / 2 - 1
    ensures HPCost(level) <= HPCost(higher)
  {
  }

  /** `getRiteDamage(actor)` for the actor's Blood Hunter level. */
  function RiteDamage(level: int): (die: string)
  {
    if level < 5 then "1d4" else if level < 11 then "1d6" else if level < 17 then "1d8" else "1d10"
  }

  /** The rite die is the hemocraft die at every level. */
  lemma RiteDamageIsHemocraftDie(level: int)
    ensures RiteDamage(level) == Utils.HemocraftDie(level)
  {
  }

  /** `getAvailableRites(actor)`: the level filter over the nine rites. */
  method GetAvailableRites(items: seq<Item>) returns (available: seq<RiteInfo>)
    ensures available == UnlockedRites(LegacyRiteTypes, Utils.BloodHunterLevelOf(items))
  {
    var bloodHunterLevel := Utils.BloodHunterLevelOf(items);
    available := CollectUnlocked(LegacyRiteTypes, bloodHunterLevel);
  }

  /** Exactly the rites whose level is reached, none for a non-Blood Hunter,
      and never fewer at a higher level. */
  lemma LegacyAvailability(items: seq<Item>, lo: int, hi: int)
    requires lo <= hi
    ensures forall x :: x in UnlockedRites(LegacyRiteTypes, Utils.BloodHunterLevelOf(items)) <==>
      x in LegacyRiteTypes && x.level <= Utils.BloodHunterLevelOf(items)
    ensures !Utils.HasBloodHunterClass(items) ==> UnlockedRites(LegacyRiteTypes, Utils.BloodHunterLevelOf(items)) == []
    ensures forall x :: x in UnlockedRites(LegacyRiteTypes, lo) ==> x in UnlockedRites(LegacyRiteTypes, hi)
  {
    UnlockedAtZero(LegacyRiteTypes);
    UnlockedMonotone(LegacyRiteTypes, lo, hi);
  }

  // ------------------------------------------------------- the active rite

  /** `getActiveRite(weapon)`: the first effect carrying the rite flag. */
  function FirstRiteEffect(effects: seq<Effect>): (r: Option<nat>)
    ensures r.Some? ==> r.value < |effects| && effects[r.value].IsCrimsonRite()
    ensures r.Some? ==> forall k :: 0 <= k < r.value ==> !effects[k].IsCrimsonRite()
    ensures r.None? ==> forall k :: 0 <= k < |effects| ==> !effects[k].IsCrimsonRite()
  {
    if |effects| == 0 then None
    else if effects[0].IsCrimsonRite() then Some(0)
    else match FirstRiteEffect(effects[1..])
      case None => None
      case Some(k) => Some(k + 1)
  }

  /** The weapon after `deactivate`: without its first rite effect. */
  function Deactivated(weapon: Item): Item
  {
    match FirstRiteEffect(weapon.effects)
    case None => weapon
    case Some(k) => weapon.(effects := weapon.effects[..k] + weapon.effects[k + 1..])
  }

  /** The items after `deactivate`: the weapon, if found, without its first
      rite effect. */
  function DeactivatedItems(items: seq<Item>, weaponId: string): seq<Item>
  {
    match FindItem(items, weaponId)
    case None => items
    case Some(w) => items[w := Deactivated(items[w])]
  }

  /** The notices `deactivate` shows: none when asked not to or when the
      weapon is unknown, a warning when it has no rite. */
  function DeactivateNotices(items: seq<Item>, weaponId: string, showNotification: bool, deactivatedText: string)
    : seq<Notice>
  {
    match FindItem(items, weaponId)
    case None => []
    case Some(w) =>
      if !showNotification then []
      else if FirstRiteEffect(items[w].effects).None? then [Notice("warn", "No active Crimson Rite on this weapon")]
      else [Notice("info", deactivatedText)]
  }

  /** `deactivate(actor, weaponId, showNotification)` */
  method Deactivate(actor: Actor, weaponId: string, showNotification: bool, deactivatedText: string,
                    client: Client)
    modifies actor, client
    ensures actor.hp == old(actor.hp) && actor.effects == old(actor.effects)
    ensures client.outbox == old(client.outbox) && client.targets == old(client.targets)
    ensures actor.items == DeactivatedItems(old(actor.items), weaponId)
    ensures client.notices ==
      old(client.notices) + DeactivateNotices(old(actor.items), weaponId, showNotification, deactivatedText)
  {
    var found := FindItem(actor.items, weaponId);
    if found.None? {
      return;
    }
    var w := found.value;
    var weapon := actor.items[w];
    var activeRite := FirstRiteEffect(weapon.effects);
    if activeRite.None? {
      if showNotification {
        client.notices := client.notices + [Notice("warn", "No active Crimson Rite on this weapon")];
      }
      assert actor.items == actor.items[w := weapon];
      return;
    }
    var k := activeRite.value;
    actor.items := actor.items[w := weapon.(effects := weapon.effects[..k] + weapon.effects[k + 1..])];
    if showNotification {
      client.notices := client.notices + [Notice("info", deactivatedText)];
    }
  }

  /** An unknown weapon, or one without a rite, keeps its items; only the one
      effect found by `getActiveRite` goes, the weapon's other fields and the
      other items stay. */
  lemma DeactivateCases(items: seq<Item>, weaponId: string)
    ensures |DeactivatedItems(items, weaponId)| == |items|
    ensures FindItem(items, weaponId).None? ==> DeactivatedItems(items, weaponId) == items
    ensures FindItem(items, weaponId).Some? ==>
      var w := FindItem(items, weaponId).value;
      var after := DeactivatedItems(items, weaponId);
      (forall k :: 0 <= k < |items| && k != w ==> after[k] == items[k]) &&
      after[w].(effects := items[w].effects) == items[w] &&
      (FirstRiteEffect(items[w].effects).None? ==> after == items) &&
      (FirstRiteEffect(items[w].effects).Some? ==>
        |after[w].effects| + 1 == |items[w].effects| &&
        multiset(after[w].effects) + multiset{items[w].effects[FirstRiteEffect(items[w].effects).value]} ==
          multiset(items[w].effects))
  {
    if FindItem(items, weaponId).Some? {
      var w := FindItem(items, weaponId).value;
      var weapon := items[w];
      var after := DeactivatedItems(items, weaponId);
      assert after == items[w := Deactivated(weapon)];
      var first := FirstRiteEffect(weapon.effects);
      if first.None? {
        assert Deactivated(weapon) == weapon;
        assert items[w := weapon] == items;
      } else {
        var k := first.value;
        assert Deactivated(weapon).effects == weapon.effects[..k] + weapon.effects[k + 1..];
        RemoveAtMultiset(weapon.effects, k);
      }
    }
  }

  /** Taking one element out of a list leaves the rest of its multiset. */
  lemma RemoveAtMultiset<T>(s: seq<T>, k: nat)
    requires k < |s|
    ensures multiset(s[..k] + s[k + 1..]) + multiset{s[k]} == multiset(s)
  {
    assert s == s[..k] + [s[k]] + s[k + 1..];
  }

  // ------------------------------------------------------------ activate

  /** How `activate` ended. */
  datatype ActivateOutcome = NoWeapon | InsufficientHP | UnknownRite | Activated

  /** The effect `activate` creates. It sets no `transfer` key, so the host's
      default `defaultTransfer` applies; its `changes` list is empty. */
  function LegacyRiteEffect(level: int, weaponId: string, riteType: string, damageType: string,
                            actorUuid: string, effectName: string, newEffectId: string, defaultTransfer: bool)
    : (e: Effect)
    ensures e.IsCrimsonRite() && e.id == newEffectId && e.changes == [] && e.transfer == defaultTransfer
    ensures e.flags == RiteEffectFlags(riteType, damageType, RiteDamage(level), weaponId)
    ensures e.icon == Integrations.RiteIcon(riteType)
  {
    Effect(newEffectId, effectName, Integrations.RiteIcon(riteType), actorUuid, [], Duration(None, None),
           RiteEffectFlags(riteType, damageType, RiteDamage(level), weaponId), [], defaultTransfer)
  }

  /** The values `activate` takes from the host: the `autoCalculateHP`
      setting, the actor's uuid, the new effect's name and id, the host's
      `transfer` default and the three localized texts. */
  datatype ActivateInputs = ActivateInputs(
    autoHP: bool, actorUuid: string, effectName: string, newEffectId: string, defaultTransfer: bool,
    insufficientText: string, costText: string, activatedText: string)

  /** What `activate` leaves behind: how it ended, the actor's items and HP,
      and the notices it showed. */
  datatype ActivateResult = ActivateResult(outcome: ActivateOutcome, items: seq<Item>, hp: int, shown: seq<Notice>)

  /** The end of `activate`, after the payment: the rite lookup, which
      throws for an unknown type, then the new effect on the weapon at `w`. */
  function CreateRiteSpec(items: seq<Item>, w: nat, level: int, weaponId: string, riteType: string,
                          inputs: ActivateInputs): (ActivateOutcome, seq<Item>)
    requires w < |items|
  {
    match LookupRite(LegacyRiteTypes, riteType)
    case None => (UnknownRite, items)
    case Some(info) =>
      var effect := LegacyRiteEffect(level, weaponId, riteType, info.damageType, inputs.actorUuid,
                                     inputs.effectName, inputs.newEffectId, inputs.defaultTransfer);
      (Activated, items[w := items[w].(effects := items[w].effects + [effect])])
  }

  /** The rest of `activate` once any old rite is off the weapon at `w`: the
      HP check and payment (both only with `autoHP`), then the rite lookup,
      which throws after the payment, then the new effect. */
  function PayAndCreateSpec(items: seq<Item>, w: nat, hp: int, weaponId: string, riteType: string,
                            inputs: ActivateInputs): ActivateResult
    requires w < |items|
  {
    var level := Utils.BloodHunterLevelOf(items);
    var cost := HPCost(level);
    if hp <= cost && inputs.autoHP then
      ActivateResult(InsufficientHP, items, hp, [Notice("error", inputs.insufficientText)])
    else
      var paidHP := if inputs.autoHP then hp - cost else hp;
      var paid := if inputs.autoHP then [Notice("info", inputs.costText)] else [];
      var (outcome, created) := CreateRiteSpec(items, w, level, weaponId, riteType, inputs);
      ActivateResult(outcome, created, paidHP,
                     paid + if outcome == Activated then [Notice("info", inputs.activatedText)] else [])
  }

  /** `activate(actor, weaponId, riteType)`: an unknown weapon stops it; an
      existing rite comes off first, silently. */
  function ActivateSpec(items: seq<Item>, hp: int, weaponId: string, riteType: string, inputs: ActivateInputs)
    : ActivateResult
  {
    match FindItem(items, weaponId)
    case None => ActivateResult(NoWeapon, items, hp, [])
    case Some(w) => PayAndCreateSpec(DeactivatedItems(items, weaponId), w, hp, weaponId, riteType, inputs)
  }

  /** `activate(actor, weaponId, riteType)` on the actor's documents. */
  method Activate(actor: Actor, weaponId: string, riteType: string, inputs: ActivateInputs, client: Client)
    returns (outcome: ActivateOutcome)
    modifies actor, client
    ensures actor.effects == old(actor.effects)
    ensures client.outbox == old(client.outbox) && client.targets == old(client.targets)
    ensures var r := ActivateSpec(old(actor.items), old(actor.hp), weaponId, riteType, inputs);
      outcome == r.outcome && actor.items == r.items && actor.hp == r.hp &&
      client.notices == old(client.notices) + r.shown
  {
    var found := FindItem(actor.items, weaponId);
    if found.None? {
      return NoWeapon;
    }
    var w := found.value;
    ClearRite(actor, w, weaponId, client);
    outcome := PayAndCreate(actor, w, weaponId, riteType, inputs, client);
  }

  /** The start of `activate`: a rite already on the weapon at `w` comes off
      through `deactivate`, without a notification. */
  method ClearRite(actor: Actor, w: nat, weaponId: string, client: Client)
    requires FindItem(actor.items, weaponId) == Some(w)
    modifies actor, client
    ensures actor.hp == old(actor.hp) && actor.effects == old(actor.effects)
    ensures client.outbox == old(client.outbox) && client.targets == old(client.targets)
    ensures client.notices == old(client.notices)
    ensures actor.items == DeactivatedItems(old(actor.items), weaponId) && w < |actor.items|
  {
    var existingRite := FirstRiteEffect(actor.items[w].effects);
    if existingRite.Some? {
      Deactivate(actor, weaponId, false, "", client);
    } else {
      assert actor.items == actor.items[w := actor.items[w]];
    }
  }

  /** The rest of `activate` once any old rite is off the weapon at `w`. */
  method PayAndCreate(actor: Actor, w: nat, weaponId: string, riteType: string, inputs: ActivateInputs,
                      client: Client)
    returns (outcome: ActivateOutcome)
    requires w < |actor.items|
    modifies actor, client
    ensures actor.effects == old(actor.effects)
    ensures client.outbox == old(client.outbox) && client.targets == old(client.targets)
    ensures var r := PayAndCreateSpec(old(actor.items), w, old(actor.hp), weaponId, riteType, inputs);
      outcome == r.outcome && actor.items == r.items && actor.hp == r.hp &&
      client.notices == old(client.notices) + r.shown
  {
    var level := Utils.BloodHunterLevelOf(actor.items);
    var hpCost := HPCost(level);
    var currentHP := actor.hp;
    if currentHP <= hpCost && inputs.autoHP {
      client.notices := client.notices + [Notice("error", inputs.insufficientText)];
      return InsufficientHP;
    }
    ghost var notices0 := client.notices;
    var paid := [];
    if inputs.autoHP {
      actor.hp := currentHP - hpCost;
      paid := [Notice("info", inputs.costText)];
      client.notices := client.notices + paid;
    }
    outcome := CreateRite(actor, w, level, weaponId, riteType, inputs, client);
    AppendAssoc(notices0, paid, if outcome == Activated then [Notice("info", inputs.activatedText)] else []);
  }

  /** `getRiteDamage`, the rite lookup and the effect creation of `activate`,
      at the level `level` read before the payment. */
  method CreateRite(actor: Actor, w: nat, level: int, weaponId: string, riteType: string, inputs: ActivateInputs,
                    client: Client)
    returns (outcome: ActivateOutcome)
    requires w < |actor.items|
    modifies actor, client
    ensures actor.effects == old(actor.effects) && actor.hp == old(actor.hp)
    ensures client.outbox == old(client.outbox) && client.targets == old(client.targets)
    ensures (outcome, actor.items) == CreateRiteSpec(old(actor.items), w, level, weaponId, riteType, inputs)
    ensures client.notices ==
      old(client.notices) + if outcome == Activated then [Notice("info", inputs.activatedText)] else []
  {
    var entry := LookupRite(LegacyRiteTypes, riteType);
    if entry.None? {
      return UnknownRite;
    }
    var effectData := LegacyRiteEffect(level, weaponId, riteType, entry.value.damageType, inputs.actorUuid,
                                       inputs.effectName, inputs.newEffectId, inputs.defaultTransfer);
    var weapon := actor.items[w];
    actor.items := actor.items[w := weapon.(effects := weapon.effects + [effectData])];
    client.notices := client.notices + [Notice("info", inputs.activatedText)];
    return Activated;
  }

  /** The cases of `activate`: an unknown weapon changes nothing; otherwise
      the old rite is off the weapon whatever follows; the HP check and the
      payment both depend on `autoHP`, at the level of the actor before the
      call; an unknown rite type pays but creates nothing; success appends
      the one rite effect to the cleared weapon and announces it. */
  lemma ActivateCases(items: seq<Item>, hp: int, weaponId: string, riteType: string, inputs: ActivateInputs)
    ensures var r := ActivateSpec(items, hp, weaponId, riteType, inputs);
      (r.outcome == NoWeapon <==> FindItem(items, weaponId).None?) &&
      (r.outcome == NoWeapon ==> r.items == items && r.hp == hp && r.shown == [])
    ensures var r := ActivateSpec(items, hp, weaponId, riteType, inputs);
      r.outcome != NoWeapon ==>
      var w := FindItem(items, weaponId).value;
      var level := Utils.BloodHunterLevelOf(items);
      var cleared := Deactivated(items[w]);
      var paid := if inputs.autoHP then [Notice("info", inputs.costText)] else [];
      (r.outcome == InsufficientHP <==> inputs.autoHP && hp <= HPCost(level)) &&
      (r.outcome == InsufficientHP ==>
        r.hp == hp && r.items == items[w := cleared] && r.shown == [Notice("error", inputs.insufficientText)]) &&
      (r.outcome != InsufficientHP ==> r.hp == hp - (if inputs.autoHP then HPCost(level) else 0)) &&
      (r.outcome == UnknownRite <==> r.outcome != InsufficientHP && LookupRite(LegacyRiteTypes, riteType).None?) &&
      (r.outcome == UnknownRite ==> r.items == items[w := cleared] && r.shown == paid) &&
      (r.outcome == Activated ==>
        r.items == items[w := cleared.(effects := cleared.effects +
          [LegacyRiteEffect(level, weaponId, riteType, LookupRite(LegacyRiteTypes, riteType).value.damageType,
                            inputs.actorUuid, inputs.effectName, inputs.newEffectId, inputs.defaultTransfer)])] &&
        r.shown == paid + [Notice("info", inputs.activatedText)])
  {
    if FindItem(items, weaponId).Some? {
      var w := FindItem(items, weaponId).value;
      Utils.LevelKeptByUpdate(items, w, Deactivated(items[w]));
    }
  }

  // ------------------------------------------------- the one-rite invariant

  /** At most one effect of the weapon carries the rite flag. */
  predicate AtMostOneRite(effects: seq<Effect>)
  {
    forall i, j :: 0 <= i < j < |effects| && effects[i].IsCrimsonRite() ==> !effects[j].IsCrimsonRite()
  }

  /** Deactivating a weapon with at most one rite leaves none; activating
      after it leaves exactly the new one, which `getActiveRite` then finds. */
  lemma ActivateKeepsOneRite(weapon: Item, effect: Effect)
    requires AtMostOneRite(weapon.effects) && effect.IsCrimsonRite()
    ensures forall e :: e in Deactivated(weapon).effects ==> !e.IsCrimsonRite()
    ensures var after := Deactivated(weapon).effects + [effect];
      AtMostOneRite(after) && FirstRiteEffect(after) == Some(|after| - 1)
  {
    var cleared := Deactivated(weapon).effects;
    var first := FirstRiteEffect(weapon.effects);
    if first.Some? {
      var k := first.value;
      forall e | e in cleared
        ensures !e.IsCrimsonRite()
      {
        var j :| 0 <= j < |cleared| && cleared[j] == e;
        if j >= k {
          assert e == weapon.effects[j + 1];
        }
      }
    }
    var after := cleared + [effect];
    assert forall j :: 0 <= j < |cleared| ==> after[j] in cleared;
    FirstRiteAtEnd(cleared, effect);
  }

  /** After an activation on `weaponId`: the weapon exists, and if it held at
      most one rite before, it now holds exactly one, the new effect, which
      `getActiveRite` finds. */
  predicate ActivatedOnce(before: seq<Item>, after: seq<Item>, weaponId: string, newEffectId: string)
  {
    FindItem(before, weaponId).Some? && |after| == |before| &&
    var w := FindItem(before, weaponId).value;
    var effects := after[w].effects;
    AtMostOneRite(before[w].effects) ==>
      AtMostOneRite(effects) && FirstRiteEffect(effects) == Some(|effects| - 1) &&
      effects[|effects| - 1].id == newEffectId
  }

  /** A successful `activate` leaves the weapon with one active rite, the new
      one, whenever it had at most one before. */
  lemma ActivateLeavesOneRite(items: seq<Item>, hp: int, weaponId: string, riteType: string,
                              inputs: ActivateInputs)
    ensures var r := ActivateSpec(items, hp, weaponId, riteType, inputs);
      r.outcome == Activated ==> ActivatedOnce(items, r.items, weaponId, inputs.newEffectId)
  {
    var r := ActivateSpec(items, hp, weaponId, riteType, inputs);
    if r.outcome == Activated {
      ActivateCases(items, hp, weaponId, riteType, inputs);
      var w := FindItem(items, weaponId).value;
      var effect := LegacyRiteEffect(Utils.BloodHunterLevelOf(items), weaponId, riteType,
                                     LookupRite(LegacyRiteTypes, riteType).value.damageType, inputs.actorUuid,
                                     inputs.effectName, inputs.newEffectId, inputs.defaultTransfer);
      assert r.items[w].effects == Deactivated(items[w]).effects + [effect];
      if AtMostOneRite(items[w].effects) {
        ActivateKeepsOneRite(items[w], effect);
      }
    }
  }

  /** Behind effects none of which is a rite, a rite is the first one found. */
  lemma {:induction false} FirstRiteAtEnd(effects: seq<Effect>, effect: Effect)
    requires forall e :: e in effects ==> !e.IsCrimsonRite()
    requires effect.IsCrimsonRite()
    ensures FirstRiteEffect(effects + [effect]) == Some(|effects|)
  {
    if |effects| > 0 {
      assert (effects + [effect])[1..] == effects[1..] + [effect];
      FirstRiteAtEnd(effects[1..], effect);
    }
  }
}
