// scripts/blood-curse.js: the older BloodCurse class. Its detector and its
// mode selection are the same code as the refactored ones, run over its own
// copy of the curse table; what differs is the charge scheme (a per-curse
// `usedThisTurn` flag, cleared at the start of the hunter's turn) and the
// amplification cost (fixed by level instead of rolled).

module LegacyBloodCurse {
  import opened Common
  import opened Documents
  import opened CurseRegistry
  import Utils
  import CurseDetection
  import Marked
  import Binding
  import CurseDialogs

  /** `BloodCurse.CURSE_TYPES`, without the prose-only `trigger` and
      `amplified` fields. */
  const LegacyCurseTypes: seq<CurseInfo> := [
    CurseInfo("binding", "Blood Curse of Binding", 1, "reaction", true),
    CurseInfo("marked", "Blood Curse of the Marked", 1, "bonus", true),
    CurseInfo("anxious", "Blood Curse of the Anxious", 1, "reaction", false),
    CurseInfo("eyeless", "Blood Curse of the Eyeless", 6, "reaction", false),
    CurseInfo("fallen_puppet", "Blood Curse of the Fallen Puppet", 6, "reaction", false),
    CurseInfo("bloated_agony", "Blood Curse of Bloated Agony", 10, "bonus", true),
    CurseInfo("corrosion", "Blood Curse of Corrosion", 14, "reaction", true),
    CurseInfo("exorcism", "Blood Curse of the Exorcism", 18, "bonus", true)
  ]

  /** The legacy table has the registry's eight keys in the same order, each
      with the same unlock level, timing and hemocraft use. */
  lemma LegacyTableMatchesRegistry()
    ensures Keys(LegacyCurseTypes) == Keys(CurseTypes)
    ensures forall k :: 0 <= k < |LegacyCurseTypes| ==>
      LegacyCurseTypes[k].level == CurseTypes[k].level == RuleUnlockLevel(LegacyCurseTypes[k].key) &&
      LegacyCurseTypes[k].timing == CurseTypes[k].timing &&
      LegacyCurseTypes[k].usesHemocraft == CurseTypes[k].usesHemocraft
  {
  }

  // ------------------------------------------------------------ detection

  /** `BloodCurse.getKnownCursesFromFeatures(actor)`: the detector's loops
      over the legacy table. */
  method GetKnownCursesFromFeatures(items: seq<Item>) returns (known: seq<string>)
    ensures known == CurseDetection.KnownFromFeatures(LegacyCurseTypes, items)
    ensures Distinct(known)
  {
    known := CurseDetection.GetKnownCursesFromFeatures(LegacyCurseTypes, items);
    CurseDetection.KnownNoDuplicates(LegacyCurseTypes, items);
  }

  /** The legacy detector never repeats a key, finds only table keys and
      flagged curse types, and adding features never removes a curse. */
  lemma LegacyDetection(a: seq<Item>, b: seq<Item>, x: string)
    ensures Distinct(CurseDetection.KnownFromFeatures(LegacyCurseTypes, a))
    ensures x in CurseDetection.KnownFromFeatures(LegacyCurseTypes, a) ==>
      x in Keys(LegacyCurseTypes) ||
      exists k :: 0 <= k < |a| && a[k].IsFeatOrFeature() && a[k].flags.IsBloodCurse() && a[k].flags.CurseType() == x
    ensures forall y :: y in CurseDetection.KnownFromFeatures(LegacyCurseTypes, a) ==>
      y in CurseDetection.KnownFromFeatures(LegacyCurseTypes, a + b)
  {
    CurseDetection.KnownNoDuplicates(LegacyCurseTypes, a);
    if x in CurseDetection.KnownFromFeatures(LegacyCurseTypes, a) {
      CurseDetection.KnownDrawnFromTable(LegacyCurseTypes, a, x);
    }
    assert forall k :: 0 <= k < |a| ==> (a + b)[k] == a[k];
    CurseDetection.KnownMonotone(LegacyCurseTypes, a, a + b);
  }

  // --------------------------------------------------------- availability

  /** `hasUsesRemaining(actor, curse)`: the curse has not been used this turn. */
  predicate HasUsesRemaining(curse: Item)
  {
    !curse.flags.UsedThisTurn()
  }

  /** `BloodCurse.getAvailableCurses(actor, timing)`; `setting` is the
      detection-mode setting and `timing` is "" for no timing filter. */
  function AvailableCurses(items: seq<Item>, setting: string, timing: string): seq<Item>
  {
    var level := Utils.BloodHunterLevelOf(items);
    var known := CurseDetection.KnownForMode(LegacyCurseTypes, items, level, CurseDetection.EffectiveMode(setting));
    CurseDetection.FilterCurses(items, level, known, timing, (i: Item) => HasUsesRemaining(i))
  }

  /** The same filter as the refactored list, with the per-curse flag as the
      charge check: a curse used this turn is never offered, and an unused
      one is offered exactly when the other tests pass. */
  lemma AvailableCursesSound(items: seq<Item>, setting: string, timing: string)
    ensures var level := Utils.BloodHunterLevelOf(items);
      var known := CurseDetection.KnownForMode(LegacyCurseTypes, items, level, CurseDetection.EffectiveMode(setting));
      forall x :: x in AvailableCurses(items, setting, timing) <==>
        x in items && CurseDetection.Eligible(x, level, known, timing, !x.flags.UsedThisTurn())
  {
  }

  // ------------------------------------------------------- amplification

  /** `calculateAmplificationCost(actor)` from the Blood Hunter level. */
  function AmplificationCost(level: int): (cost: int)
    ensures 1 <= cost <= 4
  {
    if level < 5 then 1
    else if level < 11 then 2
    else if level < 17 then 3
    else 4
  }

  /** The cost steps at the same levels as the hemocraft die: it is half the
      die's faces less one, so it never falls as the level rises. */
  lemma AmplificationCostTracksDie(level: int, higher: int)
    requires level <= higher
    ensures AmplificationCost(level) == Utils.HemocraftFaces(level) / 2 - 1
    ensures AmplificationCost(level) <= AmplificationCost(higher)
  {
  }

  /** The cost for an actor with these items. */
  function CostFor(items: seq<Item>): int
  {
    AmplificationCost(Utils.BloodHunterLevelOf(items))
  }

  /** How `execute` ended. */
  datatype ExecuteOutcome =
    | InsufficientHP   // the early return of the HP check
    | Completed        // the effect ran and the curse was marked used
    | EffectThrew      // Binding on a target token without an actor

  /** The curse at `k` with `usedThisTurn` set. */
  function MarkUsed(items: seq<Item>, k: nat): (r: seq<Item>)
    requires k < |items|
    ensures |r| == |items| && !HasUsesRemaining(r[k])
    ensures forall j :: 0 <= j < |items| && j != k ==> r[j] == items[j]
  {
    items[k := items[k].(flags := items[k].flags.WithUsedThisTurn(true))]
  }

  /** `BloodCurse.execute(actor, curse, workflow, amplify)` for the curse at
      position `k`. The fixed cost is checked against HP before anything
      changes; then HP is paid, the effect runs (only marked, binding and
      anxious have one), and the curse is marked used. `markedTotal` is the
      Marked bonus roll. */
  method Execute(actor: Actor, k: nat, wf: Workflow, amplify: bool, client: Client,
                 markedTotal: int, newEffectId: string)
    returns (outcome: ExecuteOutcome)
    requires k < |actor.items|
    requires Utils.IsHemocraftRoll(markedTotal, Marked.MarkedDice(amplify), Utils.BloodHunterLevelOf(actor.items))
    modifies actor, wf, client, Binding.TargetActor(wf)
    ensures var cost := CostFor(old(actor.items));
      outcome == InsufficientHP <==> amplify && old(actor.hp) <= cost
    ensures outcome == InsufficientHP ==>
      actor.hp == old(actor.hp) && actor.items == old(actor.items) && actor.effects == old(actor.effects) &&
      wf.damageTotal == old(wf.damageTotal) &&
      client.notices == old(client.notices) + [Notice("warn", "Insufficient HP to amplify Blood Curse")]
    ensures var cost := CostFor(old(actor.items));
      outcome != InsufficientHP ==> actor.hp == old(actor.hp) - (if amplify then cost else 0)
    ensures outcome == EffectThrew <==>
      outcome != InsufficientHP && CurseDialogs.HandlerOf(old(actor.items[k].flags.CurseType())) == CurseDialogs.BindingHandler &&
      wf.firstTarget.Some? && wf.firstTarget.value.actor == null
    ensures outcome == Completed ==> actor.items == MarkUsed(old(actor.items), k)
    ensures outcome != Completed ==> actor.items == old(actor.items)
    ensures outcome != InsufficientHP && CurseDialogs.HandlerOf(old(actor.items[k].flags.CurseType())) == CurseDialogs.MarkedHandler ==>
      wf.damageTotal == old(wf.damageTotal) + (if wf.hasDamageRoll then markedTotal else 0)
    ensures CurseDialogs.HandlerOf(old(actor.items[k].flags.CurseType())) != CurseDialogs.MarkedHandler ==> wf.damageTotal == old(wf.damageTotal)
    ensures CurseDialogs.HandlerOf(old(actor.items[k].flags.CurseType())) in {CurseDialogs.FallenPuppetHandler, CurseDialogs.NoHandler} && outcome != InsufficientHP ==>
      outcome == Completed && client.notices == old(client.notices) +
        (if amplify then [Notice("info", "Paid " + IntDecimal(CostFor(old(actor.items)))
                                 + " HP to amplify Blood Curse")] else [])
    ensures outcome != InsufficientHP ==>
      client.notices == old(client.notices) +
        (if amplify then [Notice("info", "Paid " + IntDecimal(CostFor(old(actor.items)))
                                 + " HP to amplify Blood Curse")] else []) +
        CurseDialogs.EffectNotices(CurseDialogs.HandlerOf(old(actor.items[k].flags.CurseType())), amplify, wf, CurseDialogs.HunterDC(actor))
    ensures outcome != InsufficientHP && CurseDialogs.HandlerOf(old(actor.items[k].flags.CurseType())) == CurseDialogs.BindingHandler &&
            Binding.TargetActor(wf) != null ==>
      Binding.TargetActor(wf).effects ==
        old(Binding.TargetActor(wf).effects) + [Binding.BindingEffect(amplify, newEffectId)]
    ensures outcome == InsufficientHP || CurseDialogs.HandlerOf(old(actor.items[k].flags.CurseType())) != CurseDialogs.BindingHandler ==>
      Binding.TargetActor(wf) != null ==> Binding.TargetActor(wf).effects == old(Binding.TargetActor(wf).effects)
    ensures client.outbox == old(client.outbox) && client.targets == old(client.targets)
  {
    var hpCost := CostFor(actor.items);
    var paid := CurseDialogs.PayAmplification(actor, client, amplify, hpCost,
                                              Notice("warn", "Insufficient HP to amplify Blood Curse"),
                                              Notice("info", "Paid " + IntDecimal(hpCost) + " HP to amplify Blood Curse"));
    if !paid {
      return InsufficientHP;
    }
    outcome := ApplyCurse(actor, k, wf, amplify, client, markedTotal, newEffectId);
  }

  /** The curse-type dispatch of `executeCurse`, after any payment, then the
      `usedThisTurn` mark. This dispatch has no Fallen Puppet case, so a
      `fallen_puppet` curse runs no effect, as a completing Fallen Puppet
      handler of `CurseDialogs.ExecuteCurseEffect` does. */
  method ApplyCurse(actor: Actor, k: nat, wf: Workflow, amplify: bool, client: Client,
                    markedTotal: int, newEffectId: string)
    returns (outcome: ExecuteOutcome)
    requires k < |actor.items|
    requires Utils.IsHemocraftRoll(markedTotal, Marked.MarkedDice(amplify), Utils.BloodHunterLevelOf(actor.items))
    modifies actor, wf, client, Binding.TargetActor(wf)
    ensures actor.hp == old(actor.hp) && outcome != InsufficientHP
    ensures outcome == EffectThrew <==>
      CurseDialogs.HandlerOf(old(actor.items[k].flags.CurseType())) == CurseDialogs.BindingHandler && wf.firstTarget.Some? && wf.firstTarget.value.actor == null
    ensures outcome == Completed ==> actor.items == MarkUsed(old(actor.items), k)
    ensures outcome != Completed ==> actor.items == old(actor.items)
    ensures CurseDialogs.HandlerOf(old(actor.items[k].flags.CurseType())) == CurseDialogs.MarkedHandler ==>
      wf.damageTotal == old(wf.damageTotal) + (if wf.hasDamageRoll then markedTotal else 0)
    ensures CurseDialogs.HandlerOf(old(actor.items[k].flags.CurseType())) != CurseDialogs.MarkedHandler ==> wf.damageTotal == old(wf.damageTotal)
    ensures CurseDialogs.HandlerOf(old(actor.items[k].flags.CurseType())) in {CurseDialogs.FallenPuppetHandler, CurseDialogs.NoHandler} ==>
      outcome == Completed && client.notices == old(client.notices)
    ensures client.notices == old(client.notices) +
      CurseDialogs.EffectNotices(CurseDialogs.HandlerOf(old(actor.items[k].flags.CurseType())), amplify, wf, CurseDialogs.HunterDC(actor))
    ensures CurseDialogs.HandlerOf(old(actor.items[k].flags.CurseType())) == CurseDialogs.BindingHandler && Binding.TargetActor(wf) != null ==>
      Binding.TargetActor(wf).effects ==
        old(Binding.TargetActor(wf).effects) + [Binding.BindingEffect(amplify, newEffectId)]
    ensures CurseDialogs.HandlerOf(old(actor.items[k].flags.CurseType())) != CurseDialogs.BindingHandler && Binding.TargetActor(wf) != null ==>
      Binding.TargetActor(wf).effects == old(Binding.TargetActor(wf).effects)
    ensures client.outbox == old(client.outbox) && client.targets == old(client.targets)
  {
    var threw := CurseDialogs.ExecuteCurseEffect(actor, CurseDialogs.HandlerOf(actor.items[k].flags.CurseType()), wf,
                                                 amplify, client, markedTotal, newEffectId, true);
    if threw {
      return EffectThrew;
    }
    actor.items := MarkUsed(actor.items, k);
    outcome := Completed;
  }

  // ------------------------------------------------------------ turn reset

  /** A curse feat: type `feat` with the `bloodCurse` flag. */
  predicate IsCurseFeat(i: Item)
  {
    i.IsFeat() && i.flags.IsBloodCurse()
  }

  /** `unsetFlag(MODULE_ID, 'usedThisTurn')` on curse feats; other items are
      left alone. */
  function ClearUse(i: Item): Item
  {
    if IsCurseFeat(i) then i.(flags := i.flags.WithUsedThisTurn(false)) else i
  }

  function ClearedUses(items: seq<Item>): seq<Item>
  {
    seq(|items|, k requires 0 <= k < |items| => ClearUse(items[k]))
  }

  /** After the reset every curse feat can be used again, keeps its curse
      type, timing and minimum level, and every other item is untouched. */
  lemma ClearedUsesRestores(items: seq<Item>)
    ensures |ClearedUses(items)| == |items|
    ensures forall k :: 0 <= k < |items| && IsCurseFeat(items[k]) ==>
      IsCurseFeat(ClearedUses(items)[k]) && HasUsesRemaining(ClearedUses(items)[k]) &&
      ClearedUses(items)[k].flags.CurseType() == items[k].flags.CurseType() &&
      ClearedUses(items)[k].flags.Timing() == items[k].flags.Timing() &&
      ClearedUses(items)[k].flags.MinLevel() == items[k].flags.MinLevel() &&
      ClearedUses(items)[k].(flags := items[k].flags) == items[k]
    ensures forall k :: 0 <= k < |items| && !IsCurseFeat(items[k]) ==> ClearedUses(items)[k] == items[k]
  {
  }

  /** `resetCurseUses(combat)` for the combatant whose turn starts: nothing
      without an actor or for a non-Blood Hunter, otherwise every curse feat
      has its flag cleared, one after the other. */
  method ResetCurseUses(combatant: Actor?)
    modifies combatant
    ensures combatant != null ==> combatant.effects == old(combatant.effects) && combatant.hp == old(combatant.hp)
    ensures combatant != null ==>
      combatant.items == if Utils.HasBloodHunterClass(old(combatant.items)) then ClearedUses(old(combatant.items))
                         else old(combatant.items)
  {
    if combatant == null || !Utils.IsBloodHunter(combatant) {
      return;
    }
    ghost var items0 := combatant.items;
    var i := 0;
    while i < |combatant.items|
      invariant 0 <= i <= |combatant.items| == |items0|
      invariant forall k :: 0 <= k < i ==> combatant.items[k] == ClearUse(items0[k])
      invariant forall k :: i <= k < |items0| ==> combatant.items[k] == items0[k]
      invariant combatant.effects == old(combatant.effects) && combatant.hp == old(combatant.hp)
    {
      var curse := combatant.items[i];
      if IsCurseFeat(curse) {
        combatant.items := combatant.items[i := curse.(flags := curse.flags.WithUsedThisTurn(false))];
      }
      i := i + 1;
    }
  }
}
