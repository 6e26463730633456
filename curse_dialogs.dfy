// scripts/blood-curse/curse-dialogs.js: running a Blood Curse. Amplifying
// costs hit points equal to a hemocraft-die roll; the HP check comes first,
// then the HP payment, then (for the Fallen Puppet prompt) the Blood Maledict
// charge, and only then the curse's effect.
//
// Dice totals, dialog answers and localized texts are inputs.

module CurseDialogs {
  import opened Common
  import opened Documents
  import Utils
  import MaledictResources
  import Marked
  import Binding
  import FallenPuppet

  /** The handler `executeCurseEffect` runs for a curse type; any other type
      only logs a warning. */
  datatype Handler = MarkedHandler | BindingHandler | AnxiousHandler | FallenPuppetHandler | NoHandler

  function HandlerOf(curseType: string): Handler
  {
    if curseType == "marked" then MarkedHandler
    else if curseType == "binding" then BindingHandler
    else if curseType == "anxious" then AnxiousHandler
    else if curseType == "fallen_puppet" then FallenPuppetHandler
    else NoHandler
  }

  /** How `executeCurse` ended. */
  datatype CurseOutcome =
    | InsufficientHP   // the early return of the HP check
    | Completed        // the effect ran and the curse was marked used
    | EffectThrew      // the handler threw: the curse is not marked used

  /** The anxious curse's notices. */
  function AnxiousNotices(amplify: bool): seq<Notice>
  {
    [Notice("info", "Target has disadvantage on the ability check")] +
    (if amplify then [Notice("info", "Target also has disadvantage on next saving throw")] else [])
  }

  /** The notices of the curse's own effect: the DC of an amplified Binding
      with a target, the two Anxious notices, nothing for the others. `dc` is
      the hunter's Binding DC. */
  function EffectNotices(handler: Handler, amplify: bool, wf: Workflow, dc: int): seq<Notice>
  {
    match handler
    case BindingHandler => if wf.firstTarget.Some? && amplify then [Binding.DCNotice(dc)] else []
    case AnxiousHandler => AnxiousNotices(amplify)
    case _ => []
  }

  /** The hunter's Binding DC. */
  function HunterDC(actor: Actor): int
    reads actor
  {
    Binding.BindingDC(actor.proficiency, actor.intScore, actor.wisScore)
  }

  /** Whether the handler for this curse type throws: Binding throws for a
      target token without an actor; the Fallen Puppet handler is called with
      the wrong arguments here, so whether it completes is an input. */
  predicate HandlerThrows(handler: Handler, wf: Workflow, fallenPuppetCompletes: bool)
  {
    (handler == BindingHandler && wf.firstTarget.Some? && wf.firstTarget.value.actor == null) ||
    (handler == FallenPuppetHandler && !fallenPuppetCompletes)
  }

  /** The actor's items with the curse at `k` marked used this turn. */
  function MarkUsed(items: seq<Item>, k: nat): (r: seq<Item>)
    requires k < |items|
    ensures |r| == |items| && r[k].flags.UsedThisTurn()
    ensures r[k].uses == items[k].uses && r[k].id == items[k].id
    ensures forall j :: 0 <= j < |items| && j != k ==> r[j] == items[j]
  {
    items[k := items[k].(flags := items[k].flags.WithUsedThisTurn(true))]
  }

  /** The HP check and payment of an amplified curse: with too little HP
      only the `insufficient` notice shows; otherwise the cost comes off the
      hit points and the `paid` notice shows. Without amplification nothing
      happens. */
  method PayAmplification(actor: Actor, client: Client, amplify: bool, cost: int, insufficient: Notice,
                          paid: Notice)
    returns (ok: bool)
    modifies actor, client
    ensures ok <==> !amplify || old(actor.hp) > cost
    ensures actor.hp == old(actor.hp) - (if ok && amplify then cost else 0)
    ensures client.notices == old(client.notices) + (if !ok then [insufficient] else if amplify then [paid] else [])
    ensures actor.items == old(actor.items) && actor.effects == old(actor.effects)
    ensures client.outbox == old(client.outbox) && client.targets == old(client.targets)
  {
    if amplify {
      var currentHP := actor.hp;
      if currentHP <= cost {
        client.notices := client.notices + [insufficient];
        return false;
      }
      actor.hp := currentHP - cost;
      client.notices := client.notices + [paid];
    }
    ok := true;
  }

  /** `executeCurse(actor, curse, workflow, amplify)` for the curse at
      position `k` of the actor's items. `cost` is the amplification roll,
      `markedTotal` the Marked bonus roll. */
  method ExecuteCurse(actor: Actor, k: nat, wf: Workflow, amplify: bool, client: Client, cost: int,
                      markedTotal: int, newEffectId: string, fallenPuppetCompletes: bool)
    returns (outcome: CurseOutcome)
    requires k < |actor.items|
    requires Utils.IsHemocraftRoll(cost, 1, Utils.BloodHunterLevelOf(actor.items))
    requires Utils.IsHemocraftRoll(markedTotal, Marked.MarkedDice(amplify), Utils.BloodHunterLevelOf(actor.items))
    modifies actor, wf, client, Binding.TargetActor(wf)
    ensures outcome == InsufficientHP <==> amplify && old(actor.hp) <= cost
    ensures outcome == InsufficientHP ==>
      actor.hp == old(actor.hp) && actor.items == old(actor.items) && actor.effects == old(actor.effects) &&
      wf.damageTotal == old(wf.damageTotal) &&
      client.notices == old(client.notices) + [Notice("warn", "Insufficient HP to amplify Blood Curse")]
    ensures outcome != InsufficientHP ==> actor.hp == old(actor.hp) - (if amplify then cost else 0)
    ensures outcome != InsufficientHP ==> actor.hp >= 1 || !amplify
    ensures outcome != InsufficientHP && amplify ==>
      old(actor.hp) - Utils.HemocraftFaces(old(Utils.BloodHunterLevelOf(actor.items))) <= actor.hp < old(actor.hp)
    ensures outcome != InsufficientHP ==>
      client.notices == old(client.notices) +
        (if amplify then [Notice("info", "Paid " + IntDecimal(cost) + " HP to amplify Blood Curse")] else []) +
        EffectNotices(HandlerOf(old(actor.items[k].flags.CurseType())), amplify, wf, HunterDC(actor))
    ensures outcome != InsufficientHP && HandlerOf(old(actor.items[k].flags.CurseType())) == BindingHandler &&
            Binding.TargetActor(wf) != null ==>
      Binding.TargetActor(wf).effects ==
        old(Binding.TargetActor(wf).effects) + [Binding.BindingEffect(amplify, newEffectId)]
    ensures outcome == InsufficientHP || HandlerOf(old(actor.items[k].flags.CurseType())) != BindingHandler ==>
      Binding.TargetActor(wf) != null ==> Binding.TargetActor(wf).effects == old(Binding.TargetActor(wf).effects)
    ensures outcome == EffectThrew <==>
      outcome != InsufficientHP && HandlerThrows(HandlerOf(old(actor.items[k].flags.CurseType())), wf, fallenPuppetCompletes)
    ensures outcome == Completed ==> actor.items == MarkUsed(old(actor.items), k)
    ensures outcome != Completed ==> actor.items == old(actor.items)
    ensures outcome != InsufficientHP && HandlerOf(old(actor.items[k].flags.CurseType())) == MarkedHandler ==>
      wf.damageTotal == old(wf.damageTotal) + (if wf.hasDamageRoll then markedTotal else 0)
    ensures HandlerOf(old(actor.items[k].flags.CurseType())) != MarkedHandler ==> wf.damageTotal == old(wf.damageTotal)
    ensures HandlerOf(old(actor.items[k].flags.CurseType())) == NoHandler && outcome != InsufficientHP ==>
      outcome == Completed && client.notices == old(client.notices) +
        (if amplify then [Notice("info", "Paid " + IntDecimal(cost) + " HP to amplify Blood Curse")] else [])
    ensures client.outbox == old(client.outbox) && client.targets == old(client.targets)
  {
    var paid := PayAmplification(actor, client, amplify, cost,
                                 Notice("warn", "Insufficient HP to amplify Blood Curse"),
                                 Notice("info", "Paid " + IntDecimal(cost) + " HP to amplify Blood Curse"));
    if !paid {
      return InsufficientHP;
    }
    outcome := ApplyCurse(actor, k, wf, amplify, client, markedTotal, newEffectId, fallenPuppetCompletes);
  }

  /** `executeCurseEffect(actor, curse, workflow, amplify)` for a curse with
      this handler: Marked adds its roll to the damage, Binding announces the
      DC and restrains the target, Anxious shows its notices, and a type
      without a handler does nothing. `threw` says that the handler threw. */
  method ExecuteCurseEffect(actor: Actor, handler: Handler, wf: Workflow, amplify: bool, client: Client,
                            markedTotal: int, newEffectId: string, fallenPuppetCompletes: bool)
    returns (threw: bool)
    requires Utils.IsHemocraftRoll(markedTotal, Marked.MarkedDice(amplify), Utils.BloodHunterLevelOf(actor.items))
    modifies wf, client, Binding.TargetActor(wf)
    ensures threw <==> HandlerThrows(handler, wf, fallenPuppetCompletes)
    ensures actor.items == old(actor.items) && actor.hp == old(actor.hp)
    ensures wf.damageTotal ==
      old(wf.damageTotal) + (if handler == MarkedHandler && wf.hasDamageRoll then markedTotal else 0)
    ensures client.notices == old(client.notices) + EffectNotices(handler, amplify, wf, HunterDC(actor))
    ensures Binding.TargetActor(wf) != null ==>
      Binding.TargetActor(wf).effects == old(Binding.TargetActor(wf).effects) +
        (if handler == BindingHandler then [Binding.BindingEffect(amplify, newEffectId)] else [])
    ensures client.outbox == old(client.outbox) && client.targets == old(client.targets)
  {
    threw := false;
    match handler {
      case MarkedHandler =>
        Marked.ExecuteCurseOfTheMarked(actor, wf, amplify, markedTotal);
      case BindingHandler =>
        var applied := Binding.ExecuteCurseOfBinding(actor, wf, amplify, client, newEffectId);
        threw := !applied && wf.firstTarget.Some?;
      case AnxiousHandler =>
        client.notices := client.notices + AnxiousNotices(amplify);
      case FallenPuppetHandler =>
        threw := !fallenPuppetCompletes;
      case NoHandler =>
    }
  }

  /** The handler dispatch of `executeCurse`, after any payment, then the
      `usedThisTurn` mark. */
  method ApplyCurse(actor: Actor, k: nat, wf: Workflow, amplify: bool, client: Client, markedTotal: int,
                    newEffectId: string, fallenPuppetCompletes: bool)
    returns (outcome: CurseOutcome)
    requires k < |actor.items|
    requires Utils.IsHemocraftRoll(markedTotal, Marked.MarkedDice(amplify), Utils.BloodHunterLevelOf(actor.items))
    modifies actor, wf, client, Binding.TargetActor(wf)
    ensures actor.hp == old(actor.hp) && outcome != InsufficientHP
    ensures outcome == EffectThrew <==> HandlerThrows(HandlerOf(old(actor.items[k].flags.CurseType())), wf, fallenPuppetCompletes)
    ensures outcome == Completed ==> actor.items == MarkUsed(old(actor.items), k)
    ensures outcome != Completed ==> actor.items == old(actor.items)
    ensures HandlerOf(old(actor.items[k].flags.CurseType())) == MarkedHandler ==>
      wf.damageTotal == old(wf.damageTotal) + (if wf.hasDamageRoll then markedTotal else 0)
    ensures HandlerOf(old(actor.items[k].flags.CurseType())) != MarkedHandler ==> wf.damageTotal == old(wf.damageTotal)
    ensures HandlerOf(old(actor.items[k].flags.CurseType())) == NoHandler ==>
      outcome == Completed && client.notices == old(client.notices)
    ensures client.notices ==
      old(client.notices) + EffectNotices(HandlerOf(old(actor.items[k].flags.CurseType())), amplify, wf, HunterDC(actor))
    ensures HandlerOf(old(actor.items[k].flags.CurseType())) == BindingHandler && Binding.TargetActor(wf) != null ==>
      Binding.TargetActor(wf).effects ==
        old(Binding.TargetActor(wf).effects) + [Binding.BindingEffect(amplify, newEffectId)]
    ensures HandlerOf(old(actor.items[k].flags.CurseType())) != BindingHandler && Binding.TargetActor(wf) != null ==>
      Binding.TargetActor(wf).effects == old(Binding.TargetActor(wf).effects)
    ensures client.outbox == old(client.outbox) && client.targets == old(client.targets)
  {
    var threw := ExecuteCurseEffect(actor, HandlerOf(actor.items[k].flags.CurseType()), wf, amplify, client,
                                    markedTotal, newEffectId, fallenPuppetCompletes);
    if threw {
      return EffectThrew;
    }
    actor.items := MarkUsed(actor.items, k);
    outcome := Completed;
  }

  // ------------------------------------------------ the Fallen Puppet prompt

  /** A `bloodCurse` item of type `fallen_puppet`. */
  predicate IsFallenPuppetCurse(i: Item)
  {
    i.flags.IsBloodCurse() && i.flags.CurseType() == "fallen_puppet"
  }

  function FindFallenPuppetCurse(items: seq<Item>): (r: Option<nat>)
    ensures r.Some? ==> r.value < |items| && IsFallenPuppetCurse(items[r.value])
    ensures r.None? ==> forall j :: 0 <= j < |items| ==> !IsFallenPuppetCurse(items[j])
  {
    if |items| == 0 then None
    else if IsFallenPuppetCurse(items[0]) then Some(0)
    else match FindFallenPuppetCurse(items[1..])
      case None => None
      case Some(j) => Some(j + 1)
  }

  /** The answer in the prompt; closing it, or the ten-second auto-close,
      is `SkipPuppet`. */
  datatype PromptChoice = UsePuppet(amplify: bool) | SkipPuppet

  /** How `promptFallenPuppet` ended: no dialog, or what its promise resolves to. */
  datatype PromptOutcome = NotOffered | Skipped | NotEnoughHP | Used

  /** `promptFallenPuppet(bloodHunter, fallenCreature, fallenToken)`. No dialog
      without the curse or without a charge. Skipping changes nothing. Using
      it: when amplified, the HP check (a failure spends nothing), then the HP
      payment; then one Blood Maledict charge; then the curse, whose own
      outcome does not give the charge back. */
  method PromptFallenPuppet(client: Client, hunter: Actor, fallenCreature: Actor?, fallenToken: Option<Token>,
                            choice: PromptChoice, cost: int, insufficientText: string, paidText: string,
                            placeables: seq<Token>, puppetChoice: FallenPuppet.PuppetChoice, chatFails: bool,
                            daeActive: bool, newEffectId: string, useFails: bool, texts: FallenPuppet.PuppetTexts)
    returns (outcome: PromptOutcome, puppetOutcome: Option<FallenPuppet.PuppetOutcome>)
    requires Utils.IsHemocraftRoll(cost, 1, Utils.BloodHunterLevelOf(hunter.items))
    modifies client, hunter, fallenCreature
    ensures outcome == NotOffered <==>
      FindFallenPuppetCurse(old(hunter.items)).None? || !MaledictResources.HasUsesRemaining(old(hunter.items))
    ensures outcome == Skipped <==> outcome != NotOffered && choice == SkipPuppet
    ensures outcome == NotEnoughHP <==>
      outcome !in {NotOffered, Skipped} && choice.amplify && old(hunter.hp) <= cost
    ensures outcome in {NotOffered, Skipped, NotEnoughHP} ==>
      hunter.hp == old(hunter.hp) && hunter.items == old(hunter.items) && puppetOutcome.None? &&
      client.outbox == old(client.outbox) && client.targets == old(client.targets)
    ensures outcome in {NotOffered, Skipped} ==> client.notices == old(client.notices)
    ensures outcome == NotEnoughHP ==> client.notices == old(client.notices) + [Notice("warn", insufficientText)]
    ensures outcome == Used ==>
      hunter.hp == old(hunter.hp) - (if choice.amplify then cost else 0) &&
      hunter.items == MaledictResources.ConsumeItems(old(hunter.items)) && puppetOutcome.Some?
  {
    puppetOutcome := None;
    var curse := FindFallenPuppetCurse(hunter.items);
    if curse.None? {
      return NotOffered, None;
    }
    if !MaledictResources.HasUsesRemaining(hunter.items) {
      return NotOffered, None;
    }
    if choice.SkipPuppet? {
      return Skipped, None;
    }
    var amplify := choice.amplify;
    var paid := PayAmplification(hunter, client, amplify, cost, Notice("warn", insufficientText),
                                 Notice("info", paidText));
    if !paid {
      return NotEnoughHP, None;
    }
    var o := ConsumeAndExecute(client, hunter, fallenCreature, fallenToken, amplify, placeables, puppetChoice,
                               chatFails, daeActive, newEffectId, useFails, texts);
    return Used, Some(o);
  }

  /** The end of a used prompt: one Blood Maledict charge, then the curse. */
  method ConsumeAndExecute(client: Client, hunter: Actor, fallenCreature: Actor?, fallenToken: Option<Token>,
                           amplify: bool, placeables: seq<Token>, puppetChoice: FallenPuppet.PuppetChoice,
                           chatFails: bool, daeActive: bool, newEffectId: string, useFails: bool,
                           texts: FallenPuppet.PuppetTexts)
    returns (o: FallenPuppet.PuppetOutcome)
    modifies client, hunter, fallenCreature
    ensures hunter.hp == old(hunter.hp) && hunter.items == MaledictResources.ConsumeItems(old(hunter.items))
  {
    var _ := MaledictResources.ConsumeUse(hunter);
    ghost var items1 := hunter.items;
    ghost var hp1 := hunter.hp;
    o := FallenPuppet.ExecuteCurseOfTheFallenPuppet(client, hunter, fallenCreature, fallenToken, amplify,
                                                    placeables, puppetChoice, chatFails, daeActive,
                                                    newEffectId, useFails, texts);
    assert fallenCreature == hunter ==> hunter.items == items1 && hunter.hp == hp1;
  }
}
