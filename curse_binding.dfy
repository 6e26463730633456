// scripts/blood-curse/curses/curse-of-binding.js: the Binding curse stops the
// first target's movement for a turn; when amplified it also announces the
// Strength save DC against being restrained.

module Binding {
  import opened Common
  import opened Documents
  import Utils

  /** The save DC: 8 + proficiency + the better of the Intelligence and
      Wisdom modifiers. */
  function BindingDC(proficiency: int, intScore: int, wisScore: int): (dc: int)
    ensures dc >= 8 + proficiency + Utils.Modifier(intScore)
    ensures dc >= 8 + proficiency + Utils.Modifier(wisScore)
    ensures dc == 8 + proficiency + Utils.Modifier(intScore) || dc == 8 + proficiency + Utils.Modifier(wisScore)
  {
    var i := Utils.Modifier(intScore);
    var w := Utils.Modifier(wisScore);
    8 + proficiency + (if i >= w then i else w)
  }

  /** A better proficiency or score never lowers the DC. */
  lemma BindingDCMonotone(p: int, i: int, w: int, p2: int, i2: int, w2: int)
    requires p <= p2 && i <= i2 && w <= w2
    ensures BindingDC(p, i, w) <= BindingDC(p2, i2, w2)
  {
    Utils.ModifierMonotone(i, i2);
    Utils.ModifierMonotone(w, w2);
  }

  const BindingIcon := "icons/magic/blood/strike-body-explode-red.webp"

  /** The effect put on the target; `id` is the id the host gives it. */
  function BindingEffect(amplify: bool, id: string): (e: Effect)
    ensures e.changes == [Change("system.attributes.movement.all", Custom, TextValue("0"), 99)]
    ensures e.duration == Duration(Some(1), None)
    ensures e.flags == CurseEffectFlags("binding", Some(amplify), false)
  {
    Effect(id, "Blood Curse of Binding", BindingIcon, "",
           [Change("system.attributes.movement.all", Custom, TextValue("0"), 99)],
           Duration(Some(1), None), CurseEffectFlags("binding", Some(amplify), false), [], false)
  }

  /** The amplified announcement. */
  function DCNotice(dc: int): Notice
  {
    Notice("info", "Target must make DC " + IntDecimal(dc) + " Strength save or be restrained")
  }

  /** The actor of the workflow's first target, when there is one. */
  function TargetActor(wf: Workflow): Actor?
  {
    if wf.firstTarget.Some? then wf.firstTarget.value.actor else null
  }

  /** `executeCurseOfBinding(actor, workflow, amplify)`. With no first target
      nothing happens. Otherwise the DC is announced when amplified, and
      exactly one effect is added to the target's actor; a target token with
      no actor makes the effect creation throw (`applied` is false). */
  method ExecuteCurseOfBinding(actor: Actor, wf: Workflow, amplify: bool, client: Client, newEffectId: string)
    returns (applied: bool)
    modifies client, TargetActor(wf)
    ensures wf.firstTarget.None? ==> !applied && client.notices == old(client.notices)
    ensures wf.firstTarget.Some? ==>
      (client.notices == old(client.notices) +
         (if amplify then [DCNotice(BindingDC(actor.proficiency, actor.intScore, actor.wisScore))] else []))
    ensures applied <==> TargetActor(wf) != null
    ensures applied ==> TargetActor(wf).effects == old(TargetActor(wf).effects) + [BindingEffect(amplify, newEffectId)]
    ensures TargetActor(wf) != null ==>
      TargetActor(wf).items == old(TargetActor(wf).items) && TargetActor(wf).hp == old(TargetActor(wf).hp)
    ensures client.outbox == old(client.outbox) && client.targets == old(client.targets)
  {
    if wf.firstTarget.None? {
      return false;
    }
    var target := wf.firstTarget.value;
    if amplify {
      var dc := BindingDC(actor.proficiency, actor.intScore, actor.wisScore);
      client.notices := client.notices + [DCNotice(dc)];
    }
    if target.actor == null {
      return false;
    }
    target.actor.effects := target.actor.effects + [BindingEffect(amplify, newEffectId)];
    applied := true;
  }
}
