// scripts/blood-curse/curses/curse-of-the-fallen-puppet.js: a creature that
// drops to 0 hit points makes one weapon attack against a target the Blood
// Hunter picks. A GM runs the attack directly; a player sends a request to
// the GM. Amplified, the puppet may move half its speed and adds the
// hemocraft die to its attack.
//
// Localized texts are parameters, dialog answers are `PuppetChoice` and
// `SocketHandler.GMChoice` inputs, and host exceptions are inputs that say
// where the host throws.

module FallenPuppet {
  import opened Common
  import opened Documents
  import Utils
  import SocketHandler

  // -------------------------------------------------------------- filters

  /** An equipped weapon without a range value: a melee weapon. */
  predicate IsPuppetWeapon(i: Item)
  {
    i.itemType == "weapon" && i.equipped && i.rangeValueNull
  }

  /** The weapons offered: the puppet's melee weapons, in item order. */
  function PuppetWeapons(items: seq<Item>): (r: seq<Item>)
    ensures |r| <= |items|
    ensures forall x :: x in r <==> x in items && IsPuppetWeapon(x)
  {
    if |items| == 0 then []
    else
      var init := items[..|items| - 1];
      var last := items[|items| - 1];
      assert items == init + [last];
      PuppetWeapons(init) + (if IsPuppetWeapon(last) then [last] else [])
  }

  /** A placeable with an actor that is not the fallen token. */
  predicate IsTargetCandidate(t: Token, fallenTokenId: Option<string>)
  {
    t.actor != null && (fallenTokenId.None? || t.id != fallenTokenId.value)
  }

  /** The targets offered, in placeable order. */
  function TargetCandidates(placeables: seq<Token>, fallenTokenId: Option<string>): (r: seq<Token>)
    ensures |r| <= |placeables|
    ensures forall k :: 0 <= k < |r| ==> r[k] in placeables && IsTargetCandidate(r[k], fallenTokenId)
    ensures forall k :: 0 <= k < |placeables| && IsTargetCandidate(placeables[k], fallenTokenId) ==> placeables[k] in r
  {
    if |placeables| == 0 then []
    else
      var init := placeables[..|placeables| - 1];
      var last := placeables[|placeables| - 1];
      assert placeables == init + [last];
      TargetCandidates(init, fallenTokenId) + (if IsTargetCandidate(last, fallenTokenId) then [last] else [])
  }

  /** The fallen token is never offered as a target. */
  lemma FallenTokenNeverTargeted(placeables: seq<Token>, fallenTokenId: string)
    ensures var r := TargetCandidates(placeables, Some(fallenTokenId));
      forall k :: 0 <= k < |r| ==> r[k].id != fallenTokenId && r[k].actor != null
  {
  }

  /** `canvas.tokens.get(id)`: the first placeable with that id. */
  function FindToken(placeables: seq<Token>, id: string): (r: Option<Token>)
    ensures r.Some? ==> r.value in placeables && r.value.id == id
    ensures r.None? ==> forall k :: 0 <= k < |placeables| ==> placeables[k].id != id
  {
    if |placeables| == 0 then None
    else if placeables[0].id == id then Some(placeables[0])
    else FindToken(placeables[1..], id)
  }

  /** The movement allowance when amplified: half the walking speed, rounded
      down, with a missing or zero speed read as 30. */
  function HalfSpeed(walk: int): (d: int)
    ensures var speed := if walk == 0 then 30 else walk;
      2 * d <= speed < 2 * d + 2
  {
    FloorDiv(if walk == 0 then 30 else walk, 2)
  }

  /** The die added to the attack: the hemocraft die when amplified, none
      otherwise. */
  function PuppetDie(amplify: bool, level: int): (r: Option<string>)
    ensures r.Some? <==> amplify
    ensures r.Some? ==> r.value == Utils.HemocraftDie(level)
  {
    if amplify then Some(Utils.HemocraftDie(level)) else None
  }

  // --------------------------------------------------------- the attack

  const PuppetBonusIcon := "icons/magic/death/skull-humanoid-crown-white.webp"

  /** The bonus effect put on an amplified puppet; `name` is the localized
      name and `id` the id the host gives it. */
  function PuppetBonusEffect(die: string, daeActive: bool, name: string, id: string): (e: Effect)
    ensures e.changes == [Change("system.bonuses.mwak.attack", Add, TextValue(die), 20),
                          Change("system.bonuses.rwak.attack", Add, TextValue(die), 20)]
    ensures e.duration == Duration(Some(1), None)
    ensures e.flags == CurseEffectFlags("fallen_puppet", None, true)
    ensures e.specialDuration == (if daeActive then ["1Attack"] else [])
  {
    Effect(id, name, PuppetBonusIcon, "",
           [Change("system.bonuses.mwak.attack", Add, TextValue(die), 20),
            Change("system.bonuses.rwak.attack", Add, TextValue(die), 20)],
           Duration(Some(1), None), CurseEffectFlags("fallen_puppet", None, true),
           if daeActive then ["1Attack"] else [], false)
  }

  /** `amplify && hemocraftDie`: the bonus applies only with both. */
  predicate BonusApplies(amplify: bool, die: Option<string>)
  {
    amplify && die.Some? && die.value != ""
  }

  /** `executeFallenPuppetAttack`. The previous targets are untargeted and the
      chosen token targeted alone; the bonus effect goes on the puppet when it
      applies; the weapon is used with `attackTargets` targeted; then the
      chosen token is untargeted and every other previous target targeted
      again. A puppet without an actor (when the bonus applies) or a failing
      weapon use throws, leaving only the chosen token targeted. */
  method ExecuteFallenPuppetAttack(client: Client, puppet: Actor?, targetTokenId: string, amplify: bool,
                                   die: Option<string>, daeActive: bool, bonusName: string,
                                   newEffectId: string, useFails: bool)
    returns (completed: bool, attackTargets: set<string>)
    modifies client, puppet
    ensures var bonus := BonusApplies(amplify, die);
      completed <==> !(bonus && puppet == null) && !useFails
    ensures completed ==> attackTargets == {targetTokenId}
    ensures completed ==> client.targets == old(client.targets) - {targetTokenId}
    ensures !completed ==> client.targets == {targetTokenId}
    ensures puppet != null && BonusApplies(amplify, die) ==>
      puppet.effects == old(puppet.effects) + [PuppetBonusEffect(die.value, daeActive, bonusName, newEffectId)]
    ensures puppet != null && !BonusApplies(amplify, die) ==> puppet.effects == old(puppet.effects)
    ensures puppet != null ==> puppet.items == old(puppet.items) && puppet.hp == old(puppet.hp)
    ensures client.outbox == old(client.outbox) && client.notices == old(client.notices)
  {
    attackTargets := {};
    var previous := client.targets;
    var rest := previous;
    while rest != {}
      modifies client
      invariant rest <= previous
      invariant client.targets == rest
      invariant client.outbox == old(client.outbox) && client.notices == old(client.notices)
      decreases rest
    {
      var t :| t in rest;
      client.targets := client.targets - {t};
      rest := rest - {t};
    }
    client.targets := {targetTokenId};
    if BonusApplies(amplify, die) {
      if puppet == null {
        return false, attackTargets;
      }
      puppet.effects := puppet.effects + [PuppetBonusEffect(die.value, daeActive, bonusName, newEffectId)];
    }
    attackTargets := client.targets;
    if useFails {
      return false, attackTargets;
    }
    client.targets := client.targets - {targetTokenId};
    rest := previous;
    while rest != {}
      modifies client
      invariant rest <= previous
      invariant client.targets == (previous - rest) - {targetTokenId}
      invariant client.outbox == old(client.outbox) && client.notices == old(client.notices)
      decreases rest
    {
      var t :| t in rest;
      if t != targetTokenId {
        client.targets := client.targets + {t};
      }
      rest := rest - {t};
    }
    completed := true;
  }

  /** The user's targets after `executeFallenPuppetAttack` ran: the previous
      targets without the chosen one when the attack completed, the chosen
      target alone when it threw. */
  function TargetsAfterAttack(previous: set<string>, targetTokenId: string, completed: bool): set<string>
  {
    if completed then previous - {targetTokenId} else {targetTokenId}
  }

  /** The puppet's effects after `executeFallenPuppetAttack` ran: the bonus
      effect is added exactly when it applies. */
  function EffectsAfterAttack(effects: seq<Effect>, amplify: bool, die: Option<string>, daeActive: bool,
                              name: string, id: string): seq<Effect>
  {
    if BonusApplies(amplify, die) then effects + [PuppetBonusEffect(die.value, daeActive, name, id)] else effects
  }

  // ------------------------------------------------------ the curse itself

  /** The answer in the weapon-and-target dialog. */
  datatype PuppetChoice = Attack(weaponId: string, targetTokenId: string) | CancelAttack

  /** The localized texts of the curse (each already with its fallback). */
  datatype PuppetTexts = PuppetTexts(noWeapons: string, canMove: int -> string, attackError: string,
                                     bonusName: string, requestSent: string)

  /** How the curse ended. */
  datatype PuppetOutcome =
    | NoCreature | NoWeapons | NoTargets | Cancelled | InvalidSelection
    | AttackedAsGM | AttackFailed | RequestSent | NoSocket

  /** Whether the dialog's promise resolves true. */
  predicate Resolved(o: PuppetOutcome)
  {
    o == AttackedAsGM || o == RequestSent || o == NoSocket
  }

  /** The request the player's client emits, when it can. */
  function PuppetRequest(client: Client, hunter: Actor, fallenTokenId: string, targetTokenId: string,
                         weaponId: string, amplify: bool, die: Option<string>): Message
    reads hunter
  {
    FallenPuppetRequest(hunter.id, fallenTokenId, targetTokenId, weaponId, amplify, die, client.userId, client.userName)
  }

  /** The weapon and target checks all pass, so the attack is attempted. */
  predicate ReachesAttack(items: seq<Item>, fallenToken: Option<Token>, placeables: seq<Token>, choice: PuppetChoice)
  {
    |PuppetWeapons(items)| > 0 &&
    |TargetCandidates(placeables, if fallenToken.Some? then Some(fallenToken.value.id) else None)| > 0 &&
    choice.Attack? && FindItem(items, choice.weaponId).Some? && FindToken(placeables, choice.targetTokenId).Some?
  }

  /** The outcomes after the checks passed. */
  predicate Attempted(o: PuppetOutcome)
  {
    o == AttackedAsGM || o == AttackFailed || o == RequestSent || o == NoSocket
  }

  /** The movement notice shown when amplified with a fallen token. */
  function MoveNotices(amplify: bool, fallenToken: Option<Token>, walk: int, texts: PuppetTexts): seq<Notice>
  {
    if amplify && fallenToken.Some? then [Notice("info", texts.canMove(HalfSpeed(walk)))] else []
  }

  /** The checks of `executeCurseOfTheFallenPuppet` before the attack, on the
      creature's items: no melee weapon or no target warns, a cancelled
      dialog stops silently, and a weapon or target that cannot be found is
      an error. `stop` is the outcome when one of them ends the curse. */
  method CheckSelection(client: Client, items: seq<Item>, fallenToken: Option<Token>, placeables: seq<Token>,
                        choice: PuppetChoice, texts: PuppetTexts)
    returns (stop: Option<PuppetOutcome>)
    modifies client
    ensures stop.None? <==> ReachesAttack(items, fallenToken, placeables, choice)
    ensures stop.Some? ==> stop.value in {NoWeapons, NoTargets, Cancelled, InvalidSelection}
    ensures stop == Some(NoWeapons) <==> |PuppetWeapons(items)| == 0
    ensures stop == Some(NoWeapons) ==> client.notices == old(client.notices) + [Notice("warn", texts.noWeapons)]
    ensures stop == Some(NoTargets) ==>
      |PuppetWeapons(items)| > 0 &&
      |TargetCandidates(placeables, if fallenToken.Some? then Some(fallenToken.value.id) else None)| == 0 &&
      client.notices == old(client.notices) + [Notice("warn", "No available targets found")]
    ensures stop == Some(Cancelled) ==> choice == CancelAttack && client.notices == old(client.notices)
    ensures stop == Some(InvalidSelection) ==>
      choice.Attack? &&
      (FindItem(items, choice.weaponId).None? || FindToken(placeables, choice.targetTokenId).None?) &&
      client.notices == old(client.notices) + [Notice("error", "Invalid weapon or target selection")]
    ensures stop.None? ==> client.notices == old(client.notices)
    ensures client.outbox == old(client.outbox) && client.targets == old(client.targets)
  {
    var weapons := PuppetWeapons(items);
    if |weapons| == 0 {
      client.notices := client.notices + [Notice("warn", texts.noWeapons)];
      return Some(NoWeapons);
    }
    var fallenTokenId := if fallenToken.Some? then Some(fallenToken.value.id) else None;
    var candidates := TargetCandidates(placeables, fallenTokenId);
    if |candidates| == 0 {
      client.notices := client.notices + [Notice("warn", "No available targets found")];
      return Some(NoTargets);
    }
    if choice.CancelAttack? {
      return Some(Cancelled);
    }
    var weapon := FindItem(items, choice.weaponId);
    var targetToken := FindToken(placeables, choice.targetTokenId);
    if weapon.None? || targetToken.None? {
      client.notices := client.notices + [Notice("error", "Invalid weapon or target selection")];
      return Some(InvalidSelection);
    }
    stop := None;
  }

  /** `executeCurseOfTheFallenPuppet(actor, fallenCreature, fallenToken, amplify)`.
      Early returns: no creature (a warning), no melee weapon (a warning), no
      target (a warning). The chosen weapon is looked up among all the
      creature's items and the target among all placeables; either missing is
      an error. When amplified with a fallen token the movement allowance is
      announced. A GM then posts the chat message and runs the attack; a player
      emits a request (the local version checks for a socket, and a missing
      fallen token throws, which is caught as an error). `chatFails` says that
      the chat message throws. */
  method ExecuteCurseOfTheFallenPuppet(client: Client, hunter: Actor, fallenCreature: Actor?,
                                       fallenToken: Option<Token>, amplify: bool, placeables: seq<Token>,
                                       choice: PuppetChoice, chatFails: bool, daeActive: bool,
                                       newEffectId: string, useFails: bool, texts: PuppetTexts)
    returns (outcome: PuppetOutcome)
    modifies client, fallenCreature
    ensures fallenCreature == null <==> outcome == NoCreature
    ensures outcome == NoCreature ==>
      client.notices == old(client.notices) + [Notice("warn", "No fallen creature to control")]
    ensures fallenCreature != null ==>
      (outcome == NoWeapons <==> |PuppetWeapons(old(fallenCreature.items))| == 0)
    ensures outcome == NoWeapons ==> client.notices == old(client.notices) + [Notice("warn", texts.noWeapons)]
    ensures outcome == NoTargets ==>
      |PuppetWeapons(old(fallenCreature.items))| > 0 &&
      |TargetCandidates(placeables, if fallenToken.Some? then Some(fallenToken.value.id) else None)| == 0 &&
      client.notices == old(client.notices) + [Notice("warn", "No available targets found")]
    ensures outcome == Cancelled ==> choice == CancelAttack && client.notices == old(client.notices)
    ensures outcome == InvalidSelection ==>
      choice.Attack? &&
      (FindItem(old(fallenCreature.items), choice.weaponId).None? || FindToken(placeables, choice.targetTokenId).None?) &&
      client.notices == old(client.notices) + [Notice("error", "Invalid weapon or target selection")]
    ensures fallenCreature != null ==>
      (Attempted(outcome) <==> ReachesAttack(old(fallenCreature.items), fallenToken, placeables, choice))
    ensures !Attempted(outcome) ==>
      client.outbox == old(client.outbox) && client.targets == old(client.targets) &&
      (fallenCreature != null ==> fallenCreature.effects == old(fallenCreature.effects))
    ensures Attempted(outcome) && client.isGM ==>
      (outcome == AttackedAsGM <==> !chatFails && !useFails) &&
      client.outbox == old(client.outbox) &&
      client.targets ==
        (if chatFails then old(client.targets)
         else TargetsAfterAttack(old(client.targets), choice.targetTokenId, !useFails)) &&
      fallenCreature.effects ==
        (if chatFails then old(fallenCreature.effects)
         else EffectsAfterAttack(old(fallenCreature.effects), amplify,
                                 PuppetDie(amplify, old(Utils.BloodHunterLevelOf(hunter.items))),
                                 daeActive, texts.bonusName, newEffectId))
    ensures Attempted(outcome) && !client.isGM ==>
      (outcome == AttackFailed <==> fallenToken.None?) &&
      (outcome == RequestSent <==> fallenToken.Some? && client.socketAvailable)
    ensures outcome == AttackedAsGM ==>
      client.notices == old(client.notices) + MoveNotices(amplify, fallenToken, fallenCreature.walk, texts)
    ensures outcome == AttackFailed ==>
      client.outbox == old(client.outbox) &&
      client.notices == old(client.notices) + MoveNotices(amplify, fallenToken, fallenCreature.walk, texts) +
                        [Notice("error", texts.attackError)]
    ensures outcome == RequestSent ==>
      !client.isGM && choice.Attack? && fallenToken.Some? &&
      client.outbox == old(client.outbox) +
        [PuppetRequest(client, hunter, fallenToken.value.id, choice.targetTokenId, choice.weaponId, amplify,
                       PuppetDie(amplify, old(Utils.BloodHunterLevelOf(hunter.items))))] &&
      client.notices == old(client.notices) + MoveNotices(amplify, fallenToken, fallenCreature.walk, texts) +
                        [Notice("info", texts.requestSent)]
    ensures outcome == NoSocket ==>
      client.outbox == old(client.outbox) &&
      client.notices == old(client.notices) + MoveNotices(amplify, fallenToken, fallenCreature.walk, texts) +
                        [Notice("error", "Socket not available, cannot send request to GM")]
    ensures !client.isGM ==> client.targets == old(client.targets)
    ensures !client.isGM && fallenCreature != null ==> fallenCreature.effects == old(fallenCreature.effects)
    ensures fallenCreature != null ==>
      fallenCreature.items == old(fallenCreature.items) && fallenCreature.hp == old(fallenCreature.hp)
  {
    if fallenCreature == null {
      client.notices := client.notices + [Notice("warn", "No fallen creature to control")];
      return NoCreature;
    }
    var die := PuppetDie(amplify, Utils.BloodHunterLevelOf(hunter.items));
    var stop := CheckSelection(client, fallenCreature.items, fallenToken, placeables, choice, texts);
    if stop.Some? {
      return stop.value;
    }
    outcome := Attack(client, hunter, fallenCreature, fallenToken, amplify, choice, die, chatFails, daeActive,
                      newEffectId, useFails, texts);
  }

  /** The end of `executeCurseOfTheFallenPuppet` once the weapon and the
      target are valid: the movement notice, then, as the GM, the chat message
      and the attack itself, or, as a player, a request to the GM over the
      socket. Every failure in the `try` block shows the attack error. */
  method Attack(client: Client, hunter: Actor, fallenCreature: Actor, fallenToken: Option<Token>, amplify: bool,
                choice: PuppetChoice, die: Option<string>, chatFails: bool, daeActive: bool, newEffectId: string,
                useFails: bool, texts: PuppetTexts)
    returns (outcome: PuppetOutcome)
    requires choice.Attack?
    modifies client, fallenCreature
    ensures Attempted(outcome)
    ensures client.isGM ==>
      (outcome == AttackedAsGM <==> !chatFails && !useFails) && outcome in {AttackedAsGM, AttackFailed} &&
      client.outbox == old(client.outbox) &&
      client.targets ==
        (if chatFails then old(client.targets)
         else TargetsAfterAttack(old(client.targets), choice.targetTokenId, !useFails)) &&
      fallenCreature.effects ==
        (if chatFails then old(fallenCreature.effects)
         else EffectsAfterAttack(old(fallenCreature.effects), amplify, die, daeActive, texts.bonusName, newEffectId))
    ensures !client.isGM ==>
      (outcome == AttackFailed <==> fallenToken.None?) &&
      (outcome == RequestSent <==> fallenToken.Some? && client.socketAvailable) &&
      client.targets == old(client.targets) && fallenCreature.effects == old(fallenCreature.effects)
    ensures outcome == AttackedAsGM ==>
      client.notices == old(client.notices) + MoveNotices(amplify, fallenToken, fallenCreature.walk, texts)
    ensures outcome == AttackFailed ==>
      client.outbox == old(client.outbox) &&
      client.notices == old(client.notices) + MoveNotices(amplify, fallenToken, fallenCreature.walk, texts) +
                        [Notice("error", texts.attackError)]
    ensures outcome == RequestSent ==>
      !client.isGM && choice.Attack? && fallenToken.Some? &&
      client.outbox == old(client.outbox) +
        [PuppetRequest(client, hunter, fallenToken.value.id, choice.targetTokenId, choice.weaponId, amplify, die)] &&
      client.notices == old(client.notices) + MoveNotices(amplify, fallenToken, fallenCreature.walk, texts) +
                        [Notice("info", texts.requestSent)]
    ensures outcome == NoSocket ==>
      client.outbox == old(client.outbox) &&
      client.notices == old(client.notices) + MoveNotices(amplify, fallenToken, fallenCreature.walk, texts) +
                        [Notice("error", "Socket not available, cannot send request to GM")]
    ensures fallenCreature.items == old(fallenCreature.items) && fallenCreature.hp == old(fallenCreature.hp)
  {
    client.notices := client.notices + MoveNotices(amplify, fallenToken, fallenCreature.walk, texts);
    if client.isGM {
      if chatFails {
        client.notices := client.notices + [Notice("error", texts.attackError)];
        return AttackFailed;
      }
      var completed, _ := ExecuteFallenPuppetAttack(client, fallenCreature, choice.targetTokenId, amplify, die,
                                                    daeActive, texts.bonusName, newEffectId, useFails);
      if !completed {
        client.notices := client.notices + [Notice("error", texts.attackError)];
        return AttackFailed;
      }
      return AttackedAsGM;
    }
    if fallenToken.None? {
      client.notices := client.notices + [Notice("error", texts.attackError)];
      return AttackFailed;
    }
    var sent := RequestFallenPuppetAttack(client, hunter.id, fallenToken.value.id, choice.targetTokenId,
                                          choice.weaponId, amplify, die, texts.requestSent);
    outcome := if sent then RequestSent else NoSocket;
  }

  /** `requestFallenPuppetAttack` of this file: with no socket it shows an
      error and emits nothing; otherwise it emits exactly one request and
      shows an info notice. */
  method RequestFallenPuppetAttack(client: Client, bloodHunterId: string, puppetTokenId: string,
                                   targetTokenId: string, weaponId: string, amplify: bool,
                                   die: Option<string>, requestSentText: string)
    returns (sent: bool)
    modifies client
    ensures sent <==> client.socketAvailable
    ensures sent ==>
      client.outbox == old(client.outbox) +
        [FallenPuppetRequest(bloodHunterId, puppetTokenId, targetTokenId, weaponId, amplify, die,
                             client.userId, client.userName)] &&
      client.notices == old(client.notices) + [Notice("info", requestSentText)]
    ensures !sent ==>
      client.outbox == old(client.outbox) &&
      client.notices == old(client.notices) + [Notice("error", "Socket not available, cannot send request to GM")]
    ensures client.targets == old(client.targets)
  {
    if !client.socketAvailable {
      client.notices := client.notices + [Notice("error", "Socket not available, cannot send request to GM")];
      return false;
    }
    client.outbox := client.outbox +
      [FallenPuppetRequest(bloodHunterId, puppetTokenId, targetTokenId, weaponId, amplify, die,
                           client.userId, client.userName)];
    client.notices := client.notices + [Notice("info", requestSentText)];
    sent := true;
  }

  // ------------------------------------------- the GM's side, this version

  /** The GM's attack completes: both canvas tokens exist, the chat message
      is posted, and the attack itself completes. */
  predicate GMAttackSucceeds(request: Message, puppetToken: Option<Token>, targetToken: Option<Token>,
                             chatFails: bool, useFails: bool)
    requires request.FallenPuppetRequest?
  {
    puppetToken.Some? && targetToken.Some? && !chatFails &&
    !(BonusApplies(request.amplify, request.hemocraftDie) && puppetToken.value.actor == null) && !useFails
  }

  /** `executeGMFallenPuppetAttack` of this file: `puppetToken` and
      `targetToken` are the canvas tokens with the requested ids. Missing
      tokens, a failing chat message or a failing attack send one `error`
      notification; success sends one `success` notification. */
  method ExecuteGMFallenPuppetAttack(client: Client, request: Message, puppetToken: Option<Token>,
                                     targetToken: Option<Token>, chatFails: bool, daeActive: bool,
                                     newEffectId: string, useFails: bool, texts: SocketHandler.RequestTexts,
                                     bonusName: string)
    returns (succeeded: bool)
    requires request.FallenPuppetRequest?
    modifies client, if puppetToken.Some? then puppetToken.value.actor else null
    ensures succeeded <==> GMAttackSucceeds(request, puppetToken, targetToken, chatFails, useFails)
    ensures client.targets ==
      (if puppetToken.None? || targetToken.None? || chatFails then old(client.targets)
       else TargetsAfterAttack(old(client.targets), targetToken.value.id, succeeded))
    ensures puppetToken.Some? && puppetToken.value.actor != null ==>
      var puppet := puppetToken.value.actor;
      puppet.effects ==
        (if targetToken.None? || chatFails then old(puppet.effects)
         else EffectsAfterAttack(old(puppet.effects), request.amplify, request.hemocraftDie, daeActive, bonusName,
                                 newEffectId)) &&
      puppet.items == old(puppet.items) && puppet.hp == old(puppet.hp)
    ensures client.outbox == old(client.outbox) +
      (if !client.socketAvailable then []
       else if succeeded then [SocketHandler.NotificationFor(request.playerId, texts.approved, Some("success"))]
       else [SocketHandler.NotificationFor(request.playerId, texts.attackError, Some("error"))])
    ensures client.notices == old(client.notices)
  {
    if puppetToken.None? || targetToken.None? || chatFails {
      SocketHandler.NotifyPlayer(client, request.playerId, texts.attackError, Some("error"));
      return false;
    }
    var completed, _ := ExecuteFallenPuppetAttack(client, puppetToken.value.actor, targetToken.value.id,
                                                  request.amplify, request.hemocraftDie, daeActive, bonusName,
                                                  newEffectId, useFails);
    if !completed {
      SocketHandler.NotifyPlayer(client, request.playerId, texts.attackError, Some("error"));
      return false;
    }
    SocketHandler.NotifyPlayer(client, request.playerId, texts.approved, Some("success"));
    succeeded := true;
  }

  /** The GM's checks before the approval dialog pass: both token documents
      and the hunter exist, the puppet document has an actor, and that actor
      has the requested weapon. */
  predicate RequestChecksPass(request: Message, puppetDoc: Option<Token>, targetDoc: Option<Token>, hunterFound: bool)
    requires request.FallenPuppetRequest?
    reads if puppetDoc.Some? && puppetDoc.value.actor != null then {puppetDoc.value.actor} else {}
  {
    puppetDoc.Some? && targetDoc.Some? && hunterFound && puppetDoc.value.actor != null &&
    FindItem(puppetDoc.value.actor.items, request.weaponId).Some?
  }

  /** `handleFallenPuppetRequest` of this file. `puppetDoc`/`targetDoc` are the
      scene's token documents and `puppetToken`/`targetToken` the canvas tokens
      with the requested ids. A missing document or hunter, or a missing
      weapon, sends one `error` notification and opens no dialog; a puppet
      document without an actor throws before any notification. */
  method HandleFallenPuppetRequest(client: Client, request: Message, puppetDoc: Option<Token>,
                                   targetDoc: Option<Token>, hunterFound: bool, puppetToken: Option<Token>,
                                   targetToken: Option<Token>, choice: SocketHandler.GMChoice,
                                   chatFails: bool, daeActive: bool, newEffectId: string, useFails: bool,
                                   texts: SocketHandler.RequestTexts, bonusName: string)
    returns (outcome: SocketHandler.RequestOutcome)
    requires request.FallenPuppetRequest?
    modifies client, if puppetToken.Some? then puppetToken.value.actor else null
    ensures puppetDoc.None? || targetDoc.None? || !hunterFound <==> outcome == SocketHandler.InvalidRequest
    ensures outcome == SocketHandler.InvalidRequest ==>
      client.outbox == old(client.outbox) +
        (if client.socketAvailable
         then [SocketHandler.NotificationFor(request.playerId, texts.invalidRequest, Some("error"))] else [])
    ensures outcome == SocketHandler.PuppetWithoutActor <==>
      puppetDoc.Some? && targetDoc.Some? && hunterFound && puppetDoc.value.actor == null
    ensures outcome == SocketHandler.PuppetWithoutActor ==> client.outbox == old(client.outbox)
    ensures outcome == SocketHandler.WeaponNotFound <==>
      puppetDoc.Some? && targetDoc.Some? && hunterFound && puppetDoc.value.actor != null &&
      FindItem(old(puppetDoc.value.actor.items), request.weaponId).None?
    ensures outcome == SocketHandler.WeaponNotFound ==>
      client.outbox == old(client.outbox) +
        (if client.socketAvailable
         then [SocketHandler.NotificationFor(request.playerId, texts.weaponNotFound, Some("error"))] else [])
    ensures outcome == SocketHandler.Denied <==>
      old(RequestChecksPass(request, puppetDoc, targetDoc, hunterFound)) && choice == SocketHandler.Deny
    ensures outcome == SocketHandler.Denied ==>
      client.outbox == old(client.outbox) +
        (if client.socketAvailable
         then [SocketHandler.NotificationFor(request.playerId, texts.denied, Some("warning"))] else [])
    ensures outcome == SocketHandler.Approved <==>
      old(RequestChecksPass(request, puppetDoc, targetDoc, hunterFound)) && choice == SocketHandler.Approve &&
      GMAttackSucceeds(request, puppetToken, targetToken, chatFails, useFails)
    ensures outcome == SocketHandler.AttackFailed <==>
      old(RequestChecksPass(request, puppetDoc, targetDoc, hunterFound)) && choice == SocketHandler.Approve &&
      !GMAttackSucceeds(request, puppetToken, targetToken, chatFails, useFails)
    ensures outcome == SocketHandler.Approved || outcome == SocketHandler.AttackFailed ==>
      client.outbox == old(client.outbox) +
        (if !client.socketAvailable then []
         else if outcome == SocketHandler.Approved
         then [SocketHandler.NotificationFor(request.playerId, texts.approved, Some("success"))]
         else [SocketHandler.NotificationFor(request.playerId, texts.attackError, Some("error"))]) &&
      client.targets ==
        (if puppetToken.None? || targetToken.None? || chatFails then old(client.targets)
         else TargetsAfterAttack(old(client.targets), targetToken.value.id, outcome == SocketHandler.Approved))
    ensures outcome != SocketHandler.Approved && outcome != SocketHandler.AttackFailed ==>
      client.targets == old(client.targets) &&
      (puppetToken.Some? && puppetToken.value.actor != null ==>
        puppetToken.value.actor.effects == old(puppetToken.value.actor.effects))
    ensures puppetToken.Some? && puppetToken.value.actor != null ==>
      var puppet := puppetToken.value.actor;
      (outcome == SocketHandler.Approved || outcome == SocketHandler.AttackFailed) && targetToken.Some? &&
      !chatFails ==>
        puppet.effects == EffectsAfterAttack(old(puppet.effects), request.amplify, request.hemocraftDie,
                                             daeActive, bonusName, newEffectId)
    ensures puppetToken.Some? && puppetToken.value.actor != null ==>
      var puppet := puppetToken.value.actor;
      puppet.items == old(puppet.items) && puppet.hp == old(puppet.hp)
    ensures client.notices == old(client.notices)
  {
    if puppetDoc.None? || targetDoc.None? || !hunterFound {
      SocketHandler.NotifyPlayer(client, request.playerId, texts.invalidRequest, Some("error"));
      return SocketHandler.InvalidRequest;
    }
    var puppetActor := puppetDoc.value.actor;
    if puppetActor == null {
      return SocketHandler.PuppetWithoutActor;
    }
    if FindItem(puppetActor.items, request.weaponId).None? {
      SocketHandler.NotifyPlayer(client, request.playerId, texts.weaponNotFound, Some("error"));
      return SocketHandler.WeaponNotFound;
    }
    if choice == SocketHandler.Deny {
      SocketHandler.NotifyPlayer(client, request.playerId, texts.denied, Some("warning"));
      return SocketHandler.Denied;
    }
    var ok := ExecuteGMFallenPuppetAttack(client, request, puppetToken, targetToken, chatFails, daeActive,
                                          newEffectId, useFails, texts, bonusName);
    outcome := if ok then SocketHandler.Approved else SocketHandler.AttackFailed;
  }
}
