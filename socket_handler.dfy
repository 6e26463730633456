// scripts/blood-curse/socket-handler.js: the module's socket channel. A
// player asks the GM to run a Fallen Puppet attack; the GM approves or
// denies it and the answer travels back as a notification addressed to the
// player.
//
// Emitting on the socket appends to the client's outbox; showing a
// notification appends to its notices. Localized texts are parameters.

module SocketHandler {
  import opened Common
  import opened Documents

  // --------------------------------------------------------------- routing

  /** What a client does with a message it receives. */
  datatype Route =
    | HandleRequest                            // run the GM request handler
    | ShowNotice(level: string, text: string)  // `ui.notifications[level](text)`
    | Ignore                                   // addressed to someone else
    | WarnUnknown                              // only logs a warning

  /** The `switch` of `initSocket` for one received message. */
  function RouteMessage(msg: Message, isGM: bool, localUserId: string): Route
  {
    match msg
    case FallenPuppetRequest(_, _, _, _, _, _, _, _) =>
      if isGM then HandleRequest else Ignore
    case FallenPuppetResponse(userId, approved, message) =>
      if userId == localUserId then ShowNotice(if approved then "success" else "warning", message) else Ignore
    case NotificationMessage(userId, message, notificationType) =>
      if userId == localUserId then ShowNotice(OrDefault(notificationType, "info"), message) else Ignore
    case OtherAction(_) => WarnUnknown
  }

  /** Only a GM acts on a request; every other client ignores it. */
  lemma RequestsOnlyForGM(msg: Message, isGM: bool, localUserId: string)
    requires msg.FallenPuppetRequest?
    ensures RouteMessage(msg, isGM, localUserId) == HandleRequest <==> isGM
    ensures !isGM ==> RouteMessage(msg, isGM, localUserId) == Ignore
  {
  }

  /** Responses and notifications are shown only by the user they address,
      whether or not that user is a GM. */
  lemma AddressedMessages(msg: Message, isGM: bool, localUserId: string)
    requires msg.FallenPuppetResponse? || msg.NotificationMessage?
    ensures RouteMessage(msg, isGM, localUserId).ShowNotice? <==> msg.userId == localUserId
    ensures RouteMessage(msg, isGM, localUserId) != HandleRequest
    ensures msg.userId == localUserId ==> RouteMessage(msg, isGM, localUserId).text == msg.message
  {
  }

  /** A notification without a type is shown as `info`; a typed one keeps
      its type. */
  lemma NotificationLevel(userId: string, message: string, notificationType: string, isGM: bool)
    ensures var r := RouteMessage(NotificationMessage(userId, message, notificationType), isGM, userId);
      r.ShowNotice? && (notificationType == "" ==> r.level == "info") &&
      (notificationType != "" ==> r.level == notificationType)
  {
  }

  /** Any other action changes nothing on any client. */
  lemma UnknownActionsOnlyWarn(action: string, isGM: bool, localUserId: string)
    ensures RouteMessage(OtherAction(action), isGM, localUserId) == WarnUnknown
  {
  }

  /** Acting on a routed notice. */
  method Deliver(client: Client, msg: Message)
    modifies client
    ensures var r := RouteMessage(msg, client.isGM, client.userId);
      client.notices == old(client.notices) + (if r.ShowNotice? then [Notice(r.level, r.text)] else [])
    ensures client.outbox == old(client.outbox) && client.targets == old(client.targets)
  {
    var r := RouteMessage(msg, client.isGM, client.userId);
    if r.ShowNotice? {
      client.notices := client.notices + [Notice(r.level, r.text)];
    }
  }

  // --------------------------------------------------------- notifications

  /** The message `notifyPlayer(userId, message, type)` emits; a missing type
      is `info`. */
  function NotificationFor(userId: string, message: string, notificationType: Option<string>): (m: Message)
    ensures m.NotificationMessage? && m.userId == userId && m.message == message
    ensures notificationType.None? ==> m.notificationType == "info"
  {
    NotificationMessage(userId, message, if notificationType.None? then "info" else notificationType.value)
  }

  /** The notification reaches exactly its addressee, with its type. */
  lemma NotificationReachesAddressee(userId: string, message: string, notificationType: string,
                                     isGM: bool, localUserId: string)
    requires notificationType != ""
    ensures var r := RouteMessage(NotificationFor(userId, message, Some(notificationType)), isGM, localUserId);
      (r.ShowNotice? <==> localUserId == userId) &&
      (r.ShowNotice? ==> r == ShowNotice(notificationType, message))
  {
  }

  /** `notifyPlayer`: one emitted message. Without a socket the emit throws
      and nothing is sent. */
  method NotifyPlayer(client: Client, userId: string, message: string, notificationType: Option<string>)
    modifies client
    ensures client.outbox == old(client.outbox) +
      (if client.socketAvailable then [NotificationFor(userId, message, notificationType)] else [])
    ensures client.notices == old(client.notices) && client.targets == old(client.targets)
  {
    if client.socketAvailable {
      client.outbox := client.outbox + [NotificationFor(userId, message, notificationType)];
    }
  }

  // ------------------------------------------------------------- requests

  /** The request `requestFallenPuppetAttack` emits for the local user. */
  function RequestFor(client: Client, bloodHunterId: string, puppetTokenId: string, targetTokenId: string,
                      weaponId: string, amplify: bool, hemocraftDie: Option<string>): (m: Message)
    ensures m.FallenPuppetRequest? && m.playerId == client.userId && m.playerName == client.userName
    ensures m.bloodHunterId == bloodHunterId && m.puppetTokenId == puppetTokenId &&
            m.targetTokenId == targetTokenId && m.weaponId == weaponId &&
            m.amplify == amplify && m.hemocraftDie == hemocraftDie
  {
    FallenPuppetRequest(bloodHunterId, puppetTokenId, targetTokenId, weaponId, amplify, hemocraftDie,
                        client.userId, client.userName)
  }

  /** `requestFallenPuppetAttack` of this file: exactly one request and an
      info notice. This version does not check for a socket: without one the
      emit throws before anything happens. */
  method RequestFallenPuppetAttack(client: Client, bloodHunterId: string, puppetTokenId: string,
                                   targetTokenId: string, weaponId: string, amplify: bool,
                                   hemocraftDie: Option<string>, requestSentText: string)
    modifies client
    ensures client.socketAvailable ==>
      client.outbox == old(client.outbox) +
        [RequestFor(client, bloodHunterId, puppetTokenId, targetTokenId, weaponId, amplify, hemocraftDie)] &&
      client.notices == old(client.notices) +
        [Notice("info", OrDefault(requestSentText, "Fallen Puppet request sent to GM..."))]
    ensures !client.socketAvailable ==>
      client.outbox == old(client.outbox) && client.notices == old(client.notices)
    ensures client.targets == old(client.targets)
  {
    if !client.socketAvailable {
      return;
    }
    client.outbox := client.outbox +
      [RequestFor(client, bloodHunterId, puppetTokenId, targetTokenId, weaponId, amplify, hemocraftDie)];
    client.notices := client.notices +
      [Notice("info", OrDefault(requestSentText, "Fallen Puppet request sent to GM..."))];
  }

  // -------------------------------------------------------- the GM's side

  /** The GM's answer in the approval dialog. */
  datatype GMChoice = Approve | Deny

  /** The localized texts the handler sends (each already with its fallback). */
  datatype RequestTexts = RequestTexts(invalidRequest: string, weaponNotFound: string,
                                       denied: string, approved: string, attackError: string)

  /** How a request ended. `Approved` is reached only by the curse file's own
      handler (`FallenPuppet`), which targets placeables. */
  datatype RequestOutcome = InvalidRequest | WeaponNotFound | PuppetWithoutActor | Denied | Approved | AttackFailed

  /** `executeGMFallenPuppetAttack` of this file, as `handleFallenPuppetRequest`
      calls it: with the scene's token documents, which have no `setTarget`.
      If creating the chat message throws (`chatFails`), nothing else
      happens; otherwise the previous targets are untargeted and then
      targeting the chosen token throws. Either way the weapon is never
      used, the previous targets are not restored, and the player gets one
      `error` notification and never the `success` one. */
  method ExecuteGMFallenPuppetAttack(client: Client, playerId: string, chatFails: bool, texts: RequestTexts)
    modifies client
    ensures client.targets == if chatFails then old(client.targets) else {}
    ensures client.outbox == old(client.outbox) +
      (if client.socketAvailable then [NotificationFor(playerId, texts.attackError, Some("error"))] else [])
    ensures client.notices == old(client.notices)
  {
    if chatFails {
      NotifyPlayer(client, playerId, texts.attackError, Some("error"));
      return;
    }
    var previous := client.targets;
    var rest := previous;
    while rest != {}
      modifies client
      invariant rest <= previous
      invariant client.targets == rest
      invariant client.outbox == old(client.outbox) && client.notices == old(client.notices)
      decreases rest
    {
      var t :| t in rest;
      client.targets := client.targets - {t};
      rest := rest - {t};
    }
    // `targetToken.setTarget` is not a function of a token document: the
    // call throws and the handler's `catch` reports the error.
    NotifyPlayer(client, playerId, texts.attackError, Some("error"));
  }

  /** `handleFallenPuppetRequest` of this file, on the GM's client. `puppet`
      and `target` are the scene's token documents with the requested ids,
      `hunterFound` says whether the hunter actor exists. A missing token,
      hunter or weapon sends one `error` notification and opens no dialog; a
      puppet token without an actor throws. Otherwise the GM's choice decides:
      a denial sends one `warning`, an approval always ends in the failed
      attack above. */
  method HandleFallenPuppetRequest(client: Client, request: Message, puppet: Option<Token>, target: Option<Token>,
                                   hunterFound: bool, choice: GMChoice, chatFails: bool, texts: RequestTexts)
    returns (outcome: RequestOutcome)
    requires request.FallenPuppetRequest?
    requires puppet.Some? ==> puppet.value.id == request.puppetTokenId
    requires target.Some? ==> target.value.id == request.targetTokenId
    modifies client
    ensures puppet.None? || target.None? || !hunterFound <==> outcome == InvalidRequest
    ensures outcome == InvalidRequest ==>
      client.outbox == old(client.outbox) +
        (if client.socketAvailable then [NotificationFor(request.playerId, texts.invalidRequest, Some("error"))] else []) &&
      client.targets == old(client.targets)
    ensures outcome == PuppetWithoutActor ==>
      puppet.value.actor == null && client.outbox == old(client.outbox) && client.targets == old(client.targets)
    ensures outcome == WeaponNotFound ==>
      puppet.value.actor != null && FindItem(puppet.value.actor.items, request.weaponId).None? &&
      client.outbox == old(client.outbox) +
        (if client.socketAvailable then [NotificationFor(request.playerId, texts.weaponNotFound, Some("error"))] else []) &&
      client.targets == old(client.targets)
    ensures outcome == Denied <==>
      outcome !in {InvalidRequest, PuppetWithoutActor, WeaponNotFound} && choice == Deny
    ensures outcome == Denied ==>
      client.outbox == old(client.outbox) +
        (if client.socketAvailable then [NotificationFor(request.playerId, texts.denied, Some("warning"))] else []) &&
      client.targets == old(client.targets)
    ensures outcome == AttackFailed <==>
      outcome !in {InvalidRequest, PuppetWithoutActor, WeaponNotFound} && choice == Approve
    ensures outcome == AttackFailed ==>
      client.outbox == old(client.outbox) +
        (if client.socketAvailable then [NotificationFor(request.playerId, texts.attackError, Some("error"))] else []) &&
      client.targets == (if chatFails then old(client.targets) else {})
    ensures outcome != Approved
    ensures client.notices == old(client.notices)
  {
    if puppet.None? || target.None? || !hunterFound {
      NotifyPlayer(client, request.playerId, texts.invalidRequest, Some("error"));
      return InvalidRequest;
    }
    var puppetActor := puppet.value.actor;
    if puppetActor == null {
      return PuppetWithoutActor;
    }
    if FindItem(puppetActor.items, request.weaponId).None? {
      NotifyPlayer(client, request.playerId, texts.weaponNotFound, Some("error"));
      return WeaponNotFound;
    }
    if choice == Deny {
      NotifyPlayer(client, request.playerId, texts.denied, Some("warning"));
      return Denied;
    }
    ExecuteGMFallenPuppetAttack(client, request.playerId, chatFails, texts);
    outcome := AttackFailed;
  }
}
