// The host documents the plugin reads and writes, as plain Dafny data.
//
// Items and active effects are values; the objects the plugin changes in
// place (an actor's item and effect collections and hit points, the local
// user's target set, the socket, the notification area, a midi-qol damage
// workflow) are classes whose fields the plugin's methods reassign.

module Documents {
  import opened Common

  // ------------------------------------------------------------ item uses

  /** The stored `system.uses.max` of an item. */
  datatype MaxField =
    | NoMax              // undefined or null
    | NumberMax(num: int)  // a number, as the host stores its own default
    | TextMax(n: nat)      // the string `Decimal(n)`, as the plugin writes it
  {
    /** JavaScript truthiness: `0` is falsy, every non-empty string is truthy. */
    predicate Truthy()
    {
      match this
      case NoMax => false
      case NumberMax(num) => num != 0
      case TextMax(_) => true
    }

    /** The number JavaScript arithmetic reads from the field. */
    function Numeric(): int
      requires Truthy()
    {
      match this
      case NumberMax(num) => num
      case TextMax(n) => n
    }
  }

  /** `system.uses`: `spent` is `None` when undefined; `value` is 0 when missing. */
  datatype Uses = Uses(max: MaxField, spent: Option<int>, value: int)
  {
    /** `uses.spent || 0` */
    function SpentOrZero(): int
    {
      match spent
      case None => 0
      case Some(v) => v
    }

    /** A state the host itself produces: where a max and `spent` are
        defined, the host derives `value` as `max - spent`. The model keeps
        `value` as a field of its own, so this is not implied. */
    predicate ValueDerived()
    {
      max.Truthy() && spent.Some? ==> value == max.Numeric() - spent.value
    }
  }

  const NoUses := Uses(NoMax, None, 0)

  // ---------------------------------------------------------- module flags

  /** `flags['vtt-blood-hunter'].crimsonRite`: a plain marker on features, a
      pointer to the rite's effect on a weapon. */
  datatype RiteMarker =
    | NoRiteMarker
    | RiteMarkerSet
    | RitePointer(effectId: string, riteType: string, damageType: string, riteDamage: string)

  /** `flags['vtt-blood-hunter']` of an item. Empty strings and 0 stand for
      missing keys; `NoFlags` is a missing scope. */
  datatype ModuleFlags =
    | NoFlags
    | Flags(bloodCurse: bool, curseType: string, timing: string, minLevel: int,
            usedThisTurn: bool, crimsonRite: RiteMarker, riteType: string,
            crimsonRiteFeature: bool, damageType: string, requiredLevel: int,
            orderOfTheLycan: bool)
  {
    predicate IsBloodCurse() { Flags? && bloodCurse }
    function CurseType(): string { if Flags? then curseType else "" }
    function Timing(): string { if Flags? then timing else "" }
    function MinLevel(): int { if Flags? then minLevel else 0 }
    predicate UsedThisTurn() { Flags? && usedThisTurn }
    function CrimsonRite(): RiteMarker { if Flags? then crimsonRite else NoRiteMarker }
    function RiteType(): string { if Flags? then riteType else "" }
    predicate IsRiteFeature() { Flags? && crimsonRiteFeature }
    predicate IsLycanOrder() { Flags? && orderOfTheLycan }

    /** `setFlag(MODULE_ID, 'usedThisTurn', b)` / `unsetFlag` on the scope. */
    function WithUsedThisTurn(b: bool): (r: ModuleFlags)
      ensures r.Flags? && r.usedThisTurn == b
    {
      if this.NoFlags? then EmptyFlags.(usedThisTurn := b) else this.(usedThisTurn := b)
    }

    /** `setFlag(MODULE_ID, 'crimsonRite', m)` / `unsetFlag` on the scope. */
    function WithCrimsonRite(m: RiteMarker): (r: ModuleFlags)
      ensures r.CrimsonRite() == m
    {
      if this.NoFlags? then EmptyFlags.(crimsonRite := m) else this.(crimsonRite := m)
    }
  }

  const EmptyFlags := Flags(false, "", "", 0, false, NoRiteMarker, "", false, "", 0, false)

  // --------------------------------------------------------------- effects

  /** `CONST.ACTIVE_EFFECT_MODES`: only CUSTOM (0) and ADD (2) are used. */
  datatype ChangeMode = Custom | Add

  datatype ChangeValue = NumValue(n: int) | TextValue(s: string)

  datatype Change = Change(key: string, mode: ChangeMode, value: ChangeValue, priority: int)

  datatype Duration = Duration(turns: Option<int>, seconds: Option<int>)

  /** `flags['vtt-blood-hunter']` of an active effect, by the kind of effect
      the plugin creates. */
  datatype EffectFlags =
    | NoEffectFlags
    | RiteEffectFlags(riteType: string, damageType: string, riteDamage: string, weaponId: string)
    | CurseEffectFlags(curseType: string, amplified: Option<bool>, temporary: bool)
    | HybridFlags(lycanLevel: int, damageReduction: int, features: seq<string>)

  datatype Effect = Effect(
    id: string,
    name: string,
    icon: string,
    origin: string,
    changes: seq<Change>,
    duration: Duration,
    flags: EffectFlags,
    specialDuration: seq<string>,   // flags.dae.specialDuration, [] when absent
    transfer: bool)
  {
    /** `effect.flags[MODULE_ID]?.crimsonRite` */
    predicate IsCrimsonRite() { flags.RiteEffectFlags? }
    /** `effect.flags[MODULE_ID]?.hybridTransformation === true` */
    predicate IsHybrid() { flags.HybridFlags? }
  }

  /** The ids of a list of effects. */
  function EffectIds(effects: seq<Effect>): (r: set<string>)
    ensures forall k :: 0 <= k < |effects| ==> effects[k].id in r
    ensures forall x :: x in r ==> exists k :: 0 <= k < |effects| && effects[k].id == x
  {
    set k | 0 <= k < |effects| :: effects[k].id
  }

  /** `collection.get(id)`: the position of the first effect with that id. */
  function FindEffect(effects: seq<Effect>, id: string): (r: Option<nat>)
    ensures r.Some? ==> r.value < |effects| && effects[r.value].id == id
    ensures r.Some? ==> forall k :: 0 <= k < r.value ==> effects[k].id != id
    ensures r.None? ==> forall k :: 0 <= k < |effects| ==> effects[k].id != id
  {
    if |effects| == 0 then None
    else if effects[0].id == id then Some(0)
    else match FindEffect(effects[1..], id)
      case None => None
      case Some(k) => Some(k + 1)
  }

  /** Deleting the effect document with that id. */
  function RemoveEffect(effects: seq<Effect>, id: string): (r: seq<Effect>)
    ensures |r| <= |effects|
    ensures forall k :: 0 <= k < |r| ==> r[k].id != id && r[k] in effects
    ensures forall e :: e in effects && e.id != id ==> e in r
  {
    if |effects| == 0 then []
    else if effects[0].id == id then RemoveEffect(effects[1..], id)
    else [effects[0]] + RemoveEffect(effects[1..], id)
  }

  // ----------------------------------------------------------------- items

  datatype Item = Item(
    id: string,
    itemType: string,          // `type`: "class", "feat", "feature", "weapon", ...
    name: string,
    description: string,       // system.description.value, "" when missing
    identifier: string,        // system.identifier, "" when missing
    levels: int,               // system.levels of a class item, 0 when missing
    subtype: string,           // system.type.subtype
    advancementOrigin: string, // flags.dnd5e.advancementOrigin, "" when missing
    flags: ModuleFlags,
    uses: Uses,
    equipped: bool,            // system.equipped
    rangeValueNull: bool,      // system.range?.value === null
    effects: seq<Effect>)
  {
    predicate IsFeat() { itemType == "feat" }
    /** The feature filter shared by the detectors: type `feat` or `feature`. */
    predicate IsFeatOrFeature() { itemType == "feat" || itemType == "feature" }
  }

  /** `items.get(id)`: the position of the first item with that id. */
  function FindItem(items: seq<Item>, id: string): (r: Option<nat>)
    ensures r.Some? ==> r.value < |items| && items[r.value].id == id
    ensures r.Some? ==> forall k :: 0 <= k < r.value ==> items[k].id != id
    ensures r.None? ==> forall k :: 0 <= k < |items| ==> items[k].id != id
  {
    if |items| == 0 then None
    else if items[0].id == id then Some(0)
    else match FindItem(items[1..], id)
      case None => None
      case Some(k) => Some(k + 1)
  }

  /** `deleteEmbeddedDocuments('Item', ids)`: every item whose id is listed
      goes. */
  function WithoutIds(items: seq<Item>, ids: seq<string>): (r: seq<Item>)
    ensures forall x :: x in r <==> x in items && x.id !in ids
  {
    if |items| == 0 then []
    else (if items[0].id in ids then [] else [items[0]]) + WithoutIds(items[1..], ids)
  }

  /** Ids are unique among the actor's items. */
  predicate UniqueIds(items: seq<Item>)
  {
    forall i, j :: 0 <= i < j < |items| ==> items[i].id != items[j].id
  }

  /** Deleting no ids keeps every item. */
  lemma {:induction false} WithoutNothing(items: seq<Item>)
    ensures WithoutIds(items, []) == items
  {
    if |items| > 0 {
      WithoutNothing(items[1..]);
      assert items == [items[0]] + items[1..];
    }
  }

  /** Whether the host updates inside one `try` block throw: neither, the
      first, or the second (the first having taken effect). */
  datatype HostFailure = NoFailure | FirstCallFails | SecondCallFails

  // ------------------------------------------------------ mutable objects

  /** An actor document: its embedded items and effects and its hit points
      change; the rest is read-only for the plugin. */
  class Actor {
    const id: string
    const name: string
    const parentId: string       // `actor.parent?.id` of a synthetic actor, "" otherwise
    const hasPlayerOwner: bool
    const isOwner: bool          // the local user owns this actor
    const proficiency: int       // system.attributes.prof
    const intScore: int          // system.abilities.int.value
    const wisScore: int          // system.abilities.wis.value
    const walk: int              // system.attributes.movement.walk, 0 when missing
    var items: seq<Item>
    var effects: seq<Effect>
    var hp: int                  // system.attributes.hp.value
  }

  /** A placeable token on the canvas (and the scene's token document with
      the same id). */
  datatype Token = Token(id: string, name: string, actor: Actor?)

  /** `ui.notifications.<level>(text)` */
  datatype Notice = Notice(level: string, text: string)

  /** The payloads emitted on the module's socket. */
  datatype Message =
    | FallenPuppetRequest(bloodHunterId: string, puppetTokenId: string, targetTokenId: string,
                          weaponId: string, amplify: bool, hemocraftDie: Option<string>,
                          playerId: string, playerName: string)
    | FallenPuppetResponse(userId: string, approved: bool, message: string)
    | NotificationMessage(userId: string, message: string, notificationType: string)
    | OtherAction(action: string)

  /** The local game client: who the user is, the tokens they target, what
      they have emitted on the socket and the notifications shown to them. */
  class Client {
    const userId: string
    const userName: string
    const isGM: bool
    const socketAvailable: bool  // `game.socket` is set
    var targets: set<string>     // ids of the tokens in `game.user.targets`
    var outbox: seq<Message>
    var notices: seq<Notice>
  }

  /** A midi-qol workflow, as far as the curses read or change it. */
  class Workflow {
    const hasDamageRoll: bool          // `workflow.damageRoll` is set
    const firstTarget: Option<Token>   // `workflow.targets?.first()`
    var damageTotal: int          // `workflow.damageRoll._total`
  }
}
