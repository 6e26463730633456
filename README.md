# Blood Hunter for Foundry VTT: a verified model of the rule core

This project models the rule logic of the Blood Hunter plugin for Foundry VTT
(dnd5e system). It covers the Blood Hunter class level and its level-gated
tables, the Blood Curse and Crimson Rite detection over an actor's features,
the Blood Maledict charge ledger, cost-gated curse execution with the Fallen
Puppet reaction and its socket round trip, the Crimson Rite lifecycle on
weapons, the planning and execution of a compendium feature sync, and the
Order of the Lycan hybrid transformation. The repository carries two
generations of the curse and rite rules, the older `blood-curse.js` /
`crimson-rite.js` classes and the refactored `blood-curse/` and
`crimson-rite/` folders. Both are modelled as written, side by side.

Host documents are plain data (`documents.dfy`): an `Item` value (type, name,
description, identifier, levels, module flags, uses, effects), an `Effect`
value, and the classes the code updates in place. `Actor` holds items,
effects and HP. `Client` is the local user: its id, GM status, target set,
socket outbox (every `game.socket.emit` appends a `Message`) and shown
notifications. `Workflow` is a midi-qol workflow. Loops in the source are
`while` loops proved against a specification function. That function folds
over the last element, so one iteration is one unfolding. Dice totals,
distances, localized strings, fresh document ids, dialog choices and host
failures are parameters of the operations that use them.

One module per source file:

| file | module | source |
|---|---|---|
| common.dfy | Common | JavaScript string and number primitives |
| documents.dfy | Documents | host documents |
| utils.dfy | Utils | scripts/utils.js |
| curse_registry.dfy | CurseRegistry | scripts/blood-curse/curse-registry.js |
| curse_detection.dfy | CurseDetection | scripts/blood-curse/curse-detection.js |
| maledict_resources.dfy | MaledictResources | scripts/blood-curse/maledict-resources.js |
| curse_dialogs.dfy | CurseDialogs | scripts/blood-curse/curse-dialogs.js |
| curse_binding.dfy | Binding | scripts/blood-curse/curses/curse-of-binding.js |
| curse_marked.dfy | Marked | scripts/blood-curse/curses/curse-of-the-marked.js |
| fallen_puppet.dfy | FallenPuppet | scripts/blood-curse/curses/curse-of-the-fallen-puppet.js |
| fallen_puppet_hook.dfy | FallenPuppetHook | scripts/blood-curse/hooks/fallen-puppet-hook.js |
| socket_handler.dfy | SocketHandler | scripts/blood-curse/socket-handler.js |
| legacy_blood_curse.dfy | LegacyBloodCurse | scripts/blood-curse.js |
| rite_constants.dfy | RiteConstants | scripts/crimson-rite/constants.js |
| rite_detection.dfy | RiteDetection | scripts/crimson-rite/rite-detection.js |
| rite_manager.dfy | RiteManager | scripts/crimson-rite/rite-manager.js |
| legacy_crimson_rite.dfy | LegacyCrimsonRite | scripts/crimson-rite.js |
| rite_features.dfy | RiteFeatures | scripts/crimson-rite-features.js |
| integrations.dfy | Integrations | scripts/integrations.js |
| feature_sync.dfy | FeatureSync | scripts/feature-sync.js |
| order_lycan.dfy | OrderLycan | scripts/order-lycan.js |

Where the code departs from its own documentation, the model follows the code:

- The legacy `getKnownCursesByLevel` (scripts/blood-curse.js:238-267) is
  textually the same as the refactored one. The model defines it once, as
  `CurseDetection.KnownCursesByLevel`.
- The refactored `hasUsesRemaining` ignores its curse argument. So the charge
  check in `getAvailableCurses` keeps either every candidate or none.
- `consumeBloodMaledictUse` reports success even when the charges were
  already spent. It can lower `spent` when a stored `spent` exceeds the
  re-synced maximum.
- `canUseBloodMaledict` reads the `value` field while `hasUsesRemaining`
  prefers `spent`. The host derives `value` as `max - spent`, and on every
  state it produces that way the two checks agree
  (`FallenPuppetHook.ChargeChecksAgreeWhenDerived`). They disagree only on a
  feature whose stored `value` does not match its `spent`, such as the one
  `FallenPuppetHook.ChargeChecksDisagree` exhibits.
- `handleFallenPuppetRequest` in scripts/blood-curse/socket-handler.js passes
  the scene's token documents on to `executeGMFallenPuppetAttack`, which calls
  `setTarget` on the target. Token documents have no `setTarget`, so every
  approved request throws there, or earlier at the chat message. The GM's
  targets are then cleared (or untouched when the chat message fails), the
  weapon is never used, and the player gets the error notification and never
  the success one. `SocketHandler.HandleFallenPuppetRequest` ends every
  approval in `AttackFailed`.
- `syncFeatures` ends by calling `updateBloodMaledictMaxUses` on the legacy
  class, which does not define it. The model's `SyncFeatures` therefore ends
  in `Rejected` after the swaps, and the results notice is never shown on
  that path.

## Model

| member | source | states |
|---|---|---|
| Common.Decimal | scripts/blood-curse/maledict-resources.js:47-49 | a rendered non-negative number is a non-empty digit string with no leading zero |
| Common.DecimalRoundTrip | scripts/blood-curse/maledict-resources.js:47-49 | reading back the decimal string that the maledict maximum is stored as gives the number |
| Common.DecimalInjective | scripts/blood-curse/maledict-resources.js:44-49 | two maxima render to the same stored string exactly when they are equal, so the string comparison decides "differs" |
| Common.IntDecimal | scripts/utils.js:150-160 | integer-to-string adds a '-' for negatives and is the plain decimal otherwise |
| Common.FloorDiv | scripts/utils.js:129-131 | Math.floor of a quotient by a positive divisor: the largest q with q*b <= a |
| Common.JsRem | scripts/utils.js:150-160 | JavaScript's % by a positive divisor: the remainder takes the sign of the dividend |
| Common.ReplaceAll | scripts/feature-sync.js:223-224 | a global replace of a pattern by a replacement no longer than it never lengthens the string |
| Documents.ModuleFlags.WithUsedThisTurn | scripts/blood-curse/curse-dialogs.js:55-61 | setting usedThisTurn yields a flag scope whose usedThisTurn is the given value, creating the scope when missing |
| Documents.ModuleFlags.WithCrimsonRite | scripts/crimson-rite/rite-manager.js:61-66 | setting or unsetting the crimsonRite flag yields exactly the given marker |
| Documents.EffectIds | scripts/crimson-rite/rite-manager.js:129-143 | the id set of an effect collection contains every effect's id and nothing else |
| Documents.FindEffect | scripts/crimson-rite/rite-manager.js:134-140 | `effects.get(id)`: the first effect with that id, or none when no effect has it |
| Documents.RemoveEffect | scripts/crimson-rite/rite-manager.js:102-106 | deleting by id keeps every other effect and leaves none with that id |
| Documents.FindItem | scripts/crimson-rite/rite-manager.js:18-19 | `items.get(id)`: the first item with that id, or none when no item has it |
| Documents.WithoutIds | scripts/crimson-rite-features.js:282-294 | deleting a list of ids keeps exactly the items whose id is not listed |
| Documents.WithoutNothing | scripts/crimson-rite-features.js:282-294 | deleting an empty list of ids leaves the items unchanged |
| Utils.FirstBloodHunterClass | scripts/utils.js:12-21 | finds a class item named "blood hunter" or identified "bloodhunter" exactly when one exists, and it is the first |
| Utils.BloodHunterLevelOf | scripts/utils.js:28-39 | the levels of the first Blood Hunter class item, and 0 when there is none |
| Utils.LevelKeptByAppend | scripts/utils.js:28-39 | adding items after an existing Blood Hunter class never changes the level |
| Utils.LevelKeptByUpdate | scripts/utils.js:28-39 | updating an item without touching its type, name, identifier or levels never changes the level |
| Utils.BloodHunterLevel | scripts/utils.js:28-39 | a null actor or a non-Blood-Hunter has level 0 |
| Utils.HemocraftFaces | scripts/utils.js:46-53 | the hemocraft die always has 4, 6, 8 or 10 faces |
| Utils.HemocraftDieShape | scripts/utils.js:46-53 | the die is "1d" followed by its faces, so it always starts with "1d" |
| Utils.HemocraftFacesMonotone | scripts/utils.js:46-53 | the die never shrinks as the level rises |
| Utils.FirstOrder | scripts/utils.js:75-92 | the order found is the first listed one that hasFeature finds; none exactly when no listed order is found |
| Utils.BloodHunterOrder | scripts/utils.js:61-92 | a null actor has no order; a found order is one of the four orders and names a feat of the actor |
| Utils.RiteDamageParts | scripts/utils.js:100-103 | the rite damage formula is the hemocraft die, then "[", the damage type and "]" |
| Utils.Modifier | scripts/utils.js:129-131 | the ability modifier m satisfies 2m <= score - 10 < 2m + 2, which rounds toward minus infinity |
| Utils.ModifierMonotone | scripts/utils.js:129-131 | a higher score never gives a lower modifier |
| Utils.RiteWeaponByTypeOnly | scripts/utils.js:138-143 | only the item's type decides whether it can carry a rite, and a missing item never can |
| Utils.FormatDuration | scripts/utils.js:150-160 | zero seconds shows the "Unlimited" text |
| Utils.FormatDurationPositive | scripts/utils.js:150-160 | a positive duration shows whole hours and leftover minutes, together within a minute of the duration; under an hour it shows minutes only |
| CurseRegistry.Keys | scripts/blood-curse/curse-registry.js:5-70 | the keys of a curse table, in table order |
| CurseRegistry.Lookup | scripts/blood-curse/curse-registry.js:5-70 | a key finds its table entry exactly when it is one of the table's keys |
| CurseRegistry.RegistryKeys | scripts/blood-curse/curse-registry.js:5-70 | the table has exactly the eight keys binding, marked, anxious, eyeless, fallen_puppet, bloated_agony, corrosion and exorcism, pairwise distinct |
| CurseRegistry.RegistryLevels | scripts/blood-curse/curse-registry.js:8-64 | unlock levels are 1, 1, 1, 6, 6, 10, 14 and 18 in table order |
| CurseRegistry.RegistryTimings | scripts/blood-curse/curse-registry.js:9-65 | every timing is "reaction" or "bonus" |
| CurseRegistry.RegistryHemocraft | scripts/blood-curse/curse-registry.js:12-68 | usesHemocraft holds exactly for binding, marked, bloated_agony, corrosion and exorcism |
| CurseDetection.MatchCurse | scripts/blood-curse/curse-detection.js:41-67 | one keyword check adds the curse key once when the lowercased name or description mentions a keyword, and otherwise changes nothing |
| CurseDetection.GetKnownCursesFromFeatures | scripts/blood-curse/curse-detection.js:15-70 | the nested push loops compute the known-curse fold over the features |
| CurseDetection.KnownNoDuplicates | scripts/blood-curse/curse-detection.js:35-66 | the detected curses never contain a duplicate |
| CurseDetection.KnownMembers | scripts/blood-curse/curse-detection.js:19-70 | a curse is detected exactly when some feat or feature contributes it |
| CurseDetection.MatchedKeysMembers | scripts/blood-curse/curse-detection.js:41-67 | text matching yields exactly the registry keys whose keywords the feature mentions |
| CurseDetection.KnownDrawnFromTable | scripts/blood-curse/curse-detection.js:26-69 | every detected curse is a registry key or the curseType flag of a bloodCurse feature |
| CurseDetection.KnownMonotone | scripts/blood-curse/curse-detection.js:19-70 | adding features never removes a detected curse |
| CurseDetection.OnlyFeaturesContribute | scripts/blood-curse/curse-detection.js:19-21 | an item that is neither feat nor feature changes nothing |
| CurseDetection.MarkedFromName | scripts/blood-curse/curse-detection.js:22-59 | any feature whose name contains "mark" makes "marked" known |
| CurseDetection.ByLevelMatchesRegistry | scripts/blood-curse/curse-detection.js:80-109 | a key is known by level L exactly when its registry level is at most L; the list holds only registry keys, without duplicates |
| CurseDetection.ByLevelShape | scripts/blood-curse/curse-detection.js:80-109 | empty below 1, [binding, marked, anxious] for 1 to 5, and a higher level only extends the list |
| CurseDetection.ModeSelection | scripts/blood-curse/curse-detection.js:119-133 | "level" uses the level list, "features" only detection, "auto" falls back to the level list only when detection is empty, any other mode knows nothing |
| CurseDetection.FilterCurses | scripts/blood-curse/curse-detection.js:136-143 | keeps exactly the eligible items, and nothing when the uses check fails for all |
| CurseDetection.FilterCursesAppend | scripts/blood-curse/curse-detection.js:136-143 | filtering two lists joined is filtering each in turn, so order and repeats are kept |
| CurseDetection.FilterCursesOne | scripts/blood-curse/curse-detection.js:136-143 | a single item is kept, once, exactly when it is eligible |
| CurseDetection.AvailableCursesSound | scripts/blood-curse/curse-detection.js:117-143 | an item is available exactly when it is an eligible bloodCurse feat of the actor; with no charges left nothing is available |
| MaledictResources.MaledictFeature | scripts/blood-curse/maledict-resources.js:13-19 | the first feat named "blood maledict" or identified "blood-maledict", or none when there is no such feat |
| MaledictResources.MaxUses | scripts/blood-curse/maledict-resources.js:26-32 | maximum charges: 1 below 6, 2 for 6 to 12, 3 for 13 to 16, 4 from 17 |
| MaledictResources.MaxUsesMonotone | scripts/blood-curse/maledict-resources.js:26-32 | the maximum never falls as the level rises |
| MaledictResources.HasUsesRemainingCases | scripts/blood-curse/maledict-resources.js:96-118 | true without a feature or without a truthy max; with a defined spent, true exactly when spent is below max |
| MaledictResources.NeedsMaxUpdate | scripts/blood-curse/maledict-resources.js:44-49 | an update is needed exactly when the stored max is not the decimal string of the expected value |
| MaledictResources.SyncMax | scripts/blood-curse/maledict-resources.js:39-56 | without a feature nothing changes; otherwise only the feature's max is written, as the expected value's string |
| MaledictResources.SyncMaxChanged | scripts/blood-curse/maledict-resources.js:39-56 | the function reports true exactly when the write changes the items |
| MaledictResources.SyncMaxIdempotent | scripts/blood-curse/maledict-resources.js:39-56 | an immediate second sync changes nothing and reports false |
| MaledictResources.ConsumeItems | scripts/blood-curse/maledict-resources.js:63-86 | consuming keeps the number of items |
| MaledictResources.ConsumeEffect | scripts/blood-curse/maledict-resources.js:63-86 | without a feature nothing changes and the result is false; otherwise max is re-synced, spent becomes min(spent + 1, max), value is kept, and the result is true |
| MaledictResources.ConsumeAt | scripts/blood-curse/maledict-resources.js:63-86 | a consume on the feature reports success and is one update of its uses: max re-synced to the level's value and spent clamped at it |
| MaledictResources.ConsumeClamps | scripts/blood-curse/maledict-resources.js:76-86 | spent never exceeds max afterwards; at max it stays there and still reports success |
| MaledictResources.ConsumeThenRemaining | scripts/blood-curse/maledict-resources.js:63-118 | after a consume, charges remain exactly when spent + 1 was below the maximum |
| MaledictResources.UpdateMaxUses | scripts/blood-curse/maledict-resources.js:39-56 | the actor's items become the synced items and the result says whether they changed |
| MaledictResources.ConsumeUse | scripts/blood-curse/maledict-resources.js:63-86 | the actor's items become the consumed items and the result is the consume result |
| MaledictResources.ResetCurseUses | scripts/blood-curse/maledict-resources.js:126-130 | the turn reset changes no item |
| CurseDialogs.MarkUsed | scripts/blood-curse/curse-dialogs.js:55-61 | only the executed curse changes, and its usedThisTurn flag is set; its uses are untouched |
| CurseDialogs.PayAmplification | scripts/blood-curse/curse-dialogs.js:37-52 | without amplification nothing changes; with too little HP only the warning shows; otherwise exactly the cost comes off HP and the payment notice shows; items and effects never change |
| CurseDialogs.ExecuteCurseEffect | scripts/blood-curse/curse-dialogs.js:68-90 | the handler throws exactly as `HandlerThrows` says; only Marked adds damage, by its roll; Binding adds exactly its effect to the target's actor and the DC notice when amplified with a target; Anxious shows its notices; the hunter's items and HP never change |
| CurseDialogs.ExecuteCurse | scripts/blood-curse/curse-dialogs.js:16-90 | the cost is one roll of the hemocraft die; insufficient HP for an amplified curse returns before anything changes; otherwise HP drops by the cost (between 1 and the die's faces) and stays at least 1; the notices are the payment, then the effect's own (Binding DC when amplified with a target, the Anxious notices); a Binding target's actor gains exactly the binding effect; a completed curse is marked used; types without a handler only complete |
| CurseDialogs.ApplyCurse | scripts/blood-curse/curse-dialogs.js:54-90 | HP is untouched; the effect throws exactly when its handler does; Binding adds exactly its effect to the target's actor and the DC notice when amplified, Anxious shows its notices, other types touch no target; a completed curse is marked used, otherwise no item changes; only the marked curse adds damage |
| CurseDialogs.FindFallenPuppetCurse | scripts/blood-curse/curse-dialogs.js:199-204 | finds a fallen_puppet bloodCurse item, or none when the hunter has none |
| CurseDialogs.PromptFallenPuppet | scripts/blood-curse/curse-dialogs.js:197-284 | not offered without the curse or charges; skip changes nothing; too little HP for the hemocraft-die cost resolves before any charge is spent; a use pays HP, then consumes one charge, then runs the curse |
| CurseDialogs.ConsumeAndExecute | scripts/blood-curse/curse-dialogs.js:256-260 | a use spends exactly one Blood Maledict charge, and the curse that follows changes neither the hunter's items nor its HP |
| Binding.BindingDC | scripts/blood-curse/curses/curse-of-binding.js:42-50 | the save DC is 8 + proficiency + the larger of the INT and WIS modifiers |
| Binding.BindingDCMonotone | scripts/blood-curse/curses/curse-of-binding.js:42-50 | the DC never falls when proficiency or either score rises |
| Binding.BindingEffect | scripts/blood-curse/curses/curse-of-binding.js:19-40 | the effect sets movement.all to '0' for one turn, flagged binding with the amplify value |
| Binding.ExecuteCurseOfBinding | scripts/blood-curse/curses/curse-of-binding.js:14-53 | without a target nothing happens; otherwise exactly one binding effect is added to the target, and amplification only adds the DC notice |
| Marked.MarkedFormulaKeepsFaces | scripts/blood-curse/curses/curse-of-the-marked.js:14-16 | the formula keeps the hemocraft die's faces and sets the count to 2 when amplified and 1 otherwise |
| Marked.MarkedFlavorSuffix | scripts/blood-curse/curses/curse-of-the-marked.js:24 | the flavour gets the " (Amplified)" suffix exactly when amplified |
| Marked.ExecuteCurseOfTheMarked | scripts/blood-curse/curses/curse-of-the-marked.js:13-26 | with a damage roll the total rises by the bonus roll, which is between one and the faces per hemocraft die, with two dice when amplified; without one nothing changes |
| FallenPuppet.PuppetWeapons | scripts/blood-curse/curses/curse-of-the-fallen-puppet.js:108-117 | the offered weapons are exactly the puppet's equipped weapons with no range value |
| FallenPuppet.TargetCandidates | scripts/blood-curse/curses/curse-of-the-fallen-puppet.js:125-132 | the offered targets are exactly the placeables with an actor other than the fallen token |
| FallenPuppet.FallenTokenNeverTargeted | scripts/blood-curse/curses/curse-of-the-fallen-puppet.js:125-132 | the fallen token is never offered as a target |
| FallenPuppet.FindToken | scripts/blood-curse/curses/curse-of-the-fallen-puppet.js:168-175 | a token with the chosen id, or none when no placeable has it |
| FallenPuppet.HalfSpeed | scripts/blood-curse/curses/curse-of-the-fallen-puppet.js:181-189 | the amplified movement is half the walk speed, rounded down, with walk defaulting to 30 |
| FallenPuppet.PuppetDie | scripts/blood-curse/curses/curse-of-the-fallen-puppet.js:105 | the hemocraft die is computed exactly when amplified |
| FallenPuppet.PuppetBonusEffect | scripts/blood-curse/curses/curse-of-the-fallen-puppet.js:37-77 | the die is added to both mwak and rwak attack bonuses for one turn |
| FallenPuppet.ExecuteFallenPuppetAttack | scripts/blood-curse/curses/curse-of-the-fallen-puppet.js:28-89 | the bonus effect is created only when amplified with a die; afterwards the user's targets are the previous ones minus the chosen target |
| FallenPuppet.CheckSelection | scripts/blood-curse/curses/curse-of-the-fallen-puppet.js:108-178 | the curse goes on to the attack exactly when a melee weapon and a target exist and the chosen weapon and target are found; no weapon, no target, cancel and an invalid selection each stop with their own notice and nothing else changes |
| FallenPuppet.ExecuteCurseOfTheFallenPuppet | scripts/blood-curse/curses/curse-of-the-fallen-puppet.js:98-240 | no creature, no weapon, no target and an invalid selection each show their notice and change nothing else; the attack is attempted exactly when every check passes; as GM it succeeds exactly without a chat or attack failure, the targets end as the previous ones minus the chosen target (only the chosen one after a failed attack), and the puppet gains the bonus effect exactly when amplified with a die; a failure shows the attack error; a player sends one request when a socket exists and keeps targets and effects |
| FallenPuppet.Attack | scripts/blood-curse/curses/curse-of-the-fallen-puppet.js:181-226 | the movement notice comes first when amplified with a token; a GM succeeds exactly without a chat or attack failure, sends nothing, and ends with the stated targets and bonus effect; a player fails exactly without a fallen token and sends one request exactly when a socket exists; every failure shows the attack error; the puppet's items and HP never change |
| FallenPuppet.RequestFallenPuppetAttack | scripts/blood-curse/curses/curse-of-the-fallen-puppet.js:283-314 | without a socket nothing is sent and an error shows; otherwise exactly one request with the local user's id is sent |
| FallenPuppet.ExecuteGMFallenPuppetAttack | scripts/blood-curse/curses/curse-of-the-fallen-puppet.js:381-415 | success holds exactly when both tokens exist, the chat message posts, the puppet has an actor where the bonus needs one, and the attack completes; the targets and the puppet's bonus effect are stated for each path; the requester gets one success or one error notification |
| FallenPuppet.HandleFallenPuppetRequest | scripts/blood-curse/curses/curse-of-the-fallen-puppet.js:321-371 | each outcome holds exactly under its condition: a missing document or hunter, a puppet without an actor (nothing sent), a missing weapon, a denial, an approval whose attack succeeds or fails; each sends its one notification; targets and the puppet's effects change only when the attack runs |
| FallenPuppetHook.CanUseBloodMaledictCases | scripts/blood-curse/hooks/fallen-puppet-hook.js:70-93 | false without a feature; otherwise true exactly when max is truthy and value is positive; spent is never read |
| FallenPuppetHook.ChargeChecksDisagree | scripts/blood-curse/hooks/fallen-puppet-hook.js:70-93 | a feature with max 1, spent 0 and a stored value of 0 passes hasUsesRemaining but fails canUseBloodMaledict |
| FallenPuppetHook.ChargeChecksAgreeWhenDerived | scripts/blood-curse/maledict-resources.js:95-113 | when value is max - spent, as the host derives it, hasUsesRemaining and canUseBloodMaledict agree on a feature with a max |
| FallenPuppetHook.ShouldPromptUserCases | scripts/blood-curse/hooks/fallen-puppet-hook.js:100-115 | a GM is never prompted for a player-owned hunter, a player never for an unowned one, and a non-owner player never |
| FallenPuppetHook.FallenToken | scripts/blood-curse/hooks/fallen-puppet-hook.js:21-28 | the placeable of the fallen actor, or none when no placeable matches |
| FallenPuppetHook.PromptedAmong | scripts/blood-curse/hooks/fallen-puppet-hook.js:42-62 | every prompted hunter is a placeable that passes every check |
| FallenPuppetHook.PromptedAmongComplete | scripts/blood-curse/hooks/fallen-puppet-hook.js:42-62 | every placeable that passes every check is prompted |
| FallenPuppetHook.PromptedAmongAppend | scripts/blood-curse/hooks/fallen-puppet-hook.js:42-62 | prompting over two lists of placeables joined is prompting over each in turn, so placeable order is kept |
| FallenPuppetHook.PromptedAmongOne | scripts/blood-curse/hooks/fallen-puppet-hook.js:42-62 | a single placeable is prompted, once, exactly when it passes every check |
| FallenPuppetHook.PromptedExactly | scripts/blood-curse/hooks/fallen-puppet-hook.js:15-62 | with a fallen token, the prompted hunters are exactly the placeables that pass every check, and every split of the placeables splits them in order |
| FallenPuppetHook.PromptedAreEligible | scripts/blood-curse/hooks/fallen-puppet-hook.js:21-62 | nobody is prompted without a fallen token; each prompted hunter has the curse, is within 30, has a charge and belongs to this client |
| FallenPuppetHook.HandleFallenPuppetTrigger | scripts/blood-curse/hooks/fallen-puppet-hook.js:15-63 | nobody is prompted without a fallen token; otherwise the loop prompts, in placeable order, every placeable that passes every check and no other |
| FallenPuppetHook.PromptAmong | scripts/blood-curse/hooks/fallen-puppet-hook.js:42-62 | the loop prompts exactly the hunters the selection function picks, in placeable order |
| SocketHandler.RequestsOnlyForGM | scripts/blood-curse/socket-handler.js:21-25 | a fallenPuppetRequest is handled exactly on a GM client and ignored elsewhere |
| SocketHandler.AddressedMessages | scripts/blood-curse/socket-handler.js:27-37 | responses and notifications show exactly on the addressed user's client |
| SocketHandler.NotificationLevel | scripts/blood-curse/socket-handler.js:33-37 | a notification without a type shows as info |
| SocketHandler.UnknownActionsOnlyWarn | scripts/blood-curse/socket-handler.js:39-40 | any other action only logs a warning |
| SocketHandler.Deliver | scripts/blood-curse/socket-handler.js:14-43 | a delivered message adds at most the routed notice and sends nothing |
| SocketHandler.NotificationFor | scripts/blood-curse/socket-handler.js:217-224 | the notification message carries the user id and text, with type defaulting to info |
| SocketHandler.NotificationReachesAddressee | scripts/blood-curse/socket-handler.js:27-37 | a sent notification shows with its type and text exactly on its addressee's client |
| SocketHandler.NotifyPlayer | scripts/blood-curse/socket-handler.js:217-224 | one notification message is emitted when a socket exists |
| SocketHandler.RequestFor | scripts/blood-curse/socket-handler.js:55-70 | the request carries the ids, amplify, the die and the local user as player |
| SocketHandler.RequestFallenPuppetAttack | scripts/blood-curse/socket-handler.js:55-73 | exactly one request is emitted with a socket and nothing without one |
| SocketHandler.ExecuteGMFallenPuppetAttack | scripts/blood-curse/socket-handler.js:134-197 | called with token documents it always throws: the targets stay when the chat message fails and are cleared otherwise, and exactly one error notification is sent |
| SocketHandler.HandleFallenPuppetRequest | scripts/blood-curse/socket-handler.js:79-125 | a missing puppet, target or hunter, or a missing weapon, sends one error and opens no dialog; deny sends one warning; approve always ends in a failed attack with one error |
| LegacyBloodCurse.LegacyTableMatchesRegistry | scripts/blood-curse.js:13-78 | the legacy table has the registry's eight keys with the same levels, timings and hemocraft use |
| LegacyBloodCurse.GetKnownCursesFromFeatures | scripts/blood-curse.js:85-143 | the legacy push loops compute the same detection fold on the legacy table, without duplicates |
| LegacyBloodCurse.LegacyDetection | scripts/blood-curse.js:85-143 | legacy detection has no duplicates, draws from the table or curseType flags, and never loses a curse when features are added |
| LegacyBloodCurse.AvailableCursesSound | scripts/blood-curse.js:204-231 | the same mode and filter rules, with "usedThisTurn not set" as the uses check |
| LegacyBloodCurse.AmplificationCost | scripts/blood-curse.js:409-416 | the fixed cost is between 1 and 4 |
| LegacyBloodCurse.AmplificationCostTracksDie | scripts/blood-curse.js:409-416 | the cost is half the hemocraft faces minus one (1, 2, 3, 4 at the die steps) and never falls with level |
| LegacyBloodCurse.MarkUsed | scripts/blood-curse.js:398 | only the executed curse changes, and it is no longer available this turn |
| LegacyBloodCurse.Execute | scripts/blood-curse.js:374-402 | too little HP when amplified changes nothing; otherwise the fixed cost is paid with its notice, then the effect's notices show and a Binding target's actor gains exactly the binding effect, then usedThisTurn is set |
| LegacyBloodCurse.ApplyCurse | scripts/blood-curse.js:394-398 | HP is untouched; only a binding curse with an actor-less target throws; Binding adds exactly its effect to the target's actor and the DC notice when amplified, Anxious shows its notices; a completed curse is marked used, otherwise no item changes; only the marked curse adds damage |
| LegacyBloodCurse.ClearedUsesRestores | scripts/blood-curse.js:563-578 | clearing makes every bloodCurse feat available again, changes nothing else about it, and leaves other items alone |
| LegacyBloodCurse.ResetCurseUses | scripts/blood-curse.js:563-578 | a Blood Hunter combatant's curse flags are cleared; any other combatant is untouched |
| RiteConstants.RiteKeys | scripts/crimson-rite/constants.js:5-12 | the keys of a rite table, in table order |
| RiteConstants.LookupRite | scripts/crimson-rite/constants.js:5-12 | a key finds its rite exactly when it is one of the table's keys |
| RiteConstants.RiteTable | scripts/crimson-rite/constants.js:5-12 | exactly six rites with distinct keys and damage types; flame, frozen and storm unlock at 1 and the rest at 14 |
| RiteConstants.UnlockedRites | scripts/crimson-rite/rite-detection.js:177-200 | exactly the rites whose level is at most the actor's |
| RiteConstants.CollectUnlocked | scripts/crimson-rite/rite-detection.js:177-182 | the level loop collects the unlocked rites |
| RiteConstants.UnlockedMonotone | scripts/crimson-rite.js:56-67 | a higher level never unlocks fewer rites |
| RiteConstants.UnlockedAtZero | scripts/crimson-rite.js:56-67 | nothing is unlocked at level 0 |
| RiteDetection.IndexOfFrom | scripts/crimson-rite/rite-detection.js:66-68 | the first position of a character at or after a start, or none |
| RiteDetection.SpaceRunEnd | scripts/crimson-rite/rite-detection.js:66-68 | the end of a whitespace run, as `\s*` matches it |
| RiteDetection.SpaceRunStart | scripts/crimson-rite/rite-detection.js:66-68 | the start of the whitespace run that ends at a position |
| RiteDetection.LeftmostMatch | scripts/crimson-rite/rite-detection.js:66-68 | the leftmost position where the cleaning regex matches, or none |
| RiteDetection.CleanName | scripts/crimson-rite/rite-detection.js:66-68 | the cleaned name is a prefix of the name |
| RiteDetection.CleanNameAtGroup | scripts/crimson-rite/rite-detection.js:66-68 | with a first "(...)" group, cleaning cuts at the whitespace before it |
| RiteDetection.CleanNameWithoutGroup | scripts/crimson-rite/rite-detection.js:66-68 | without a "(...)" group the name is unchanged |
| RiteDetection.CleanNameSingleLine | scripts/crimson-rite/rite-detection.js:66-68 | on one line: a "(" with a later ")" cuts the whitespace before the first "(" and the rest; otherwise no change |
| RiteDetection.DdbPatternsSubsumed | scripts/crimson-rite/rite-detection.js:89-142 | the "crimson rite: " prefixed patterns add nothing beyond the cleaned name and the English and French forms |
| RiteDetection.PushOnFirstMatch | scripts/crimson-rite/rite-detection.js:97-142 | a pattern loop adds the key once when any pattern is contained, then breaks |
| RiteDetection.MatchAllKeys | scripts/crimson-rite/rite-detection.js:63-143 | the per-key loop computes the key-matching fold |
| RiteDetection.GetKnownRitesFromFeatures | scripts/crimson-rite/rite-detection.js:32-153 | the nested loops compute the known-rite fold over features |
| RiteDetection.MatchKeysKeeps | scripts/crimson-rite/rite-detection.js:63-143 | matching keeps earlier rites, adds only table keys, and adds no duplicate |
| RiteDetection.MatchKeysFinds | scripts/crimson-rite/rite-detection.js:89-142 | a key whose pattern the name contains is found |
| RiteDetection.KnownRitesWellFormed | scripts/crimson-rite/rite-detection.js:43-143 | detected rites have no duplicates and are all table keys |
| RiteDetection.KnownRitesGrow | scripts/crimson-rite/rite-detection.js:38-144 | later features never remove a rite found earlier |
| RiteDetection.FeatureStepGrows | scripts/crimson-rite/rite-detection.js:43-50 | one feature keeps known rites and adds its valid flagged riteType |
| RiteDetection.FlaggedRiteKnown | scripts/crimson-rite/rite-detection.js:43-50 | a feature flagged with a valid riteType makes that rite known |
| RiteDetection.FlagSkipsMatching | scripts/crimson-rite/rite-detection.js:43-50 | a flag naming a new rite adds exactly that rite and skips text matching |
| RiteDetection.UnrelatedFeatureIgnored | scripts/crimson-rite/rite-detection.js:54-61 | an unflagged feature mentioning neither "crimson rite" nor "rite écarlate" contributes nothing |
| RiteDetection.NamedRiteDetected | scripts/crimson-rite/rite-detection.js:54-142 | a relevant feature whose name matches a rite pattern makes that rite known |
| RiteDetection.GetAvailableRites | scripts/crimson-rite/rite-detection.js:160-204 | the mode and level loops compute the available-rite function |
| RiteDetection.CollectKnown | scripts/crimson-rite/rite-detection.js:188-192 | the loop collects each known rite's table entry in order, skipping keys the table lacks |
| RiteDetection.KnownInfosKeys | scripts/crimson-rite/rite-detection.js:184-192 | the detected keys map to table entries with the same keys in the same order |
| RiteDetection.AvailableRitesByMode | scripts/crimson-rite/rite-detection.js:160-204 | "auto" without detections and "level" give the unlocked rites; detections give exactly those rites; "features" without any and other modes give none |
| RiteManager.ActiveRite | scripts/crimson-rite/rite-manager.js:129-143 | an active rite exists exactly when the flag's effectId names an effect on the weapon |
| RiteManager.Deactivate | scripts/crimson-rite/rite-manager.js:89-122 | an unknown weapon changes nothing; otherwise the active effect is deleted and the flag cleared, with a warning when there was none |
| RiteManager.Activate | scripts/crimson-rite/rite-manager.js:17-81 | an unknown weapon changes nothing; an existing rite is removed before the HP check; too little HP stops before damage; a paid activation costs between 1 and the hemocraft die's faces in HP; a success holds the new effect and its pointer flag |
| RiteManager.ClearExistingRite | scripts/crimson-rite/rite-manager.js:21-26 | an existing rite is deactivated silently before anything else |
| RiteManager.PayAndApply | scripts/crimson-rite/rite-manager.js:29-81 | the HP check, the payment and the apply step change the items, HP and notices as the activation specification says for the weapon at w |
| RiteManager.ApplyTail | scripts/crimson-rite/rite-manager.js:43-80 | an unknown rite type stops with nothing more changed; otherwise the weapon gets the effect and its pointer flag unless the host fails, and one notice reports which |
| RiteManager.PayAndApplyCases | scripts/crimson-rite/rite-manager.js:29-80 | too little HP (only with autoCalculateHP) changes nothing and shows one error; otherwise the cost is paid; an unknown rite pays but changes no item; otherwise the weapon holds the new effect and pointer, and the outcome notice follows the cost notice |
| RiteManager.ActivateOutcomes | scripts/crimson-rite/rite-manager.js:17-81 | no weapon exactly when the lookup fails, and then nothing changes; too little HP exactly with autoCalculateHP and HP not above the cost; past that check HP drops by the cost whatever follows; an unknown rite and a failed apply each under their exact condition |
| RiteManager.ActivateRefusedChanges | scripts/crimson-rite/rite-manager.js:21-41 | an activation stopped for HP or by an unknown rite has still taken the old rite off the weapon, and shows the silent deactivation's notices then the error or the cost notice |
| RiteManager.ActivateAppliedChanges | scripts/crimson-rite/rite-manager.js:17-81 | an activation past payment leaves the cleared weapon with the effect and pointer computed from the original items, and shows the deactivation, cost and outcome notices in that order |
| RiteManager.ClearedEffects | scripts/crimson-rite/rite-manager.js:101-106 | deactivating a weapon with one rite leaves it no rite effect and no effect it did not have |
| RiteManager.ApplyRite | scripts/crimson-rite/rite-manager.js:57-80 | the effect and the pointer flag are written unless the host fails, and one notice reports which |
| RiteManager.DeactivateClears | scripts/crimson-rite/rite-manager.js:89-113 | after deactivation no rite is active, and exactly the active effect is gone |
| RiteManager.ActivatedRiteIsActive | scripts/crimson-rite/rite-manager.js:57-66 | after a successful apply, getActiveRite returns the new effect |
| RiteManager.ActivateKeepsOneRite | scripts/crimson-rite/rite-manager.js:17-81 | deactivating then applying keeps at most one rite on the weapon |
| RiteManager.RiteAppendedAlone | scripts/crimson-rite/rite-manager.js:57-66 | a rite applied to a weapon without one is its only rite |
| RiteManager.Rested | scripts/crimson-rite/rite-manager.js:151-174 | resting keeps the number of items |
| RiteManager.RemoveAllActiveRites | scripts/crimson-rite/rite-manager.js:151-174 | a null actor gives 0; otherwise each weapon is rested and the count is the rites removed |
| RiteManager.RemoveRiteAt | scripts/crimson-rite/rite-manager.js:158-169 | one weapon is rested, and it counts when it had an active rite and deletion succeeded |
| RiteManager.RemovedCountBound | scripts/crimson-rite/rite-manager.js:151-174 | the count never exceeds the weapons with a rite, and equals it without errors |
| RiteManager.RestRemovesAll | scripts/crimson-rite/rite-manager.js:151-174 | without errors no weapon keeps a rite, other items are untouched, and a second rest removes nothing |
| RiteManager.NoActiveNoCount | scripts/crimson-rite/rite-manager.js:151-174 | with no active rite the count is 0 |
| LegacyCrimsonRite.LegacyRiteTable | scripts/crimson-rite.js:11-21 | nine distinct rites unlocking at 1 (flame, frozen, storm), 6 (corrosion, toxin) and 14 (the rest), including the six refactored ones |
| LegacyCrimsonRite.HPCost | scripts/crimson-rite.js:28-35 | the rite's HP cost is between 1 and 4 |
| LegacyCrimsonRite.HPCostTracksDie | scripts/crimson-rite.js:28-35 | the cost is 1, 2, 3, 4 at the hemocraft die steps and never falls with level |
| LegacyCrimsonRite.RiteDamageIsHemocraftDie | scripts/crimson-rite.js:42-49 | rite damage is the hemocraft die at every level |
| LegacyCrimsonRite.GetAvailableRites | scripts/crimson-rite.js:56-67 | the loop collects the legacy rites unlocked at the actor's level |
| LegacyCrimsonRite.LegacyAvailability | scripts/crimson-rite.js:56-67 | exactly the rites at or below the level; none for a non-Blood-Hunter; monotone in level |
| LegacyCrimsonRite.FirstRiteEffect | scripts/crimson-rite.js:278-280 | the first weapon effect carrying the crimsonRite flag, or none |
| LegacyCrimsonRite.Deactivate | scripts/crimson-rite.js:250-271 | an unknown weapon changes nothing; with no active rite nothing is deleted |
| LegacyCrimsonRite.DeactivateCases | scripts/crimson-rite.js:250-271 | only the weapon changes and only in its effects; without an active rite nothing changes; otherwise exactly the first rite effect is removed |
| LegacyCrimsonRite.ClearRite | scripts/crimson-rite.js:186-191 | an existing rite is deactivated without a notification before anything else |
| LegacyCrimsonRite.LegacyRiteEffect | scripts/crimson-rite.js:210-234 | the effect carries the rite flags, the hemocraft damage, the rite's icon and no changes |
| LegacyCrimsonRite.Activate | scripts/crimson-rite.js:182-242 | the outcome, items, HP and notices are those of the activation specification, whose cases are proved in ActivateCases |
| LegacyCrimsonRite.PayAndCreate | scripts/crimson-rite.js:194-242 | too little HP with autoCalculateHP changes nothing; an unknown rite pays but creates nothing; success appends one effect |
| LegacyCrimsonRite.CreateRite | scripts/crimson-rite.js:210-241 | an unknown rite creates nothing; otherwise the rite effect is appended to the weapon and the activated notice shown |
| LegacyCrimsonRite.ActivateCases | scripts/crimson-rite.js:182-242 | no weapon exactly when the lookup fails; too little HP exactly with autoCalculateHP and HP not above the cost; an unknown rite pays and creates nothing; success appends the rite effect to the cleared weapon; the notices in order |
| LegacyCrimsonRite.ActivateKeepsOneRite | scripts/crimson-rite.js:182-242 | after deactivation no rite is left, and the new effect is then the one active rite |
| LegacyCrimsonRite.ActivateLeavesOneRite | scripts/crimson-rite.js:186-234 | after a successful activation the weapon's one active rite is the new effect |
| Integrations.IconLookup | scripts/integrations.js:278-292 | an icon found is the table's entry for that key; none means the key is not in the table |
| Integrations.RiteIcon | scripts/integrations.js:278-292 | every rite type gets a non-empty icon path |
| Integrations.RiteIconCases | scripts/crimson-rite.js:287-301 | both icon tables give the listed icon for the nine types and fall back to the flame icon otherwise |
| Integrations.JsonEscaped | scripts/integrations.js:193 | escaping never shortens a string |
| Integrations.JsonPlain | scripts/integrations.js:193 | a string without quotes, backslashes or control characters is quoted unchanged |
| Integrations.JsonQuoteEscaped | scripts/integrations.js:193 | a leading quote is escaped |
| Integrations.CrimsonRiteEffect | scripts/integrations.js:166-208 | transfer is always true; without DAE there are no changes; with DAE exactly one damage.parts change and a rest special duration |
| Integrations.RiteDamageChange | scripts/integrations.js:187-195 | the change value is the JSON array of the rite damage and the damage type |
| Integrations.ItemMacro | scripts/integrations.js:216-225 | 'crimsonRite' and 'bloodCurse' get their builders, any other type '' |
| Integrations.MacrosEmbedIds | scripts/integrations.js:232-271 | each macro looks up the given actor id and item or curse id verbatim |
| Integrations.EnhanceItemForMidiQOL | scripts/integrations.js:300-311 | inactive midi-qol leaves the flags alone; active sets the midi-qol scope and keeps other flags |
| Integrations.RegisteredProperties | scripts/integrations.js:316-332 | hemocraft is added only when absent, existing entries are never overwritten, and registering twice changes nothing more |
| Integrations.RegisterCustomDamageTypes | scripts/integrations.js:316-332 | the config's damage types become the registered map |
| RiteFeatures.CreateRiteFeatureData | scripts/crimson-rite-features.js:133-224 | an unknown rite type gives null; a known one gives a bonus-action feat costing 1 with "Blood Hunter" + level and its table flags |
| RiteFeatures.CreatedItems | scripts/crimson-rite-features.js:258-265 | each planned record becomes one created item with a fresh id |
| RiteFeatures.HasWeaponIsValidRiteWeapon | scripts/crimson-rite-features.js:57-61 | the dialog has a weapon to offer exactly when some item passes isValidRiteWeapon |
| RiteFeatures.ActivateRiteFromFeature | scripts/crimson-rite-features.js:55-126 | no weapon warns; cancel changes nothing; deactivate removes the weapon's rite; activate runs the legacy activation once |
| RiteFeatures.OnUseItem | scripts/crimson-rite-features.js:29-48 | unflagged items or items without an actor pass through; a flagged item prevents the default use; without a rite type only an error shows; with one, the weapon dialog deactivates or activates exactly as `activateRiteFromFeature` does, and no weapon only warns |
| RiteFeatures.PlanFeatures | scripts/crimson-rite-features.js:244-262 | records to create plus those already owned never exceed the request |
| RiteFeatures.AddNotices | scripts/crimson-rite-features.js:264-275 | one or two notices, a warning exactly when nothing was created or already owned |
| RiteFeatures.AddRiteFeaturesToActor | scripts/crimson-rite-features.js:231-276 | a non-Blood-Hunter gets an error and no items; otherwise the planned features are appended |
| RiteFeatures.AddRequested | scripts/crimson-rite-features.js:244-275 | the planned features are appended with fresh ids and the summary notices shown; HP and effects are untouched |
| RiteFeatures.CollectFeatures | scripts/crimson-rite-features.js:244-262 | the loop computes the plan function |
| RiteFeatures.PlanFeaturesSound | scripts/crimson-rite-features.js:244-262 | every planned feature is requested, flagged and not yet owned |
| RiteFeatures.PlanFeaturesComplete | scripts/crimson-rite-features.js:244-262 | every requested known rite not yet owned is planned |
| RiteFeatures.PlanFeaturesNothingNew | scripts/crimson-rite-features.js:246-262 | when every requested rite is owned, nothing is created and all count as already owned |
| RiteFeatures.CreatedFeatureFound | scripts/crimson-rite-features.js:246-266 | a created feature counts as owned afterwards |
| RiteFeatures.DefaultAddCovers | scripts/crimson-rite-features.js:238-266 | after a default add, every available rite is owned |
| RiteFeatures.DefaultAddIdempotent | scripts/crimson-rite-features.js:238-266 | a second default add creates nothing |
| RiteFeatures.RiteFeatureIds | scripts/crimson-rite-features.js:283-290 | exactly the ids of the items flagged crimsonRiteFeature |
| RiteFeatures.RemoveRiteFeaturesFromActor | scripts/crimson-rite-features.js:282-294 | the flagged items are deleted and the notice reports how many |
| RiteFeatures.RemoveExactlyFeatures | scripts/crimson-rite-features.js:282-294 | with unique ids, exactly the unflagged items remain |
| RiteFeatures.RemoveTakesSharedIds | scripts/crimson-rite-features.js:282-294 | an item sharing a flagged item's id is deleted with it |
| FeatureSync.FirstOriginFeature | scripts/feature-sync.js:153-158 | the first bloodHunter-subtype feat with an advancementOrigin, or none |
| FeatureSync.FirstClassItem | scripts/feature-sync.js:165-169 | the first class named "blood hunter" or identified "blood-hunter", or none |
| FeatureSync.DetectOrigin | scripts/feature-sync.js:151-176 | prefers the first feature's origin, then the first class's id, then null |
| FeatureSync.AreFeaturesSameKeysOnly | scripts/feature-sync.js:277-287 | only the module flag, the identifier and the name are compared: an unflagged copy is never synced, and a flagged one matches every compendium feature with its identifier and name whatever their content |
| FeatureSync.Candidates | scripts/feature-sync.js:187-190 | exactly the feats with a non-empty identifier |
| FeatureSync.CandidatesUnique | scripts/feature-sync.js:187-190 | candidates keep the items' unique ids |
| FeatureSync.FlexMatchProperties | scripts/feature-sync.js:217-233 | flexible matching is symmetric and reflexive |
| FeatureSync.FirstExact | scripts/feature-sync.js:210-213 | the first unused compendium feature with an equal identifier, or none |
| FeatureSync.FirstFlex | scripts/feature-sync.js:217-233 | the first unused compendium feature matching flexibly, or none |
| FeatureSync.FindMatch | scripts/feature-sync.js:210-234 | an exact match is preferred; any match is unused; none exactly when nothing matches flexibly |
| FeatureSync.FindMatchMonotone | scripts/feature-sync.js:210-234 | a feature without a match finds none later, as used sets only grow |
| FeatureSync.Actors | scripts/feature-sync.js:247-250 | the actor features of the matched pairs, in order |
| FeatureSync.Duplicates | scripts/feature-sync.js:260-265 | exactly the candidates skipped as already used |
| FeatureSync.PlanOf | scripts/feature-sync.js:185-268 | the plan's total is the number of candidates |
| FeatureSync.PrepareSyncPlan | scripts/feature-sync.js:185-268 | the loop computes the plan function |
| FeatureSync.ScanClaimsOnce | scripts/feature-sync.js:195-253 | each compendium identifier is claimed at most once |
| FeatureSync.StepClaimsOnce | scripts/feature-sync.js:199-253 | one candidate keeps every identifier claimed at most once |
| FeatureSync.ScanListsExact | scripts/feature-sync.js:198-265 | each list holds exactly the candidates with that fate |
| FeatureSync.ScanUsedActor | scripts/feature-sync.js:239-253 | an actor identifier is used exactly when some candidate with it was matched or already synced |
| FeatureSync.ScanUsedCompendiumGrows | scripts/feature-sync.js:239-253 | the used compendium set only grows |
| FeatureSync.UnmatchedNeverUsed | scripts/feature-sync.js:198-265 | an unmatched identifier never becomes used later |
| FeatureSync.SkippedStaysUsed | scripts/feature-sync.js:203-207 | a skipped duplicate's identifier is used in the final state |
| FeatureSync.InListExact | scripts/feature-sync.js:198-265 | with unique ids, a candidate is in a list exactly when that is its fate |
| FeatureSync.PartitionAt | scripts/feature-sync.js:198-265 | each candidate is in exactly the list of its fate |
| FeatureSync.PlanFromCandidates | scripts/feature-sync.js:198-265 | the lists hold only candidates |
| FeatureSync.PlanPartition | scripts/feature-sync.js:185-268 | with unique ids, matched, unmatched, alreadySynced and duplicates partition the candidates |
| FeatureSync.SwapCountsTotal | scripts/feature-sync.js:98-128 | synced + failed equals the matched count, and failed is 0 without errors |
| FeatureSync.RemovedCountBound | scripts/feature-sync.js:83-95 | duplicatesRemoved is at most the duplicates, and equal without errors |
| FeatureSync.RemoveDuplicates | scripts/feature-sync.js:83-95 | the loop deletes the duplicates and counts the deletions that succeeded |
| FeatureSync.SwapMatched | scripts/feature-sync.js:98-128 | the loop replaces each matched feature and counts synced and failed |
| FeatureSync.SwapOne | scripts/feature-sync.js:99-127 | one matched feature is swapped as the swap step says; HP and effects are untouched |
| FeatureSync.SyncFeatures | scripts/feature-sync.js:16-142 | no actor, no pack, no candidates and no match stop early; otherwise duplicates are removed before matched features are swapped, and the missing legacy method rejects the result |
| FeatureSync.SyncTallies | scripts/feature-sync.js:74-128 | synced + failed = matched, skipped = unmatched, duplicatesRemoved at most the duplicates |
| FeatureSync.SyncResultsLevel | scripts/feature-sync.js:410-425 | error exactly when failed > 0 and synced = 0, warn when both are positive, info when nothing failed |
| OrderLycan.AtMost | scripts/order-lycan.js:354-362 | exactly the thresholds at or below the level |
| OrderLycan.Largest | scripts/order-lycan.js:354-362 | the largest of a non-empty list of thresholds |
| OrderLycan.Threshold | scripts/order-lycan.js:354-362 | the largest threshold at most the level, and 3 below 3 |
| OrderLycan.GetHybridBonusesThreshold | scripts/order-lycan.js:354-362 | getHybridBonuses returns the entry of the threshold |
| OrderLycan.HybridTableSteps | scripts/order-lycan.js:28-69 | each bonus is non-decreasing between thresholds, and each feature list extends the previous by one name |
| OrderLycan.EveryEntryHasPredatoryStrikes | scripts/order-lycan.js:35-67 | every entry lists predatoryStrikes first |
| OrderLycan.GetHybridBonusesMonotone | scripts/order-lycan.js:28-69 | a higher level never lowers a bonus and only extends the feature list |
| OrderLycan.TableMonotone | scripts/order-lycan.js:28-69 | between two thresholds no bonus shrinks and the higher entry's feature list extends the lower's |
| OrderLycan.TransformationEffect | scripts/order-lycan.js:282-347 | AC and walk changes always; strength and dexterity only when positive; no damageReduction change; 3600 seconds; flagged with the features |
| OrderLycan.FirstHybrid | scripts/order-lycan.js:126-130 | the first effect flagged hybridTransformation, or none |
| OrderLycan.IsTransformed | scripts/order-lycan.js:113-119 | true exactly when a non-null actor has a hybrid effect |
| OrderLycan.HasPredatoryStrikes | scripts/order-lycan.js:427-433 | true only when the transformation effect lists predatoryStrikes |
| OrderLycan.TransformRevertRoundTrip | scripts/order-lycan.js:231-274 | reverting a transformation restores the effects before it |
| OrderLycan.TransformGrantsPredatoryStrikes | scripts/order-lycan.js:231-255 | predatory strikes hold after any transform |
| OrderLycan.TransformKeepsOneHybrid | scripts/order-lycan.js:231-255 | a transform keeps at most one hybrid effect |
| OrderLycan.RevertLeavesNone | scripts/order-lycan.js:261-274 | with one hybrid effect, reverting leaves none and removes one effect |
| OrderLycan.Transform | scripts/order-lycan.js:231-255 | an already transformed actor is unchanged; otherwise one transformation effect is appended; either way the actor is transformed afterwards |
| OrderLycan.RevertTransformation | scripts/order-lycan.js:261-274 | a non-transformed actor is unchanged; otherwise the first transformation effect is deleted |
| OrderLycan.FeatureItems | scripts/order-lycan.js:390 | exactly the feats and features |
| OrderLycan.HasLycanFeatures | scripts/order-lycan.js:387-420 | true exactly when some feat or feature's lowercased name or description contains a keyword |
| OrderLycan.IsLycan | scripts/order-lycan.js:369-380 | true exactly when a feat has the orderOfTheLycan flag or the keyword search succeeds |
| OrderLycan.LycanKeptByAppend | scripts/order-lycan.js:369-420 | adding items never makes a Lycan stop being one |
| OrderLycan.LycanNamedFeature | scripts/order-lycan.js:387-420 | a feature whose name contains "lycan" makes the actor a Lycan |
| OrderLycan.TransformationDialog | scripts/order-lycan.js:136-225 | no token warns; a non-Lycan gets an error; cancel changes nothing; confirm reverts or transforms |
| OrderLycan.AddPredatoryStrikesDamage | scripts/order-lycan.js:440-447 | the hemocraft die plus "[slashing]" is appended to the parts only when they exist |

## Left out

- Dialogs, HTML templates, DOM and sheet buttons are left out: rite-ui.js, actor-sheet-button.js, `addLycanButtonToSheet`, `_confirmSync`, and the dialog bodies. The user's choice is an input (`DialogChoice`, `PromptChoice`, `PuppetChoice`, `GMChoice`, a `proceed` flag). The 10-second auto-close of the Fallen Puppet prompt is the skip choice.
- Dice totals are parameters. Each one the model uses is required to be a total its dice can roll: one hemocraft die for `rollHPCost` and the amplification cost, one or two for the Marked bonus. `rollHemocraft` only posts a roll to chat and is left out. The bonus rolls of `addPredatoryStrikesMidiQOL` and `addCrimsonRiteDamage` are left out with the midi-qol hooks that call them.
- Localization (`game.i18n.localize/format`) is a function parameter or a text parameter.
- Lowercasing folds ASCII letters only. Accented capitals in the French keywords are not folded, as JavaScript's `toLowerCase` would fold them.
- Chat messages are left out: `ChatMessage.create`, `createCurseChatMessage`, `createTransformationMessage`, and the blood-lust reminder of `checkBloodLust` with its level-18 advantage line. They only display text.
- Hook registrations are left out: blood-hunter.js, midi-integration.js, every `Hooks.on`, the lycan damage hook and the midi-qol predatory strikes variant `addPredatoryStrikesMidiQOL`. Their handlers are modelled as the operations they call.
- The socket transport is an outbox sequence: no delivery, ordering or concurrency.
- Canvas distances and the placeables list are inputs. The Fallen Puppet trigger loop is evaluated on the state before the first prompt. It differs only if two tokens share one actor.
- `actor.applyDamage` is modelled as HP minus the cost; temporary HP is not modelled.
- Document ids, the actor uuid and the host's default `transfer` value are parameters. Host exceptions are failure inputs (`HostFailure`, a `chatFails` flag, per-index failure functions).
- MaledictResources.ConsumeEffect: `system.uses.value` is a stored field of its own, not derived from `spent` as the host derives it. After a consume, the model keeps the old `value`, while the host would show `max - spent`. So the model does not state that `canUseBloodMaledict` turns false after the last charge.
- `executeCurseEffect` calls the Fallen Puppet curse with the wrong arguments. Whether that call completes is an input, and its effects are left abstract.
- The feature-description text built by `createRiteFeatureData` is modelled without its whitespace layout.
- Only the hybrid icon and the one-hour duration of `TRANSFORMATION_FORMS` are used by the code and modelled.
- curse-of-the-anxious.js only shows notifications; it is a notice in the dispatch.
- Build tooling, facades and re-export files contain no rule logic.
- RiteDetection.CleanName: the cleaning regex is modelled exactly only for names without line terminators; for other names the contract states only that the result is a prefix.
- OrderLycan.HasPredatoryStrikes: the contract states one direction; the other is covered by TransformGrantsPredatoryStrikes for effects created by a transform.
- Utils.FormatDuration: the contract for zero is stated here and positive durations in FormatDurationPositive; negative durations are computed as the source does but no property is stated.
