// scripts/integrations.js: the record and text builders the rite and curse
// code hands to the host and to DAE / midi-qol, and the two helpers that
// write into host configuration objects.
//
// Whether DAE or midi-qol is active is a parameter; localized effect names
// are parameters.

module Integrations {
  import opened Common
  import opened Documents

  // ------------------------------------------------------------- icons

  const FlameIcon := "icons/magic/fire/flame-burning-hand-purple.webp"

  /** The `icons` object of `getRiteIcon`, in key order. */
  const RiteIcons: seq<(string, string)> := [
    ("flame", FlameIcon),
    ("frozen", "icons/magic/water/ice-snowflake-white.webp"),
    ("storm", "icons/magic/lightning/bolt-strike-blue.webp"),
    ("corrosion", "icons/magic/acid/dissolve-bone-white.webp"),
    ("toxin", "icons/magic/death/skull-poison-green.webp"),
    ("dead", "icons/magic/death/skull-shadow-black.webp"),
    ("oracle", "icons/magic/perception/eye-tendrils-purple.webp"),
    ("dawn", "icons/magic/holy/angel-winged-humanoid-blue.webp"),
    ("roar", "icons/magic/sonic/explosion-shock-sound-wave.webp")
  ]

  function IconLookup(table: seq<(string, string)>, key: string): (r: Option<string>)
    ensures r.Some? ==> (key, r.value) in table
    ensures r.None? ==> forall k :: 0 <= k < |table| ==> table[k].0 != key
  {
    if |table| == 0 then None
    else if table[0].0 == key then Some(table[0].1)
    else IconLookup(table[1..], key)
  }

  /** `getRiteIcon(riteType)`: `icons[riteType] || flame`. */
  function RiteIcon(riteType: string): (icon: string)
    ensures icon != ""
  {
    match IconLookup(RiteIcons, riteType)
    case Some(i) => if i == "" then FlameIcon else i
    case None => FlameIcon
  }

  /** Every one of the nine rite types has its own icon, and any other type
      falls back to the flame icon. */
  lemma RiteIconCases(riteType: string)
    ensures riteType !in ["flame", "frozen", "storm", "corrosion", "toxin", "dead", "oracle", "dawn", "roar"] ==>
      RiteIcon(riteType) == FlameIcon
    ensures forall k :: 0 <= k < |RiteIcons| ==> RiteIcon(RiteIcons[k].0) == RiteIcons[k].1
  {
    RiteIconFallback(riteType);
    RiteIconsFound();
  }

  /** A type that is not one of the nine gets the flame icon. */
  lemma RiteIconFallback(riteType: string)
    ensures riteType !in ["flame", "frozen", "storm", "corrosion", "toxin", "dead", "oracle", "dawn", "roar"] ==>
      RiteIcon(riteType) == FlameIcon
  {
  }

  /** Each of the nine types gets its own entry's icon. */
  lemma RiteIconsFound()
    ensures forall k :: 0 <= k < |RiteIcons| ==> RiteIcon(RiteIcons[k].0) == RiteIcons[k].1
  {
    RiteIconKeysDistinct();
    RiteIconsNonEmpty();
    forall k | 0 <= k < |RiteIcons|
      ensures RiteIcon(RiteIcons[k].0) == RiteIcons[k].1
    {
      IconLookupAt(RiteIcons, k);
    }
  }

  /** Every icon of the table is a non-empty path. */
  lemma RiteIconsNonEmpty()
    ensures forall k :: 0 <= k < |RiteIcons| ==> RiteIcons[k].1 != ""
  {
  }

  /** No rite type has two entries in the icon table. */
  lemma RiteIconKeysDistinct()
    ensures forall i, j :: 0 <= i < j < |RiteIcons| ==> RiteIcons[i].0 != RiteIcons[j].0
  {
  }

  /** In a table without repeated keys, each entry's key looks up that entry. */
  lemma {:induction false} IconLookupAt(table: seq<(string, string)>, k: nat)
    requires k < |table|
    requires forall i, j :: 0 <= i < j < |table| ==> table[i].0 != table[j].0
    ensures IconLookup(table, table[k].0) == Some(table[k].1)
  {
    if k > 0 {
      assert table[0].0 != table[k].0;
      IconLookupAt(table[1..], k - 1);
    }
  }

  // -------------------------------------------------------------- JSON

  const HexDigits := "0123456789abcdef"

  /** One character as `JSON.stringify` writes it inside a string literal. */
  function JsonChar(c: char): (r: string)
    ensures |r| >= 1
  {
    if c == '"' then "\\\""
    else if c == '\\' then "\\\\"
    else if c == '\U{8}' then "\\b"
    else if c == '\U{C}' then "\\f"
    else if c == '\n' then "\\n"
    else if c == '\r' then "\\r"
    else if c == '\t' then "\\t"
    else if c < ' ' then "\\u00" + [HexDigits[c as int / 16], HexDigits[c as int % 16]]
    else [c]
  }

  /** A character `JSON.stringify` copies unchanged. */
  predicate PlainJsonChar(c: char)
  {
    c != '"' && c != '\\' && c >= ' '
  }

  function JsonEscaped(s: string): (r: string)
    ensures |r| >= |s|
  {
    if |s| == 0 then "" else JsonChar(s[0]) + JsonEscaped(s[1..])
  }

  /** `JSON.stringify(s)` for a string. */
  function JsonString(s: string): string
  {
    "\"" + JsonEscaped(s) + "\""
  }

  /** `JSON.stringify([a, b])` for two strings. */
  function JsonPair(a: string, b: string): string
  {
    "[" + JsonString(a) + "," + JsonString(b) + "]"
  }

  /** A string of plain characters is written as itself between quotes. */
  lemma {:induction false} JsonPlain(s: string)
    requires forall i :: 0 <= i < |s| ==> PlainJsonChar(s[i])
    ensures JsonEscaped(s) == s
    ensures JsonString(s) == "\"" + s + "\""
  {
    if |s| > 0 {
      JsonPlain(s[1..]);
      assert JsonChar(s[0]) == [s[0]];
      assert s == [s[0]] + s[1..];
    }
  }

  /** A quote or backslash inside the text never ends the literal early: the
      escaped text has a backslash in front of each of them. */
  lemma JsonQuoteEscaped(s: string)
    requires |s| > 0 && s[0] == '"'
    ensures StartsWith(JsonEscaped(s), "\\\"")
  {
  }

  // ------------------------------------------------------ rite effect

  /** `createCrimsonRiteEffect(riteType, damageType, riteDamage, weaponId,
      actor)`: `name` is the localized "title - rite" text, `origin` the
      actor's uuid and `id` the id the host gives the created effect. */
  function CrimsonRiteEffect(riteType: string, damageType: string, riteDamage: string, weaponId: string,
                             origin: string, name: string, daeActive: bool, id: string): (e: Effect)
    ensures e.id == id && e.transfer
    ensures e.flags == RiteEffectFlags(riteType, damageType, riteDamage, weaponId)
    ensures e.duration == Duration(None, None)
    ensures e.icon == RiteIcon(riteType) && e.origin == origin
    ensures !daeActive ==> e.changes == [] && e.specialDuration == []
    ensures daeActive ==>
      e.changes == [Change("system.damage.parts", Add, TextValue(JsonPair(riteDamage, damageType)), 20)] &&
      e.specialDuration == ["shortRest", "longRest"]
  {
    Effect(id, name, RiteIcon(riteType), origin,
           if daeActive then [Change("system.damage.parts", Add, TextValue(JsonPair(riteDamage, damageType)), 20)]
           else [],
           Duration(None, None), RiteEffectFlags(riteType, damageType, riteDamage, weaponId),
           if daeActive then ["shortRest", "longRest"] else [], true)
  }

  /** With DAE, the weapon's damage gains the pair `[die, type]`: for a die
      and a damage type of plain characters the change value is exactly
      `["<die>","<type>"]`. */
  lemma RiteDamageChange(riteDamage: string, damageType: string)
    requires forall i :: 0 <= i < |riteDamage| ==> PlainJsonChar(riteDamage[i])
    requires forall i :: 0 <= i < |damageType| ==> PlainJsonChar(damageType[i])
    ensures JsonPair(riteDamage, damageType) == "[\"" + riteDamage + "\",\"" + damageType + "\"]"
  {
    JsonPlain(riteDamage);
    JsonPlain(damageType);
    var q := "\"";
    assert "[" + q == "[\"" && q + "," + q == "\",\"" && q + "]" == "\"]";
    Regroup("[", q, riteDamage, ",", damageType, "]");
  }

  /** Two quoted texts between an opening, a separator and a closing text,
      with each quote moved into its neighbour. */
  lemma Regroup<T>(opening: seq<T>, q: seq<T>, a: seq<T>, sep: seq<T>, b: seq<T>, close: seq<T>)
    ensures opening + (q + a + q) + sep + (q + b + q) + close == (opening + q) + a + (q + sep + q) + b + (q + close)
  {
  }

  // ------------------------------------------------------------ macros

  /** The macro data; a missing id is rendered `undefined` by the template. */
  datatype MacroData = MacroData(actorId: Option<string>, itemId: Option<string>, curseId: Option<string>)

  /** A template-literal interpolation of a possibly missing value. */
  function Interpolate(v: Option<string>): string
  {
    match v
    case None => "undefined"
    case Some(s) => s
  }

  /** `game.actors.get("<id>")` and `actor.items.get("<id>")` as the macros
      write them. */
  function ActorLookup(actorId: string): string
  {
    "game.actors.get(\"" + actorId + "\")"
  }

  function ItemLookup(itemId: string): string
  {
    "actor.items.get(\"" + itemId + "\")"
  }

  /** The fixed text around the two lookups of each macro. */
  const CrimsonRiteHead := "// Crimson Rite Activation Macro\n(async () => {\n  const actor = "
  const CrimsonRiteMiddle := ";\n  const item = "
  const CrimsonRiteTail :=
    ";\n\n  if (!actor || !item) {\n    ui.notifications.error(\"Actor or item not found\");\n    return;\n  }\n\n" +
    "  // Call the Crimson Rite dialog\n  game.bloodhunter.CrimsonRite.activateDialog(actor);\n})();"
  const BloodCurseHead := "// Blood Curse Macro\n(async () => {\n  const actor = "
  const BloodCurseMiddle := ";\n  const curse = "
  const BloodCurseTail :=
    ";\n\n  if (!actor || !curse) {\n    ui.notifications.error(\"Actor or curse not found\");\n    return;\n  }\n\n" +
    "  // Execute the Blood Curse\n  game.bloodhunter.BloodCurse.execute(actor, curse);\n})();"

  /** `createCrimsonRiteMacro(data)`, after `trim()`. */
  function CrimsonRiteMacro(data: MacroData): string
  {
    CrimsonRiteHead + ActorLookup(Interpolate(data.actorId)) + CrimsonRiteMiddle +
    ItemLookup(Interpolate(data.itemId)) + CrimsonRiteTail
  }

  /** `createBloodCurseMacro(data)`, after `trim()`. */
  function BloodCurseMacro(data: MacroData): string
  {
    BloodCurseHead + ActorLookup(Interpolate(data.actorId)) + BloodCurseMiddle +
    ItemLookup(Interpolate(data.curseId)) + BloodCurseTail
  }

  /** `createItemMacro(macroType, data)` */
  function ItemMacro(macroType: string, data: MacroData): (code: string)
    ensures macroType == "crimsonRite" ==> code == CrimsonRiteMacro(data)
    ensures macroType == "bloodCurse" ==> code == BloodCurseMacro(data)
    ensures macroType != "crimsonRite" && macroType != "bloodCurse" ==> code == ""
  {
    if macroType == "crimsonRite" then CrimsonRiteMacro(data)
    else if macroType == "bloodCurse" then BloodCurseMacro(data)
    else ""
  }

  /** The parts of `p + x + q + y + r` include `x` and `y`. */
  lemma ContainsParts(p: string, x: string, q: string, y: string, r: string)
    ensures Contains(p + x + q + y + r, x)
    ensures Contains(p + x + q + y + r, y)
  {
    var s := p + x + q + y + r;
    assert s[|p|..|p| + |x|] == x;
    ContainsAt(s, x, |p|);
    assert s[|p + x + q|..|p + x + q| + |y|] == y;
    ContainsAt(s, y, |p + x + q|);
  }

  /** Both macros look the actor up by the given id, quoted verbatim, and
      then the item or the curse by its id; a missing id becomes the text
      `undefined`. */
  lemma MacrosEmbedIds(data: MacroData)
    ensures Contains(CrimsonRiteMacro(data), ActorLookup(Interpolate(data.actorId)))
    ensures Contains(CrimsonRiteMacro(data), ItemLookup(Interpolate(data.itemId)))
    ensures Contains(BloodCurseMacro(data), ActorLookup(Interpolate(data.actorId)))
    ensures Contains(BloodCurseMacro(data), ItemLookup(Interpolate(data.curseId)))
  {
    ContainsParts(CrimsonRiteHead, ActorLookup(Interpolate(data.actorId)), CrimsonRiteMiddle,
                  ItemLookup(Interpolate(data.itemId)), CrimsonRiteTail);
    ContainsParts(BloodCurseHead, ActorLookup(Interpolate(data.actorId)), BloodCurseMiddle,
                  ItemLookup(Interpolate(data.curseId)), BloodCurseTail);
  }

  // ------------------------------------------------- midi-qol item data

  /** A scope of an item's `flags` object. */
  datatype FlagScope =
    | MidiQolScope(onUseMacroName: string, effectActivation: bool)
    | OtherScope(content: string)

  /** Item creation data whose `flags` object may be missing. */
  class ItemData {
    var flags: Option<map<string, FlagScope>>
  }

  /** `enhanceItemForMidiQOL(itemData, macroCode)`: without midi-qol the data
      is returned untouched; with it, `flags['midi-qol']` is set on the same
      object (creating `flags` when missing) and every other scope is kept. */
  method EnhanceItemForMidiQOL(itemData: ItemData, macroCode: string, midiQolActive: bool) returns (r: ItemData)
    modifies itemData
    ensures r == itemData
    ensures !midiQolActive ==> itemData.flags == old(itemData.flags)
    ensures midiQolActive ==>
      itemData.flags.Some? &&
      itemData.flags.value == (if old(itemData.flags).Some? then old(itemData.flags).value else map[])
                                ["midi-qol" := MidiQolScope(macroCode, true)]
    ensures midiQolActive && old(itemData.flags).Some? ==>
      forall key :: key in old(itemData.flags).value && key != "midi-qol" ==>
        key in itemData.flags.value && itemData.flags.value[key] == old(itemData.flags).value[key]
  {
    if !midiQolActive {
      return itemData;
    }
    var flags := if itemData.flags.Some? then itemData.flags.value else map[];
    itemData.flags := Some(flags["midi-qol" := MidiQolScope(macroCode, true)]);
    return itemData;
  }

  // --------------------------------------------------- damage types

  /** `CONFIG.DND5E.damageTypes`: key to label; "" is a falsy entry. */
  class DamageTypeConfig {
    var damageTypes: map<string, string>
  }

  /** The `customTypes` object of `registerCustomDamageTypes`. */
  const CustomTypes: seq<(string, string)> := [("hemocraft", "Hemocraft")]

  /** The configuration after registering `entries`, in order, each only
      when its key is absent or falsy. */
  function Registered(m: map<string, string>, entries: seq<(string, string)>): map<string, string>
  {
    if |entries| == 0 then m
    else
      var prev := Registered(m, entries[..|entries| - 1]);
      var e := entries[|entries| - 1];
      if e.0 !in prev || prev[e.0] == "" then prev[e.0 := e.1] else prev
  }

  /** Registration never overwrites a set entry, always leaves `hemocraft`
      set, and registering twice changes nothing more. */
  lemma RegisteredProperties(m: map<string, string>)
    ensures forall key :: key in m && m[key] != "" ==>
      key in Registered(m, CustomTypes) && Registered(m, CustomTypes)[key] == m[key]
    ensures "hemocraft" in Registered(m, CustomTypes) && Registered(m, CustomTypes)["hemocraft"] != ""
    ensures "hemocraft" !in m || m["hemocraft"] == "" ==> Registered(m, CustomTypes)["hemocraft"] == "Hemocraft"
    ensures Registered(m, CustomTypes).Keys == m.Keys + {"hemocraft"}
    ensures Registered(Registered(m, CustomTypes), CustomTypes) == Registered(m, CustomTypes)
  {
    assert CustomTypes[..0] == [];
  }

  /** `registerCustomDamageTypes()`: the loop over the custom types. */
  method RegisterCustomDamageTypes(config: DamageTypeConfig)
    modifies config
    ensures config.damageTypes == Registered(old(config.damageTypes), CustomTypes)
  {
    var i := 0;
    while i < |CustomTypes|
      invariant 0 <= i <= |CustomTypes|
      invariant config.damageTypes == Registered(old(config.damageTypes), CustomTypes[..i])
    {
      var key := CustomTypes[i].0;
      var title := CustomTypes[i].1;
      assert CustomTypes[..i + 1][..i] == CustomTypes[..i];
      if key !in config.damageTypes || config.damageTypes[key] == "" {
        config.damageTypes := config.damageTypes[key := title];
      }
      i := i + 1;
    }
    assert CustomTypes[..|CustomTypes|] == CustomTypes;
  }
}
