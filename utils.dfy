// scripts/utils.js: class detection, level, hemocraft die, order lookup and
// small formatting helpers shared by every other part of the plugin.

module Utils {
  import opened Common
  import opened Documents

  // ------------------------------------------------------- class and level

  /** A `class` item that is the Blood Hunter class. */
  predicate IsBloodHunterClass(i: Item)
  {
    i.itemType == "class" && (Contains(Lower(i.name), "blood hunter") || i.identifier == "bloodhunter")
  }

  predicate HasBloodHunterClass(items: seq<Item>)
  {
    exists k :: 0 <= k < |items| && IsBloodHunterClass(items[k])
  }

  /** `isBloodHunter(actor)`; false for a null actor. */
  predicate IsBloodHunter(actor: Actor?)
    reads actor
  {
    actor != null && HasBloodHunterClass(actor.items)
  }

  /** `actor.items.find(...)` for the Blood Hunter class: its position. */
  function FirstBloodHunterClass(items: seq<Item>): (r: Option<nat>)
    ensures r.Some? <==> HasBloodHunterClass(items)
    ensures r.Some? ==> r.value < |items| && IsBloodHunterClass(items[r.value])
    ensures r.Some? ==> forall k :: 0 <= k < r.value ==> !IsBloodHunterClass(items[k])
  {
    if |items| == 0 then None
    else if IsBloodHunterClass(items[0]) then Some(0)
    else
      var rest := FirstBloodHunterClass(items[1..]);
      assert HasBloodHunterClass(items) ==> HasBloodHunterClass(items[1..]) by {
        if HasBloodHunterClass(items) {
          var k :| 0 <= k < |items| && IsBloodHunterClass(items[k]);
          assert items[1..][k - 1] == items[k];
        }
      }
      match rest
      case None => None
      case Some(k) => Some(k + 1)
  }

  /** `getBloodHunterLevel(actor)`: `levels || 0` of the first Blood Hunter class. */
  function BloodHunterLevelOf(items: seq<Item>): (r: int)
    ensures !HasBloodHunterClass(items) ==> r == 0
    ensures HasBloodHunterClass(items) ==> r == items[FirstBloodHunterClass(items).value].levels
  {
    match FirstBloodHunterClass(items)
    case None => 0
    case Some(k) => items[k].levels
  }

  /** Items appended behind an actor's Blood Hunter class (new features, say)
      never change its Blood Hunter level. */
  lemma LevelKeptByAppend(items: seq<Item>, extra: seq<Item>)
    requires HasBloodHunterClass(items)
    ensures BloodHunterLevelOf(items + extra) == BloodHunterLevelOf(items)
  {
    var k := FirstBloodHunterClass(items).value;
    assert (items + extra)[k] == items[k];
    var r := FirstBloodHunterClass(items + extra);
    assert r.Some? && r.value <= k;
    assert items[r.value] == (items + extra)[r.value];
  }

  /** Changing one item while keeping its type, name, identifier and levels
      (its effects or module flags, say) keeps the Blood Hunter level. */
  lemma LevelKeptByUpdate(items: seq<Item>, w: nat, x: Item)
    requires w < |items|
    requires x.itemType == items[w].itemType && x.name == items[w].name
    requires x.identifier == items[w].identifier && x.levels == items[w].levels
    ensures BloodHunterLevelOf(items[w := x]) == BloodHunterLevelOf(items)
  {
    var after := items[w := x];
    assert forall k :: 0 <= k < |items| ==>
      (IsBloodHunterClass(after[k]) <==> IsBloodHunterClass(items[k])) && after[k].levels == items[k].levels;
    FirstClassSameTests(items, after);
  }

  /** Two item lists whose items agree, position by position, on being a
      Blood Hunter class and on their levels give the same level. */
  lemma {:induction false} FirstClassSameTests(a: seq<Item>, b: seq<Item>)
    requires |a| == |b|
    requires forall j :: 0 <= j < |a| ==> a[j].levels == b[j].levels
    requires forall j :: 0 <= j < |a| ==> (IsBloodHunterClass(a[j]) <==> IsBloodHunterClass(b[j]))
    ensures FirstBloodHunterClass(a) == FirstBloodHunterClass(b)
    ensures BloodHunterLevelOf(a) == BloodHunterLevelOf(b)
  {
    if |a| > 0 {
      FirstClassSameTests(a[1..], b[1..]);
    }
  }

  function BloodHunterLevel(actor: Actor?): (r: int)
    reads actor
    ensures !IsBloodHunter(actor) ==> r == 0
  {
    if actor == null then 0 else BloodHunterLevelOf(actor.items)
  }

  // -------------------------------------------------------- hemocraft die

  /** The number of faces of the hemocraft die at a Blood Hunter level. */
  function HemocraftFaces(level: int): (f: nat)
    ensures f == 4 || f == 6 || f == 8 || f == 10
  {
    if level < 5 then 4 else if level < 11 then 6 else if level < 17 then 8 else 10
  }

  /** A total that `count` hemocraft dice can roll at a Blood Hunter level:
      at least one per die and at most the faces per die. */
  predicate IsHemocraftRoll(total: int, count: nat, level: int)
  {
    count <= total <= count * HemocraftFaces(level)
  }

  /** `getHemocraftDie(actor)` for the actor's Blood Hunter level. */
  function HemocraftDie(level: int): string
  {
    if level < 5 then "1d4"
    else if level < 11 then "1d6"
    else if level < 17 then "1d8"
    else "1d10"
  }

  function HemocraftDieOf(actor: Actor?): string
    reads actor
  {
    HemocraftDie(BloodHunterLevel(actor))
  }

  /** Every die is one die ("1d") of the level's faces. */
  lemma HemocraftDieShape(level: int)
    ensures HemocraftDie(level) == "1d" + Decimal(HemocraftFaces(level))
    ensures StartsWith(HemocraftDie(level), "1d")
  {
    assert Decimal(10) == Decimal(1) + [DigitChar(0)];
  }

  /** A higher level never gets a smaller die. */
  lemma HemocraftFacesMonotone(lo: int, hi: int)
    requires lo <= hi
    ensures HemocraftFaces(lo) <= HemocraftFaces(hi)
  {
  }

  // ------------------------------------------------------------- features

  /** `hasFeature(actor, name)`: a `feat` whose lowercased name contains it. */
  predicate HasFeature(items: seq<Item>, featureName: string)
  {
    exists k :: 0 <= k < |items| && items[k].IsFeat() && Contains(Lower(items[k].name), Lower(featureName))
  }

  const Orders: seq<string> := ["ghostslayer", "lycan", "mutant", "profane soul"]

  /** The first of `orders` that `hasFeature` finds. */
  function FirstOrder(items: seq<Item>, orders: seq<string>): (r: Option<string>)
    ensures r.Some? ==> r.value in orders && HasFeature(items, r.value)
    ensures r.None? <==> forall k :: 0 <= k < |orders| ==> !HasFeature(items, orders[k])
    ensures r.Some? ==> exists j :: (0 <= j < |orders| && orders[j] == r.value &&
                                     forall k :: 0 <= k < j ==> !HasFeature(items, orders[k]))
  {
    if |orders| == 0 then None
    else if HasFeature(items, orders[0]) then Some(orders[0])
    else
      var r := FirstOrder(items, orders[1..]);
      assert forall k :: 1 <= k < |orders| ==> orders[k] == orders[1..][k - 1];
      assert r.Some? ==> exists j :: (0 <= j < |orders| && orders[j] == r.value &&
                                      forall k :: 0 <= k < j ==> !HasFeature(items, orders[k])) by {
        if r.Some? {
          var j :| 0 <= j < |orders[1..]| && orders[1..][j] == r.value &&
                   forall k :: 0 <= k < j ==> !HasFeature(items, orders[1..][k]);
          assert forall k :: 0 <= k < j + 1 ==> !HasFeature(items, orders[k]);
        }
      }
      r
  }

  /** `getBloodHunterOrder(actor)`: null for a null actor. */
  function BloodHunterOrder(actor: Actor?): (r: Option<string>)
    reads actor
    ensures actor == null ==> r.None?
    ensures r.Some? ==> r.value in Orders && HasFeature(actor.items, r.value)
  {
    if actor == null then None else FirstOrder(actor.items, Orders)
  }

  // --------------------------------------------------- small calculations

  /** `calculateRiteDamage(actor, damageType)`: the die tagged with the type. */
  function RiteDamage(level: int, damageType: string): string
  {
    HemocraftDie(level) + "[" + damageType + "]"
  }

  /** The die and the damage type can be read back from the formula: the die
      ends at the first '[' and the type fills the rest up to the final ']'. */
  lemma RiteDamageParts(level: int, damageType: string)
    ensures var r := RiteDamage(level, damageType);
      var i := |HemocraftDie(level)|;
      i < |r| && r[i] == '[' && (forall k :: 0 <= k < i ==> r[k] != '[') &&
      r[..i] == HemocraftDie(level) && r[i + 1..|r| - 1] == damageType && r[|r| - 1] == ']'
  {
  }

  /** `getModifier(score)`: `Math.floor((score - 10) / 2)`. */
  function Modifier(score: int): (m: int)
    ensures 2 * m <= score - 10 < 2 * m + 2
  {
    FloorDiv(score - 10, 2)
  }

  lemma ModifierMonotone(a: int, b: int)
    requires a <= b
    ensures Modifier(a) <= Modifier(b)
  {
  }

  /** `isValidRiteWeapon(item)` */
  predicate IsValidRiteWeapon(item: Option<Item>)
  {
    item.Some? && item.value.itemType == "weapon"
  }

  /** Every weapon may carry a rite whatever its name, flags or properties:
      only the item's type decides, and a missing item never qualifies. */
  lemma RiteWeaponByTypeOnly(item: Item, other: Item)
    requires other.itemType == item.itemType
    ensures IsValidRiteWeapon(Some(item)) == IsValidRiteWeapon(Some(other))
    ensures !IsValidRiteWeapon(None)
  {
  }

  // ------------------------------------------------------------- duration

  function DurationText(hours: int, minutes: int): string
  {
    if hours > 0 then IntDecimal(hours) + "h " + IntDecimal(minutes) + "m"
    else IntDecimal(minutes) + "m"
  }

  /** `formatDuration(seconds)`; `unlimited` is the localized "Unlimited". */
  function FormatDuration(seconds: int, unlimited: string): (r: string)
    ensures seconds == 0 ==> r == unlimited
  {
    if seconds == 0 then unlimited
    else DurationText(FloorDiv(seconds, 3600), FloorDiv(JsRem(seconds, 3600), 60))
  }

  /** For a positive duration the text shows whole hours and the minutes
      left over, accounting for everything but the last partial minute. */
  lemma FormatDurationPositive(seconds: int, unlimited: string)
    requires seconds > 0
    ensures exists h: nat, m: nat :: (FormatDuration(seconds, unlimited) == DurationText(h, m) &&
                                      m < 60 && 3600 * h + 60 * m <= seconds < 3600 * h + 60 * m + 60)
    ensures seconds < 3600 ==> exists m: nat :: FormatDuration(seconds, unlimited) == Decimal(m) + "m"
  {
    var h := seconds / 3600;
    var m := (seconds % 3600) / 60;
    assert FormatDuration(seconds, unlimited) == DurationText(h, m);
  }
}
