// scripts/blood-curse/maledict-resources.js: the Blood Maledict charge
// counter shared by every curse of the refactored generation. The counter is
// the `system.uses` of one feature: `max` is re-derived from the Blood Hunter
// level and written as a string, `spent` counts the charges used.

module MaledictResources {
  import opened Common
  import opened Documents
  import Utils

  // ------------------------------------------------------------- lookup

  predicate IsMaledictFeature(i: Item)
  {
    i.IsFeat() && (Contains(Lower(i.name), "blood maledict") || i.identifier == "blood-maledict")
  }

  /** `getBloodMaledictFeature(actor)`: the position of the first such feat. */
  function MaledictFeature(items: seq<Item>): (r: Option<nat>)
    ensures r.Some? ==> r.value < |items| && IsMaledictFeature(items[r.value])
    ensures r.Some? ==> forall k :: 0 <= k < r.value ==> !IsMaledictFeature(items[k])
    ensures r.None? ==> forall k :: 0 <= k < |items| ==> !IsMaledictFeature(items[k])
  {
    if |items| == 0 then None
    else if IsMaledictFeature(items[0]) then Some(0)
    else match MaledictFeature(items[1..])
      case None => None
      case Some(k) => Some(k + 1)
  }

  /** `getBloodMaledictMaxUses(actor)` for the actor's Blood Hunter level. */
  function MaxUses(level: int): (r: nat)
    ensures 1 <= r <= 4
    ensures level < 6 ==> r == 1
    ensures 6 <= level < 13 ==> r == 2
    ensures 13 <= level < 17 ==> r == 3
    ensures 17 <= level ==> r == 4
  {
    if level >= 17 then 4 else if level >= 13 then 3 else if level >= 6 then 2 else 1
  }

  lemma MaxUsesMonotone(lo: int, hi: int)
    requires lo <= hi
    ensures MaxUses(lo) <= MaxUses(hi)
  {
  }

  /** The expected max for the actor whose items these are. */
  function ExpectedMax(items: seq<Item>): nat
  {
    MaxUses(Utils.BloodHunterLevelOf(items))
  }

  // ------------------------------------------------------- availability

  /** `hasUsesRemaining(actor)`: reads `spent` when it is defined and `value`
      otherwise; with no feature or no max it allows the curse. */
  predicate HasUsesRemaining(items: seq<Item>)
  {
    match MaledictFeature(items)
    case None => true
    case Some(k) =>
      var uses := items[k].uses;
      if uses.max.Truthy() then
        if uses.spent.Some? then uses.max.Numeric() - uses.SpentOrZero() > 0 else uses.value > 0
      else true
  }

  /** The permissive default and the two ways of counting what is left. */
  lemma HasUsesRemainingCases(items: seq<Item>)
    ensures MaledictFeature(items).None? ==> HasUsesRemaining(items)
    ensures MaledictFeature(items).Some? && !items[MaledictFeature(items).value].uses.max.Truthy() ==>
      HasUsesRemaining(items)
    ensures MaledictFeature(items).Some? ==>
      var u := items[MaledictFeature(items).value].uses;
      u.max.Truthy() && u.spent.Some? ==> (HasUsesRemaining(items) <==> u.SpentOrZero() < u.max.Numeric())
  {
  }

  // ------------------------------------------------------- max re-sync

  /** The string the stored max is compared with: only a string can be
      strictly equal to `expectedMax.toString()`. */
  function StoredText(max: MaxField): Option<string>
  {
    if max.TextMax? then Some(Decimal(max.n)) else None
  }

  /** `currentMax !== expectedMax.toString()`: strict inequality on the
      stored value, which holds exactly when the max is not already the
      expected number written as a string. */
  function NeedsMaxUpdate(max: MaxField, expected: nat): (r: bool)
    ensures r <==> max != TextMax(expected)
  {
    DecimalInjective(if max.TextMax? then max.n else 0, expected);
    StoredText(max) != Some(Decimal(expected))
  }

  function WithMax(i: Item, n: nat): (r: Item)
  {
    i.(uses := i.uses.(max := TextMax(n)))
  }

  function WithSpent(i: Item, spent: int): (r: Item)
  {
    i.(uses := i.uses.(spent := Some(spent)))
  }

  /** The items after `updateBloodMaledictMaxUses`. */
  function SyncMax(items: seq<Item>): (r: seq<Item>)
    ensures |r| == |items|
    ensures MaledictFeature(items).None? ==> r == items
    ensures MaledictFeature(items).Some? ==>
      var k := MaledictFeature(items).value;
      r == items[k := WithMax(items[k], ExpectedMax(items))]
  {
    match MaledictFeature(items)
    case None => items
    case Some(k) =>
      if NeedsMaxUpdate(items[k].uses.max, ExpectedMax(items)) then items[k := WithMax(items[k], ExpectedMax(items))]
      else items
  }

  /** What `updateBloodMaledictMaxUses` returns: whether it wrote anything. */
  function SyncMaxChanged(items: seq<Item>): (r: bool)
    ensures r <==> SyncMax(items) != items
  {
    match MaledictFeature(items)
    case None => false
    case Some(k) =>
      var b := NeedsMaxUpdate(items[k].uses.max, ExpectedMax(items));
      assert b ==> SyncMax(items)[k] != items[k];
      b
  }

  /** Changing a feat's uses changes neither which feat is the Blood
      Maledict feature nor the Blood Hunter level. */
  lemma {:induction false} ReplaceUsesKeepsLookup(items: seq<Item>, k: nat, u: Uses)
    requires k < |items| && items[k].IsFeat()
    ensures MaledictFeature(items[k := items[k].(uses := u)]) == MaledictFeature(items)
    ensures Utils.BloodHunterLevelOf(items[k := items[k].(uses := u)]) == Utils.BloodHunterLevelOf(items)
  {
    var items' := items[k := items[k].(uses := u)];
    assert forall j :: 0 <= j < |items| ==>
      (IsMaledictFeature(items'[j]) <==> IsMaledictFeature(items[j])) &&
      (Utils.IsBloodHunterClass(items'[j]) <==> Utils.IsBloodHunterClass(items[j]));
    MaledictFeatureSameTests(items, items');
    Utils.FirstClassSameTests(items, items');
  }

  lemma {:induction false} MaledictFeatureSameTests(a: seq<Item>, b: seq<Item>)
    requires |a| == |b|
    requires forall j :: 0 <= j < |a| ==> (IsMaledictFeature(a[j]) <==> IsMaledictFeature(b[j]))
    ensures MaledictFeature(a) == MaledictFeature(b)
  {
    if |a| > 0 {
      MaledictFeatureSameTests(a[1..], b[1..]);
    }
  }

  /** An immediate second re-sync writes nothing and reports false. */
  lemma SyncMaxIdempotent(items: seq<Item>)
    ensures !SyncMaxChanged(SyncMax(items))
    ensures SyncMax(SyncMax(items)) == SyncMax(items)
    ensures MaledictFeature(items).Some? ==>
      SyncMax(items)[MaledictFeature(items).value].uses.max == TextMax(ExpectedMax(items))
  {
    match MaledictFeature(items)
    case None =>
    case Some(k) =>
      ReplaceUsesKeepsLookup(items, k, items[k].uses.(max := TextMax(ExpectedMax(items))));
  }

  // ------------------------------------------------------------ consume

  /** `min((spent || 0) + 1, max)`, the spent count after one charge. */
  function Spend(uses: Uses): int
    requires uses.max.Truthy()
  {
    if uses.SpentOrZero() + 1 <= uses.max.Numeric() then uses.SpentOrZero() + 1 else uses.max.Numeric()
  }

  /** The second half of a consume, on the re-synced items. */
  function SpendAt(synced: seq<Item>, k: nat): (r: seq<Item>)
    requires k < |synced|
    ensures |r| == |synced|
  {
    var uses := synced[k].uses;
    if uses.max.Truthy() then synced[k := WithSpent(synced[k], Spend(uses))] else synced
  }

  /** The items after `consumeBloodMaledictUse`: re-sync the max, then
      `spent := min((spent || 0) + 1, max)`. */
  function ConsumeItems(items: seq<Item>): (r: seq<Item>)
    ensures |r| == |items|
  {
    match MaledictFeature(items)
    case None => items
    case Some(k) => SpendAt(SyncMax(items), k)
  }

  /** What `consumeBloodMaledictUse` returns. */
  function ConsumeResult(items: seq<Item>): (r: bool)
  {
    match MaledictFeature(items)
    case None => false
    case Some(k) => SyncMax(items)[k].uses.max.Truthy()
  }

  /** The counter after a consume: with no feature nothing changes and the
      result is false; otherwise the result is true (a re-synced max is a
      non-empty string, so the `return false` after it is never reached),
      `max` is the level's value and `spent` is clamped at it. */
  lemma ConsumeEffect(items: seq<Item>)
    ensures MaledictFeature(items).None? ==> !ConsumeResult(items) && ConsumeItems(items) == items
    ensures MaledictFeature(items).Some? ==>
      var k := MaledictFeature(items).value;
      var before := items[k].uses;
      var after := ConsumeItems(items)[k].uses;
      var m := ExpectedMax(items);
      ConsumeResult(items) &&
      after.max == TextMax(m) &&
      after.spent == Some(if before.SpentOrZero() + 1 <= m then before.SpentOrZero() + 1 else m) &&
      after.value == before.value &&
      ConsumeItems(items) == items[k := items[k].(uses := after)]
  {
    if MaledictFeature(items).Some? {
      ConsumeAt(items, MaledictFeature(items).value);
    }
  }

  /** A consume on the feature at `k`, as one record update. */
  lemma ConsumeAt(items: seq<Item>, k: nat)
    requires MaledictFeature(items) == Some(k)
    ensures var m := ExpectedMax(items);
      var before := items[k].uses;
      var newSpent := if before.SpentOrZero() + 1 <= m then before.SpentOrZero() + 1 else m;
      ConsumeResult(items) &&
      ConsumeItems(items) == items[k := items[k].(uses := before.(max := TextMax(m), spent := Some(newSpent)))]
  {
    SpendAfterSync(items, k, ExpectedMax(items));
  }

  /** Re-syncing the max at `k` to `m` and then spending a charge is one
      update of the uses at `k`. */
  lemma SpendAfterSync(items: seq<Item>, k: nat, m: nat)
    requires k < |items|
    ensures var before := items[k].uses;
      var newSpent := if before.SpentOrZero() + 1 <= m then before.SpentOrZero() + 1 else m;
      var synced := items[k := WithMax(items[k], m)];
      synced[k].uses.max.Truthy() &&
      SpendAt(synced, k) == items[k := items[k].(uses := before.(max := TextMax(m), spent := Some(newSpent)))]
  {
    var synced := items[k := WithMax(items[k], m)];
    var before := items[k].uses;
    var newSpent := if before.SpentOrZero() + 1 <= m then before.SpentOrZero() + 1 else m;
    assert Spend(synced[k].uses) == newSpent;
    UpdateTwice(items, k, WithMax(items[k], m), items[k].(uses := before.(max := TextMax(m), spent := Some(newSpent))));
  }

  /** `spent` never exceeds `max` after a consume; at the limit a consume is
      a no-op on `spent` that still reports success; and `spent` only goes
      down when it was already above the (re-synced) max. */
  lemma ConsumeClamps(items: seq<Item>)
    requires MaledictFeature(items).Some?
    ensures var k := MaledictFeature(items).value;
      var before := items[k].uses.SpentOrZero();
      var after := ConsumeItems(items)[k].uses.SpentOrZero();
      var m := ExpectedMax(items);
      after <= m &&
      (before == m ==> after == m && ConsumeResult(items)) &&
      (before <= m ==> after >= before) &&
      (before > m ==> after == m)
  {
    ConsumeEffect(items);
  }

  /** After a consume, charges remain exactly when the spent count before it,
      plus the one just used, was still below the level's max. */
  lemma {:induction false} ConsumeThenRemaining(items: seq<Item>)
    requires MaledictFeature(items).Some?
    ensures var k := MaledictFeature(items).value;
      HasUsesRemaining(ConsumeItems(items)) <==> items[k].uses.SpentOrZero() + 1 < ExpectedMax(items)
  {
    var k := MaledictFeature(items).value;
    ConsumeEffect(items);
    var after := ConsumeItems(items)[k].uses;
    ReplaceUsesKeepsLookup(items, k, after);
  }

  // ------------------------------------------------------------ methods

  /** `updateBloodMaledictMaxUses(actor)`. */
  method UpdateMaxUses(actor: Actor) returns (updated: bool)
    modifies actor
    ensures actor.items == SyncMax(old(actor.items))
    ensures updated == SyncMaxChanged(old(actor.items))
    ensures actor.effects == old(actor.effects) && actor.hp == old(actor.hp)
  {
    var feature := MaledictFeature(actor.items);
    if feature.None? {
      return false;
    }
    var k := feature.value;
    var expectedMax := MaxUses(Utils.BloodHunterLevelOf(actor.items));
    var currentMax := actor.items[k].uses.max;
    if StoredText(currentMax) != Some(Decimal(expectedMax)) {
      actor.items := actor.items[k := WithMax(actor.items[k], expectedMax)];
      return true;
    }
    return false;
  }

  /** `consumeBloodMaledictUse(actor)`: re-sync the max, then use one charge. */
  method ConsumeUse(actor: Actor) returns (consumed: bool)
    modifies actor
    ensures actor.items == ConsumeItems(old(actor.items))
    ensures consumed == ConsumeResult(old(actor.items))
    ensures actor.effects == old(actor.effects) && actor.hp == old(actor.hp)
  {
    var feature := MaledictFeature(actor.items);
    if feature.None? {
      return false;
    }
    var k := feature.value;
    var _ := UpdateMaxUses(actor);
    ReplaceUsesKeepsLookup(old(actor.items), k, actor.items[k].uses);
    var uses := actor.items[k].uses;
    if uses.max.Truthy() {
      var currentSpent := uses.SpentOrZero();
      var newSpent := if currentSpent + 1 <= uses.max.Numeric() then currentSpent + 1 else uses.max.Numeric();
      actor.items := actor.items[k := WithSpent(actor.items[k], newSpent)];
      return true;
    }
    return false;
  }

  /** `resetCurseUses(combat, updateData)`: kept for compatibility and does
      nothing; no charge is ever given back. */
  method ResetCurseUses(combatant: Actor?)
    ensures combatant != null ==> combatant.items == old(combatant.items)
  {
  }
}
