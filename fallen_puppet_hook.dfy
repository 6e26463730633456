// scripts/blood-curse/hooks/fallen-puppet-hook.js: when a creature drops to
// 0 hit points, every Blood Hunter on the canvas who knows the Fallen Puppet
// curse, stands within 30 feet, has a Blood Maledict charge and is played
// from this client is prompted, one after the other.
//
// The loop is modelled as the selection it makes: which hunter tokens are
// prompted and in which order. Grid distances are an input.

module FallenPuppetHook {
  import opened Common
  import opened Documents
  import Utils
  import MaledictResources

  // ---------------------------------------------------------- predicates

  /** `canUseBloodMaledict`: a maledict feat with a truthy max and a positive
      `value` (or 0). It reads `value`, not `spent`. */
  predicate CanUseBloodMaledict(items: seq<Item>)
  {
    match MaledictResources.MaledictFeature(items)
    case None => false
    case Some(k) => items[k].uses.max.Truthy() && items[k].uses.value > 0
  }

  /** The three ways to say no, and that `spent` plays no part. */
  lemma CanUseBloodMaledictCases(items: seq<Item>, k: nat, spent: Option<int>)
    requires k < |items|
    ensures MaledictResources.MaledictFeature(items).None? ==> !CanUseBloodMaledict(items)
    ensures var f := MaledictResources.MaledictFeature(items);
      f.Some? ==> (CanUseBloodMaledict(items) <==> items[f.value].uses.max.Truthy() && items[f.value].uses.value > 0)
    ensures CanUseBloodMaledict(items[k := items[k].(uses := items[k].uses.(spent := spent))]) ==
            CanUseBloodMaledict(items)
  {
    var items' := items[k := items[k].(uses := items[k].uses.(spent := spent))];
    MaledictResources.MaledictFeatureSameTests(items, items');
  }

  /** The charge check of the hook and the one of the curse list can
      disagree: a feature whose `spent` is 0 but whose `value` is 0 passes
      `hasUsesRemaining` and fails `canUseBloodMaledict`. */
  lemma ChargeChecksDisagree()
    ensures var f := Item("m", "feat", "Blood Maledict", "", "", 0, "", "", NoFlags,
                          Uses(TextMax(1), Some(0), 0), false, false, []);
      MaledictResources.HasUsesRemaining([f]) && !CanUseBloodMaledict([f])
  {
    var f := Item("m", "feat", "Blood Maledict", "", "", 0, "", "", NoFlags,
                  Uses(TextMax(1), Some(0), 0), false, false, []);
    assert Lower(f.name)[0..|"blood maledict"|] == "blood maledict";
    ContainsAt(Lower(f.name), "blood maledict", 0);
    assert MaledictResources.IsMaledictFeature(f);
  }

  /** On the states the host produces, where `value` is derived from
      `spent`, the two charge checks agree for any feature with a max. */
  lemma ChargeChecksAgreeWhenDerived(items: seq<Item>)
    requires MaledictResources.MaledictFeature(items).Some?
    requires items[MaledictResources.MaledictFeature(items).value].uses.ValueDerived()
    requires items[MaledictResources.MaledictFeature(items).value].uses.max.Truthy()
    ensures MaledictResources.HasUsesRemaining(items) == CanUseBloodMaledict(items)
  {
  }

  /** `shouldPromptUser`: the owning player's client for a player-owned
      hunter, the GM's client for one without a player owner. */
  predicate ShouldPromptUser(hasPlayerOwner: bool, isOwner: bool, isGM: bool)
  {
    (hasPlayerOwner && isOwner && !isGM) || (!hasPlayerOwner && isGM)
  }

  /** A GM is never prompted for a player-owned hunter, a player never for an
      unowned one, and exactly one of a GM and an owning player is prompted. */
  lemma ShouldPromptUserCases(hasPlayerOwner: bool, isOwner: bool, isGM: bool)
    ensures isGM && hasPlayerOwner ==> !ShouldPromptUser(hasPlayerOwner, isOwner, isGM)
    ensures !isGM && !hasPlayerOwner ==> !ShouldPromptUser(hasPlayerOwner, isOwner, isGM)
    ensures !isOwner && !isGM ==> !ShouldPromptUser(hasPlayerOwner, isOwner, isGM)
    ensures ShouldPromptUser(hasPlayerOwner, true, false) != ShouldPromptUser(hasPlayerOwner, isOwner, true)
  {
  }

  // ------------------------------------------------------------- tokens

  /** The actors of a list of tokens, for reads clauses. */
  function ActorsOf(placeables: seq<Token>): set<object>
  {
    set k | 0 <= k < |placeables| && placeables[k].actor != null :: placeables[k].actor as object
  }

  /** The token of the fallen actor: its parent token (a synthetic actor) or a
      token of the same actor. */
  predicate IsFallenToken(t: Token, fallen: Actor)
  {
    (fallen.parentId != "" && t.id == fallen.parentId) || (t.actor != null && t.actor.id == fallen.id)
  }

  /** `placeables.find(...)`: the first such token. */
  function FallenToken(placeables: seq<Token>, fallen: Actor): (r: Option<Token>)
    ensures r.Some? ==> r.value in placeables && IsFallenToken(r.value, fallen)
    ensures r.None? ==> forall k :: 0 <= k < |placeables| ==> !IsFallenToken(placeables[k], fallen)
  {
    if |placeables| == 0 then None
    else if IsFallenToken(placeables[0], fallen) then Some(placeables[0])
    else FallenToken(placeables[1..], fallen)
  }

  /** A `bloodCurse` item of type `fallen_puppet`. */
  predicate HasFallenPuppetCurse(items: seq<Item>)
  {
    exists k :: 0 <= k < |items| && items[k].flags.IsBloodCurse() && items[k].flags.CurseType() == "fallen_puppet"
  }

  /** A token whose actor is a Blood Hunter knowing the curse. */
  predicate IsPuppeteer(t: Token)
    reads t.actor
  {
    t.actor != null && Utils.IsBloodHunter(t.actor) && HasFallenPuppetCurse(t.actor.items)
  }

  /** A puppeteer this client prompts: within 30 feet of the fallen token,
      with a charge, played from here. */
  predicate IsPrompted(t: Token, fallenToken: Token, distance: (Token, Token) -> int, isGM: bool)
    reads t.actor
  {
    IsPuppeteer(t) && distance(t, fallenToken) <= 30 && CanUseBloodMaledict(t.actor.items) &&
    ShouldPromptUser(t.actor.hasPlayerOwner, t.actor.isOwner, isGM)
  }

  /** The prompted tokens, in placeable order. */
  function PromptedAmong(placeables: seq<Token>, fallenToken: Token, distance: (Token, Token) -> int,
                         isGM: bool): (r: seq<Token>)
    reads ActorsOf(placeables)
    ensures |r| <= |placeables|
    ensures forall k :: 0 <= k < |r| ==> r[k] in placeables && IsPrompted(r[k], fallenToken, distance, isGM)
  {
    if |placeables| == 0 then []
    else
      var init := placeables[..|placeables| - 1];
      var last := placeables[|placeables| - 1];
      assert ActorsOf(init) <= ActorsOf(placeables) by {
        forall k | 0 <= k < |init| && init[k].actor != null
          ensures init[k].actor in ActorsOf(placeables)
        {
          assert init[k] == placeables[k];
        }
      }
      assert last.actor != null ==> last.actor in ActorsOf(placeables);
      PromptedAmong(init, fallenToken, distance, isGM) +
        (if IsPrompted(last, fallenToken, distance, isGM) then [last] else [])
  }

  /** One more placeable is prompted after the earlier ones exactly when it
      passes the checks. */
  lemma PromptedAmongStep(placeables: seq<Token>, i: nat, fallenToken: Token, distance: (Token, Token) -> int,
                          isGM: bool)
    requires i < |placeables|
    ensures PromptedAmong(placeables[..i + 1], fallenToken, distance, isGM) ==
      PromptedAmong(placeables[..i], fallenToken, distance, isGM) +
      (if IsPrompted(placeables[i], fallenToken, distance, isGM) then [placeables[i]] else [])
  {
    assert placeables[..i + 1][..i] == placeables[..i];
  }

  /** No eligible hunter is skipped: every placeable passing the checks is
      prompted. */
  lemma {:induction false} PromptedAmongComplete(placeables: seq<Token>, fallenToken: Token,
                                                 distance: (Token, Token) -> int, isGM: bool)
    ensures forall k :: 0 <= k < |placeables| && IsPrompted(placeables[k], fallenToken, distance, isGM) ==>
      placeables[k] in PromptedAmong(placeables, fallenToken, distance, isGM)
  {
    if |placeables| > 0 {
      var init := placeables[..|placeables| - 1];
      PromptedAmongComplete(init, fallenToken, distance, isGM);
      forall k | 0 <= k < |placeables| - 1 && IsPrompted(placeables[k], fallenToken, distance, isGM)
        ensures placeables[k] in PromptedAmong(placeables, fallenToken, distance, isGM)
      {
        assert init[k] == placeables[k];
      }
    }
  }

  /** The selection keeps placeable order: the prompted among `a + b` are
      those among `a`, then those among `b`. */
  lemma {:induction false} PromptedAmongAppend(a: seq<Token>, b: seq<Token>, fallenToken: Token,
                                               distance: (Token, Token) -> int, isGM: bool)
    ensures PromptedAmong(a + b, fallenToken, distance, isGM) ==
      PromptedAmong(a, fallenToken, distance, isGM) + PromptedAmong(b, fallenToken, distance, isGM)
  {
    if |b| == 0 {
      assert a + b == a;
    } else {
      var init := b[..|b| - 1];
      var last := b[|b| - 1];
      assert (a + b)[..|a + b| - 1] == a + init;
      assert (a + b)[|a + b| - 1] == last;
      PromptedAmongAppend(a, init, fallenToken, distance, isGM);
      var tail := if IsPrompted(last, fallenToken, distance, isGM) then [last] else [];
      AppendAssoc(PromptedAmong(a, fallenToken, distance, isGM), PromptedAmong(init, fallenToken, distance, isGM),
                  tail);
    }
  }

  /** A single placeable is prompted exactly when it passes the checks. */
  lemma PromptedAmongOne(t: Token, fallenToken: Token, distance: (Token, Token) -> int, isGM: bool)
    ensures PromptedAmong([t], fallenToken, distance, isGM) ==
      (if IsPrompted(t, fallenToken, distance, isGM) then [t] else [])
  {
    assert [t][..0] == [];
  }

  /** Who `handleFallenPuppetTrigger(fallenActor)` prompts: nobody when the
      fallen actor has no token, otherwise every prompted puppeteer. */
  function Prompted(placeables: seq<Token>, fallen: Actor, distance: (Token, Token) -> int, isGM: bool): seq<Token>
    reads ActorsOf(placeables)
  {
    match FallenToken(placeables, fallen)
    case None => []
    case Some(ft) => PromptedAmong(placeables, ft, distance, isGM)
  }

  /** Every prompted hunter knows the curse, is within 30 feet (30 included),
      has a charge and is played from this client; with no fallen token,
      nobody is prompted. */
  lemma PromptedAreEligible(placeables: seq<Token>, fallen: Actor, distance: (Token, Token) -> int, isGM: bool)
    ensures FallenToken(placeables, fallen).None? ==> Prompted(placeables, fallen, distance, isGM) == []
    ensures var r := Prompted(placeables, fallen, distance, isGM);
      forall k :: 0 <= k < |r| ==>
        r[k].actor != null && Utils.IsBloodHunter(r[k].actor) && HasFallenPuppetCurse(r[k].actor.items) &&
        distance(r[k], FallenToken(placeables, fallen).value) <= 30 &&
        CanUseBloodMaledict(r[k].actor.items) &&
        ShouldPromptUser(r[k].actor.hasPlayerOwner, r[k].actor.isOwner, isGM)
  {
  }

  /** With a fallen token, the prompted hunters are exactly the placeables
      passing the checks, in placeable order: a placeable list split in two
      is prompted part by part, and a single placeable exactly when it
      passes. */
  lemma PromptedExactly(placeables: seq<Token>, fallen: Actor, distance: (Token, Token) -> int, isGM: bool)
    requires FallenToken(placeables, fallen).Some?
    ensures var ft := FallenToken(placeables, fallen).value;
      var r := Prompted(placeables, fallen, distance, isGM);
      (forall t :: t in r ==> t in placeables && IsPrompted(t, ft, distance, isGM)) &&
      (forall k :: 0 <= k < |placeables| && IsPrompted(placeables[k], ft, distance, isGM) ==> placeables[k] in r) &&
      (forall i :: 0 <= i <= |placeables| ==>
        r == PromptedAmong(placeables[..i], ft, distance, isGM) + PromptedAmong(placeables[i..], ft, distance, isGM))
  {
    var ft := FallenToken(placeables, fallen).value;
    PromptedAmongComplete(placeables, ft, distance, isGM);
    forall i | 0 <= i <= |placeables|
      ensures PromptedAmong(placeables, ft, distance, isGM) ==
        PromptedAmong(placeables[..i], ft, distance, isGM) + PromptedAmong(placeables[i..], ft, distance, isGM)
    {
      assert placeables[..i] + placeables[i..] == placeables;
      PromptedAmongAppend(placeables[..i], placeables[i..], ft, distance, isGM);
    }
  }

  // --------------------------------------------------------------- hook

  /** `handleFallenPuppetTrigger(fallenActor)`: the hunters are visited in
      placeable order and every one passing the distance, charge and
      ownership checks is prompted in turn. The checks read the state before
      the first prompt. */
  method HandleFallenPuppetTrigger(placeables: seq<Token>, fallen: Actor, distance: (Token, Token) -> int,
                                   isGM: bool)
    returns (prompted: seq<Token>)
    ensures prompted == Prompted(placeables, fallen, distance, isGM)
    ensures FallenToken(placeables, fallen).None? ==> prompted == []
    ensures FallenToken(placeables, fallen).Some? ==>
      var ft := FallenToken(placeables, fallen).value;
      (forall t :: t in prompted ==> t in placeables && IsPrompted(t, ft, distance, isGM)) &&
      (forall k :: 0 <= k < |placeables| && IsPrompted(placeables[k], ft, distance, isGM) ==> placeables[k] in prompted)
  {
    var fallenToken := FallenToken(placeables, fallen);
    if fallenToken.None? {
      return [];
    }
    prompted := PromptAmong(placeables, fallenToken.value, distance, isGM);
    PromptedExactly(placeables, fallen, distance, isGM);
  }

  /** The loop of `handleFallenPuppetTrigger` over the placeables, given the
      fallen creature's token. */
  method PromptAmong(placeables: seq<Token>, fallenToken: Token, distance: (Token, Token) -> int, isGM: bool)
    returns (prompted: seq<Token>)
    ensures prompted == PromptedAmong(placeables, fallenToken, distance, isGM)
  {
    prompted := [];
    var i := 0;
    while i < |placeables|
      invariant 0 <= i <= |placeables|
      invariant prompted == PromptedAmong(placeables[..i], fallenToken, distance, isGM)
    {
      var bhToken := placeables[i];
      PromptedAmongStep(placeables, i, fallenToken, distance, isGM);
      if IsPuppeteer(bhToken) {
        var bloodHunter := bhToken.actor;
        if distance(bhToken, fallenToken) <= 30 && CanUseBloodMaledict(bloodHunter.items) &&
           ShouldPromptUser(bloodHunter.hasPlayerOwner, bloodHunter.isOwner, isGM) {
          prompted := prompted + [bhToken];
        }
      }
      i := i + 1;
    }
    assert placeables[..|placeables|] == placeables;
  }
}
