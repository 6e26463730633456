// scripts/blood-curse/curses/curse-of-the-marked.js: the Marked curse rolls
// one hemocraft die (two when amplified) and adds it to the damage total of
// the attack being resolved.

module Marked {
  import opened Common
  import opened Documents
  import Utils

  /** The roll formula: the die with its count ("1") replaced by "2" when
      amplified, and kept as "1" otherwise. */
  function MarkedFormula(amplify: bool, die: string): string
  {
    (if amplify then "2" else "1") + (if |die| == 0 then "" else die[1..])
  }

  /** For every hemocraft die the rewrite keeps the faces and sets the count:
      "1d10" becomes "2d10" when amplified and stays "1d10" otherwise. */
  lemma MarkedFormulaKeepsFaces(amplify: bool, level: int)
    ensures MarkedFormula(amplify, Utils.HemocraftDie(level)) ==
      (if amplify then "2d" else "1d") + Decimal(Utils.HemocraftFaces(level))
    ensures !amplify ==> MarkedFormula(amplify, Utils.HemocraftDie(level)) == Utils.HemocraftDie(level)
  {
    Utils.HemocraftDieShape(level);
    var die := Utils.HemocraftDie(level);
    assert die[1..] == "d" + Decimal(Utils.HemocraftFaces(level));
  }

  /** The chat flavour of the bonus roll. */
  function MarkedFlavor(amplify: bool): string
  {
    "Blood Curse of the Marked" + (if amplify then " (Amplified)" else "")
  }

  /** The suffix " (Amplified)" is there exactly when amplified. */
  lemma MarkedFlavorSuffix(amplify: bool)
    ensures StartsWith(MarkedFlavor(amplify), "Blood Curse of the Marked")
    ensures amplify <==> |MarkedFlavor(amplify)| > |"Blood Curse of the Marked"|
    ensures amplify ==> MarkedFlavor(amplify)[|"Blood Curse of the Marked"|..] == " (Amplified)"
  {
  }

  /** The number of dice the Marked curse rolls. */
  function MarkedDice(amplify: bool): nat
  {
    if amplify then 2 else 1
  }

  /** `executeCurseOfTheMarked(actor, workflow, amplify)`; `bonusTotal` is the
      total of the `MarkedFormula` roll for the actor's level. The damage
      total grows by the roll only when the workflow has a damage roll. */
  method ExecuteCurseOfTheMarked(actor: Actor, wf: Workflow, amplify: bool, bonusTotal: int)
    requires Utils.IsHemocraftRoll(bonusTotal, MarkedDice(amplify), Utils.BloodHunterLevelOf(actor.items))
    modifies wf
    ensures wf.hasDamageRoll ==> wf.damageTotal == old(wf.damageTotal) + bonusTotal
    ensures wf.hasDamageRoll ==>
      var faces := Utils.HemocraftFaces(Utils.BloodHunterLevelOf(actor.items));
      old(wf.damageTotal) + MarkedDice(amplify) <= wf.damageTotal <= old(wf.damageTotal) + MarkedDice(amplify) * faces
    ensures !wf.hasDamageRoll ==> wf.damageTotal == old(wf.damageTotal)
  {
    if wf.hasDamageRoll {
      wf.damageTotal := wf.damageTotal + bonusTotal;
    }
  }
}
