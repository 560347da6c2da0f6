/**
 * The storage filter "colonist corpses": it accepts a thing when it is the
 * corpse of a humanlike pawn of the player's faction that is not a slave
 * (slavery only exists while the Ideology expansion is active).
 */
module CorpsesColonist {
  import opened Wrappers

  type FactionId = nat

  datatype InnerPawn = InnerPawn(humanlike: bool, isSlave: bool, faction: Option<FactionId>)

  datatype Thing = Corpse(innerPawn: InnerPawn) | OtherThing

  /** SpecialThingFilterWorker_CorpsesColonist.Matches, with the expansion flag and the player faction passed in. */
  function Matches(t: Thing, ideologyActive: bool, player: FactionId): (r: bool)
    ensures r ==> t.Corpse? && t.innerPawn.humanlike && t.innerPawn.faction == Some(player)
    ensures r && ideologyActive ==> !t.innerPawn.isSlave
  {
    if !t.Corpse? then false
    else if !t.innerPawn.humanlike then false
    else if ideologyActive && t.innerPawn.isSlave then false
    else t.innerPawn.faction == Some(player)
  }

  /** The filter accepts exactly the corpses of free humanlike members of the player faction. */
  lemma MatchesExactly(t: Thing, ideologyActive: bool, player: FactionId)
    ensures Matches(t, ideologyActive, player) <==>
      (t.Corpse? && t.innerPawn.humanlike && t.innerPawn.faction == Some(player)
       && !(ideologyActive && t.innerPawn.isSlave))
  {
  }

  /** Without Ideology a slave's corpse is treated like any colonist's corpse. */
  lemma SlaveStatusIgnoredWithoutIdeology(p: InnerPawn, player: FactionId)
    ensures Matches(Corpse(p), false, player) == Matches(Corpse(p.(isSlave := false)), true, player)
  {
  }
}
