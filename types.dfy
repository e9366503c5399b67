// The phases of a game and the three classifications of them.
module GameStates {

  /** The ten phases a game can be in. */
  datatype GameStateType =
    | Pregame
    | InitDeal
    | WordBuilding
    | SubmitAccept
    | SubmitReject
    | Discarding
    | ConfirmReject
    | Resetting
    | FinalRound
    | GameOver

  /** A word has been submitted and its verdict is on display or being acted on. */
  predicate IsInSubmitState(s: GameStateType) {
    s == SubmitAccept || s == Discarding || s == SubmitReject || s == ConfirmReject
  }

  predicate WordWasAccepted(s: GameStateType) {
    s == SubmitAccept || s == Discarding
  }

  predicate WordWasRejected(s: GameStateType) {
    s == SubmitReject || s == ConfirmReject
  }

  /** No phase is both accepted and rejected. */
  lemma AcceptedAndRejectedDisjoint(s: GameStateType)
    ensures !(WordWasAccepted(s) && WordWasRejected(s))
  {
  }

  /** The submit phases are split exactly into the accepted and the rejected ones. */
  lemma SubmitStateIsAcceptedOrRejected(s: GameStateType)
    ensures IsInSubmitState(s) <==> WordWasAccepted(s) || WordWasRejected(s)
  {
  }

  /** The six other phases satisfy none of the three classifications. */
  lemma OtherStatesUnclassified(s: GameStateType)
    requires s in {Pregame, InitDeal, WordBuilding, Resetting, FinalRound, GameOver}
    ensures !IsInSubmitState(s) && !WordWasAccepted(s) && !WordWasRejected(s)
  {
  }
}
