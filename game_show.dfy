/** The dashboard's copy of the reducer. It differs from the controller's
    only in the ADD_CHALLENGE and REMOVE_CHALLENGE cases, which spread or
    filter the previous challenge list without a fallback and so fail when
    the list is missing. */
module GameShow {
  import opened GameTypes
  import GameController

  /** What the dashboard's updater does: return the next state, or fail
      with a type error (spreading or filtering an undefined list). */
  datatype Outcome = Updated(state: GameState) | Thrown

  /** The dashboard's `updateGame` reducer. */
  function Step(s: GameState, a: Action): (r: Outcome)
    ensures r.Thrown? <==> s.challenges.None? && (a.AddChallenge? || a.RemoveChallenge?)
    ensures r.Updated? ==> GameController.ActionEffect(s, a, r.state)
  {
    match a
    case AddChallenge(c) =>
      (match s.challenges
       case None => Thrown
       case Some(cs) => Updated(s.(challenges := Some(cs + [c]))))
    case RemoveChallenge(i) =>
      (match s.challenges
       case None => Thrown
       case Some(cs) => Updated(s.(challenges := Some(GameController.Without(cs, i)))))
    case AddPoints(d) => Updated(s.(points := s.points + d * s.multiplier))
    case NextRound => Updated(s.(round := s.round + 1))
    case ResetGame => Updated(GameState(0, 1, 1, Some([])))
    case SetMultiplier(v) => Updated(s.(multiplier := v))
  }

  /** Whenever the dashboard's reducer returns a state, it is the state the
      controller's reducer returns; in particular the two agree on every
      action whenever the challenge list is present. */
  lemma AgreesWithController(s: GameState, a: Action)
    ensures Step(s, a).Updated? ==> Step(s, a).state == GameController.Step(s, a)
    ensures s.challenges.Some? ==> Step(s, a) == Updated(GameController.Step(s, a))
  {
    var r := Step(s, a);
    if r.Updated? {
      GameController.ActionEffectUnique(s, a, r.state, GameController.Step(s, a));
    }
  }

  /** The dashboard starts from the same state as the controller. */
  function InitialState(saved: Option<GameState>): (r: GameState)
    ensures r == GameController.InitialState(saved)
    ensures saved.None? ==> r.points == 0 && r.round == 1 && r.multiplier == 1 && r.challenges == Some([])
  {
    match saved
    case Some(state) => state
    case None => GameState(0, 1, 1, Some([]))
  }
}
