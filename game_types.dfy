/** The values shared by the controller, the dashboard and the audience view:
    a challenge, the game state the reducers work on, the actions they accept,
    and the record the controller persists for the audience view to poll. */
module GameTypes {

  datatype Option<+T> = None | Some(value: T) {
    /** `x || fallback` for a value that is always truthy when present. */
    function GetOr(fallback: T): T {
      match this
      case Some(v) => v
      case None => fallback
    }
  }

  /** A point-scoring challenge as the operator enters it. */
  datatype Challenge = Challenge(name: string, points: int)

  /** The game state. `challenges` is optional because a state decoded from
      storage may lack the field; the controller's reducer then falls back to
      an empty list, the dashboard's reducer fails. */
  datatype GameState = GameState(
    points: int,
    round: int,
    multiplier: int,
    challenges: Option<seq<Challenge>>)

  /** The six actions of the reducer, each with its payload. */
  datatype Action =
    | AddChallenge(challenge: Challenge)
    | RemoveChallenge(index: int)
    | AddPoints(delta: int)
    | NextRound
    | ResetGame
    | SetMultiplier(value: int)

  /** The state a fresh game starts from, and the one RESET_GAME yields. */
  function Default(): GameState {
    GameState(0, 1, 1, Some([]))
  }

  /** `challenges || []`: an array is truthy even when empty, so only a
      missing list falls back. */
  function ChallengeList(s: GameState): seq<Challenge> {
    s.challenges.GetOr([])
  }

  /** The persisted record as the audience view decodes it: any field may be
      missing. */
  datatype Record = Record(
    points: Option<int>,
    round: Option<int>,
    multiplier: Option<int>,
    challenges: Option<seq<Challenge>>)

  /** The record the controller writes after each change of its state: every
      numeric field is present, and a missing challenge list stays missing
      because the serialiser drops undefined fields. */
  function ToRecord(s: GameState): Record {
    Record(Some(s.points), Some(s.round), Some(s.multiplier), s.challenges)
  }
}
