/** The operator's controller: the game-state reducer with its `|| []`
    fallback on the challenge list, the documented effect of each action,
    properties of runs of actions, and the component that holds the state
    and the new-challenge form. */
module GameController {
  import opened GameTypes
  import JsNumbers

  /** `cs.filter((_, index) => index !== payload)` where the elements of `cs`
      sit at indices `offset`, `offset + 1`, ... */
  function FilterFrom<T>(cs: seq<T>, payload: int, offset: int): seq<T> {
    if cs == [] then []
    else (if offset != payload then [cs[0]] else []) + FilterFrom(cs[1..], payload, offset + 1)
  }

  /** Filtering out one index drops exactly the element there, and drops
      nothing when no element has that index. */
  lemma {:induction false} FilterFromDropsIndex<T>(cs: seq<T>, payload: int, offset: int)
    ensures FilterFrom(cs, payload, offset) ==
      if offset <= payload < offset + |cs| then cs[..payload - offset] + cs[payload - offset + 1..]
      else cs
  {
    if cs != [] {
      FilterFromDropsIndex(cs[1..], payload, offset + 1);
      if offset == payload {
        assert cs[1..] == cs[..0] + cs[1..];
      } else if offset < payload < offset + |cs| {
        var k := payload - offset;
        assert cs[..k] == [cs[0]] + cs[1..][..k - 1];
        assert cs[k + 1..] == cs[1..][k..];
      } else {
        assert cs == [cs[0]] + cs[1..];
      }
    }
  }

  /** REMOVE_CHALLENGE's filter over the whole list. */
  function Without<T>(cs: seq<T>, index: int): (r: seq<T>)
    ensures r == if 0 <= index < |cs| then cs[..index] + cs[index + 1..] else cs
  {
    FilterFromDropsIndex(cs, index, 0);
    FilterFrom(cs, index, 0)
  }

  /** The documented effect of action `a` on state `s`: the one field the
      action concerns changes as stated and every other field is kept;
      RESET_GAME yields the default state. */
  ghost predicate ActionEffect(s: GameState, a: Action, r: GameState) {
    var before := ChallengeList(s);
    match a
    case AddChallenge(c) =>
      && r.points == s.points && r.round == s.round && r.multiplier == s.multiplier
      && r.challenges.Some?
      && |ChallengeList(r)| == |before| + 1
      && ChallengeList(r)[..|before|] == before
      && ChallengeList(r)[|before|] == c
    case RemoveChallenge(i) =>
      && r.points == s.points && r.round == s.round && r.multiplier == s.multiplier
      && r.challenges.Some?
      && ChallengeList(r) == if 0 <= i < |before| then before[..i] + before[i + 1..] else before
    case AddPoints(d) =>
      && r.points == s.points + d * s.multiplier
      && r.round == s.round && r.multiplier == s.multiplier && r.challenges == s.challenges
    case NextRound =>
      && r.round == s.round + 1
      && r.points == s.points && r.multiplier == s.multiplier && r.challenges == s.challenges
    case ResetGame =>
      r == Default()
    case SetMultiplier(v) =>
      && r.multiplier == v
      && r.points == s.points && r.round == s.round && r.challenges == s.challenges
  }

  /** The documented effect leaves no freedom: at most one state satisfies
      it, so any two reducers meeting it agree. */
  lemma ActionEffectUnique(s: GameState, a: Action, r1: GameState, r2: GameState)
    requires ActionEffect(s, a, r1) && ActionEffect(s, a, r2)
    ensures r1 == r2
  {
    if a.AddChallenge? {
      var before := ChallengeList(s);
      var l1, l2 := ChallengeList(r1), ChallengeList(r2);
      assert l1 == l1[..|before|] + [l1[|before|]];
      assert l2 == l2[..|before|] + [l2[|before|]];
    }
  }

  /** The reducer `updateGame` applies to the previous state: copy the state,
      then update the one field the action names. */
  function Step(s: GameState, a: Action): (r: GameState)
    ensures ActionEffect(s, a, r)
  {
    match a
    case AddChallenge(c) => s.(challenges := Some(ChallengeList(s) + [c]))
    case RemoveChallenge(i) => s.(challenges := Some(Without(ChallengeList(s), i)))
    case AddPoints(d) => s.(points := s.points + d * s.multiplier)
    case NextRound => s.(round := s.round + 1)
    case ResetGame => GameState(0, 1, 1, Some([]))
    case SetMultiplier(v) => s.(multiplier := v)
  }

  /** Adding a challenge and then removing it at the index it was given
      restores the list (a missing list comes back as an empty one), and
      nothing else has changed. */
  lemma AddThenRemove(s: GameState, c: Challenge)
    ensures Step(Step(s, AddChallenge(c)), RemoveChallenge(|ChallengeList(s)|))
         == s.(challenges := Some(ChallengeList(s)))
  {
    var before := ChallengeList(s);
    var added := ChallengeList(Step(s, AddChallenge(c)));
    assert added[..|before|] + added[|before| + 1..] == before;
  }

  /** Resetting ignores the prior state: it is idempotent and always yields
      the state a fresh controller starts with. */
  lemma ResetIsDefault(s: GameState)
    ensures Step(s, ResetGame) == Default()
    ensures Step(Step(s, ResetGame), ResetGame) == Step(s, ResetGame)
    ensures Step(s, ResetGame) == InitialState(None)
  {
  }

  /** Awarding a challenge twice adds twice its points times the multiplier
      in effect. */
  lemma AwardTwice(s: GameState, c: Challenge)
    ensures Step(Step(s, AddPoints(c.points)), AddPoints(c.points)).points
         == s.points + 2 * c.points * s.multiplier
  {
  }

  /** The state after applying `actions` in order. */
  function Run(s: GameState, actions: seq<Action>): GameState
    decreases |actions|
  {
    if actions == [] then s else Run(Step(s, actions[0]), actions[1..])
  }

  function CountNextRounds(actions: seq<Action>): nat {
    if actions == [] then 0
    else (if actions[0].NextRound? then 1 else 0) + CountNextRounds(actions[1..])
  }

  /** The sum of the ADD_POINTS deltas in `actions`. */
  function TotalDelta(actions: seq<Action>): int {
    if actions == [] then 0
    else (if actions[0].AddPoints? then actions[0].delta else 0) + TotalDelta(actions[1..])
  }

  predicate NoReset(actions: seq<Action>) {
    forall i | 0 <= i < |actions| :: !actions[i].ResetGame?
  }

  predicate NoResetOrMultiplier(actions: seq<Action>) {
    forall i | 0 <= i < |actions| :: !actions[i].ResetGame? && !actions[i].SetMultiplier?
  }

  /** Rounds start at 1 and stay positive whatever the operator does. */
  lemma {:induction false} RoundStaysPositive(s: GameState, actions: seq<Action>)
    requires s.round >= 1
    ensures Run(s, actions).round >= 1
    decreases |actions|
  {
    if actions != [] {
      RoundStaysPositive(Step(s, actions[0]), actions[1..]);
    }
  }

  /** Between resets the round only moves forward, by exactly one per
      NEXT_ROUND. */
  lemma {:induction false} RoundCountsNextRounds(s: GameState, actions: seq<Action>)
    requires NoReset(actions)
    ensures Run(s, actions).round == s.round + CountNextRounds(actions)
    ensures Run(s, actions).round >= s.round
    decreases |actions|
  {
    if actions != [] {
      assert NoReset(actions[1..]) by {
        forall i | 0 <= i < |actions| - 1 ensures !actions[1..][i].ResetGame? {
          assert actions[1..][i] == actions[i + 1];
        }
      }
      assert !actions[0].ResetGame?;
      RoundCountsNextRounds(Step(s, actions[0]), actions[1..]);
    }
  }

  /** While neither a reset nor a new multiplier intervenes, the score moves
      by the multiplier times the sum of the point adjustments. */
  lemma {:induction false} PointsFollowDeltas(s: GameState, actions: seq<Action>)
    requires NoResetOrMultiplier(actions)
    ensures Run(s, actions).points == s.points + s.multiplier * TotalDelta(actions)
    ensures Run(s, actions).multiplier == s.multiplier
    decreases |actions|
  {
    if actions != [] {
      assert NoResetOrMultiplier(actions[1..]) by {
        forall i | 0 <= i < |actions| - 1
          ensures !actions[1..][i].ResetGame? && !actions[1..][i].SetMultiplier?
        {
          assert actions[1..][i] == actions[i + 1];
        }
      }
      assert !actions[0].ResetGame? && !actions[0].SetMultiplier?;
      var next := Step(s, actions[0]);
      PointsFollowDeltas(next, actions[1..]);
      var d := if actions[0].AddPoints? then actions[0].delta else 0;
      assert next.points == s.points + s.multiplier * d;
      assert s.multiplier * d + s.multiplier * TotalDelta(actions[1..])
          == s.multiplier * (d + TotalDelta(actions[1..]));
    }
  }

  /** The state the controller starts from: the saved state when storage
      holds one, the default state otherwise. */
  function InitialState(saved: Option<GameState>): GameState {
    saved.GetOr(Default())
  }

  /** The new-challenge form: both fields hold the text as typed. */
  datatype ChallengeForm = ChallengeForm(name: string, points: string)

  function EmptyForm(): ChallengeForm {
    ChallengeForm("", "")
  }

  /** The guard of `addChallenge`: both fields non-empty (a string is truthy
      exactly when it is non-empty). */
  predicate FormComplete(form: ChallengeForm) {
    form.name != "" && form.points != ""
  }

  /** The controller component: the current game state and the form. */
  class Controller {
    var state: GameState
    var form: ChallengeForm

    constructor (saved: Option<GameState>)
      ensures state == InitialState(saved) && form == EmptyForm()
    {
      state := InitialState(saved);
      form := EmptyForm();
    }

    /** `updateGame(action, payload)`: replace the state by the reducer's
        result; the form is not touched. */
    method Dispatch(a: Action)
      modifies this
      ensures state == Step(old(state), a) && form == old(form)
    {
      state := Step(state, a);
    }

    /** Typing into the name field. */
    method EditName(name: string)
      modifies this
      ensures form == old(form).(name := name) && state == old(state)
    {
      form := form.(name := name);
    }

    /** Typing into the points field. */
    method EditPoints(text: string)
      modifies this
      ensures form == old(form).(points := text) && state == old(state)
    {
      form := form.(points := text);
    }

    /** `addChallenge`: when both fields are filled, dispatch ADD_CHALLENGE
        with the parsed points and clear the form; otherwise change nothing.
        `dispatched` tells whether the guard passed. */
    method AddChallenge() returns (dispatched: bool)
      modifies this
      ensures dispatched <==> FormComplete(old(form))
      ensures !dispatched ==> state == old(state) && form == old(form)
      ensures dispatched ==> form == EmptyForm()
      ensures dispatched && JsNumbers.ParseInt(old(form).points).Some? ==>
        state == Step(old(state), Action.AddChallenge(
          Challenge(old(form).name, JsNumbers.ParseInt(old(form).points).value)))
      ensures dispatched && JsNumbers.ParseInt(old(form).points).None? ==> state == old(state)
    {
      dispatched := form.name != "" && form.points != "";
      if dispatched {
        var parsed := JsNumbers.ParseInt(form.points);
        if parsed.Some? {
          Dispatch(Action.AddChallenge(Challenge(form.name, parsed.value)));
        }
        form := EmptyForm();
      }
    }

    method RemoveChallenge(index: int)
      modifies this
      ensures state == Step(old(state), Action.RemoveChallenge(index)) && form == old(form)
    {
      Dispatch(Action.RemoveChallenge(index));
    }

    /** The -1 and +1 buttons. */
    method AddPoints(points: int)
      modifies this
      ensures state == Step(old(state), Action.AddPoints(points)) && form == old(form)
    {
      Dispatch(Action.AddPoints(points));
    }

    /** The Award button of a listed challenge: add its points again; the
        challenge stays listed and can be awarded any number of times. */
    method Award(c: Challenge)
      modifies this
      ensures state.points == old(state).points + c.points * old(state).multiplier
      ensures state == old(state).(points := state.points) && form == old(form)
    {
      AddPoints(c.points);
    }

    method NextRound()
      modifies this
      ensures state == Step(old(state), Action.NextRound) && form == old(form)
    {
      Dispatch(Action.NextRound);
    }

    method ResetGame()
      modifies this
      ensures state == Default() && form == old(form)
    {
      Dispatch(Action.ResetGame);
    }

    /** The multiplier field, its text already parsed. */
    method SetMultiplier(value: int)
      modifies this
      ensures state == Step(old(state), Action.SetMultiplier(value)) && form == old(form)
    {
      Dispatch(Action.SetMultiplier(value));
    }
  }
}
