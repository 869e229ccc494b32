/** The audience view: a mirror of the persisted record, refreshed by a poll
    that also raises the celebration when the score goes up. */
module GameDisplay {
  import opened GameTypes

  /** The view's own copy of the game: only these three fields. */
  datatype Mirror = Mirror(points: int, round: int, challenges: seq<Challenge>)

  /** The mirror the view starts with. */
  function InitialMirror(): Mirror {
    Mirror(0, 1, [])
  }

  /** `value || fallback` for a number: a missing value and 0 are falsy. */
  function OrElse(value: Option<int>, fallback: int): int {
    match value
    case Some(v) => if v != 0 then v else fallback
    case None => fallback
  }

  /** The poll's test `prev.points !== stored.points && stored.points > prev.points`.
      `None` is an absent (undefined) score, which compares false; a JSON
      `null` score, which compares as 0, is not represented. */
  function Celebrates(previous: int, stored: Option<int>): (r: bool)
    ensures r <==> stored.Some? && stored.value > previous
  {
    match stored
    case Some(p) => previous != p && p > previous
    case None => false
  }

  /** The mirror after one poll: unchanged when nothing is stored, otherwise
      the stored score, round and challenges with their fallbacks. */
  function NextMirror(m: Mirror, stored: Option<Record>): (r: Mirror)
    ensures stored.None? ==> r == m
    ensures stored.Some? ==> r.points == stored.value.points.GetOr(0)
    ensures stored.Some? ==>
      r.round == (if stored.value.round.Some? && stored.value.round.value != 0
                  then stored.value.round.value else 1)
    ensures stored.Some? ==> r.challenges == stored.value.challenges.GetOr([])
  {
    match stored
    case None => m
    case Some(rec) =>
      m.(points := OrElse(rec.points, 0),
         round := OrElse(rec.round, 1),
         challenges := rec.challenges.GetOr([]))
  }

  /** Whether one poll raises the celebration. */
  function Raises(m: Mirror, stored: Option<Record>): (r: bool)
    ensures r <==> stored.Some? && stored.value.points.Some? && stored.value.points.value > m.points
  {
    match stored
    case None => false
    case Some(rec) => Celebrates(m.points, rec.points)
  }

  /** Each fallback holds on its own, whatever the other fields hold: a
      missing or zero score gives 0, a missing or zero round gives 1, a
      missing list gives the empty one. */
  lemma FallbacksApply(m: Mirror, rec: Record)
    ensures rec.points.None? || rec.points == Some(0) ==> NextMirror(m, Some(rec)).points == 0
    ensures rec.round.None? || rec.round == Some(0) ==> NextMirror(m, Some(rec)).round == 1
    ensures rec.challenges.None? ==> NextMirror(m, Some(rec)).challenges == []
  {
  }

  /** The mirror depends on nothing but the record's score, round and
      challenges: records that differ only in their multiplier give the
      same mirror and the same celebration. */
  lemma MultiplierIgnored(m: Mirror, rec: Record, multiplier: Option<int>)
    ensures NextMirror(m, Some(rec.(multiplier := multiplier))) == NextMirror(m, Some(rec))
    ensures Raises(m, Some(rec.(multiplier := multiplier))) == Raises(m, Some(rec))
  {
  }

  /** Polling the same record twice celebrates at most once. */
  lemma SecondPollQuiet(m: Mirror, stored: Option<Record>)
    ensures !Raises(NextMirror(m, stored), stored)
  {
  }

  /** Polling the record the controller wrote for state `s` mirrors that
      state's score, round and challenges, and celebrates exactly when its
      score is above the mirrored one. */
  lemma PollsControllerState(m: Mirror, s: GameState)
    requires s.round >= 1
    ensures NextMirror(m, Some(ToRecord(s))) == Mirror(s.points, s.round, ChallengeList(s))
    ensures Raises(m, Some(ToRecord(s))) <==> s.points > m.points
  {
  }

  /** The audience view component: the mirror and the confetti flag. */
  class Display {
    var mirror: Mirror
    var showConfetti: bool

    constructor ()
      ensures mirror == InitialMirror() && !showConfetti
    {
      mirror := InitialMirror();
      showConfetti := false;
    }

    /** One tick of `updateGameState`: with a stored record, raise the flag
        when its score beats the mirrored one, then refresh the mirror; the
        flag is only ever set here, never cleared. */
    method Poll(stored: Option<Record>) returns (celebrated: bool)
      modifies this
      ensures celebrated == Raises(old(mirror), stored)
      ensures mirror == NextMirror(old(mirror), stored)
      ensures showConfetti == (old(showConfetti) || celebrated)
    {
      celebrated := false;
      if stored.Some? {
        var parsed := stored.value;
        if Celebrates(mirror.points, parsed.points) {
          showConfetti := true;
          celebrated := true;
        }
        mirror := Mirror(OrElse(parsed.points, 0), OrElse(parsed.round, 1), parsed.challenges.GetOr([]));
      }
    }

    /** The timer callback that hides the confetti again. */
    method HideConfetti()
      modifies this
      ensures !showConfetti && mirror == old(mirror)
    {
      showConfetti := false;
    }
  }
}
