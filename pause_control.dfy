/**
 * The polling loop of `Main.show_lyrics`, which turns what the player
 * reports about playback into the shared pause event that `play_line` and
 * `sleep_check_pause` watch.
 *
 * Each pass reads the current playback state; whether the resume action is
 * listed among the disallowed actions is all it looks at. The loop keeps two
 * local flags, `paused` and `resumed`, and sets or clears the event only
 * when the reading disagrees with them.
 */
module PauseControl {

  /** What one poll of the player finds. */
  datatype Observation =
      /** `current["actions"]["disallows"]["resuming"]` exists: the song is playing. */
    | ResumingDisallowed
      /** The lookup raised (key missing, or no readable playback state): the song is taken to be paused. */
    | ResumingAllowed

  /** A call the loop makes on the pause event. */
  datatype Signal = SetEvent | ClearEvent

  /** The loop's local flags and whether the pause event is set. */
  datatype Watcher = Watcher(paused: bool, resumed: bool, eventSet: bool)

  /** `paused = False`, `resumed = True`, and a freshly created event. */
  const Initial: Watcher := Watcher(false, true, false)

  /** The flags agree with each other and with the event. */
  predicate Consistent(w: Watcher) {
    w.paused == !w.resumed && w.eventSet == w.paused
  }

  /** The state after one poll and the event calls that poll made. */
  datatype Reaction = Reaction(next: Watcher, calls: seq<Signal>)

  /**
   * One pass of the `while True` loop. From a consistent state the flags stay
   * consistent, the event ends up set exactly when the poll found the song
   * paused, and the event is called exactly when its state changes: `set`
   * when it becomes set, `clear` when it becomes clear.
   */
  function Poll(w: Watcher, obs: Observation): (r: Reaction)
    ensures Consistent(w) ==> Consistent(r.next)
    ensures Consistent(w) ==> (r.next.eventSet <==> obs.ResumingAllowed?)
    ensures Consistent(w) ==> (r.calls == [] <==> r.next == w)
    ensures r.calls == [] || r.calls == [SetEvent] || r.calls == [ClearEvent]
    ensures r.calls == [SetEvent] ==> r.next.eventSet && !w.paused
    ensures r.calls == [ClearEvent] ==> !r.next.eventSet && !w.resumed
  {
    match obs
    case ResumingDisallowed =>
      if !w.resumed then Reaction(w.(eventSet := false, resumed := true, paused := false), [ClearEvent])
      else Reaction(w, [])
    case ResumingAllowed =>
      if !w.paused then Reaction(w.(eventSet := true, resumed := false, paused := true), [SetEvent])
      else Reaction(w, [])
  }

  /** The loop after the polls `observations`, in order, with every event call it made. */
  function PollAll(w: Watcher, observations: seq<Observation>): (r: Reaction)
    decreases |observations|
  {
    if observations == [] then Reaction(w, [])
    else
      var before := PollAll(w, observations[..|observations| - 1]);
      var last := Poll(before.next, observations[|observations| - 1]);
      Reaction(last.next, before.calls + last.calls)
  }

  /**
   * The event calls alternate, each one flipping the event: starting from an
   * event that is set (`wasSet`) or not, a call at an even position flips it away from
   * that state and one at an odd position flips it back.
   */
  predicate Alternating(calls: seq<Signal>, wasSet: bool) {
    forall j :: 0 <= j < |calls| ==> (calls[j] == SetEvent) == ((j % 2 == 0) != wasSet)
  }

  /**
   * Over any sequence of polls from a consistent state: the flags stay
   * consistent; after at least one poll the event is set exactly when the
   * last poll found the song paused; `set` and `clear` alternate, and the
   * event ends set exactly when it started set or an odd number of calls
   * flipped it, but not both.
   */
  lemma {:induction false} PollAllKeepsConsistent(w: Watcher, observations: seq<Observation>)
    requires Consistent(w)
    ensures var r := PollAll(w, observations);
      Consistent(r.next) &&
      (observations != [] ==> (r.next.eventSet <==> observations[|observations| - 1].ResumingAllowed?)) &&
      Alternating(r.calls, w.eventSet) &&
      r.next.eventSet == (w.eventSet != (|r.calls| % 2 == 1))
    decreases |observations|
  {
    if observations != [] {
      var prefix := observations[..|observations| - 1];
      var before := PollAll(w, prefix);
      PollAllKeepsConsistent(w, prefix);
      var last := Poll(before.next, observations[|observations| - 1]);
      var calls := before.calls + last.calls;
      forall j | 0 <= j < |calls|
        ensures (calls[j] == SetEvent) == ((j % 2 == 0) != w.eventSet)
      {
        if j >= |before.calls| {
          assert j == |before.calls|;
          assert calls[j] == last.calls[0];
        } else {
          assert calls[j] == before.calls[j];
        }
      }
    }
  }

  /**
   * Polling the same reading again changes nothing: the loop reacts to a
   * change in playback once and then keeps still.
   */
  lemma PollIdempotent(w: Watcher, obs: Observation)
    ensures var once := Poll(w, obs);
      Poll(once.next, obs) == Reaction(once.next, [])
  {
  }

  /** However long the player keeps reporting the same state, at most one event call results. */
  lemma {:induction false} SameReadingCallsOnce(w: Watcher, obs: Observation, n: nat)
    ensures var r := PollAll(w, seq(n, _ => obs));
      |r.calls| <= 1 && (n > 0 ==> r.next == Poll(w, obs).next)
  {
    if n > 0 {
      var polls := seq(n, _ => obs);
      assert polls[..n - 1] == seq(n - 1, _ => obs);
      SameReadingCallsOnce(w, obs, n - 1);
      if n > 1 {
        PollIdempotent(w, obs);
      }
    }
  }

  /**
   * The loop of `show_lyrics` over the readings `observations` (one per
   * second): the final flags and event and the calls made on the event are
   * those of `PollAll` from the initial state, so the flags stay consistent
   * and the event is set exactly when the last reading found the song
   * paused.
   */
  method Watch(observations: seq<Observation>) returns (paused: bool, resumed: bool, eventSet: bool, calls: seq<Signal>)
    ensures Reaction(Watcher(paused, resumed, eventSet), calls) == PollAll(Initial, observations)
    ensures paused == !resumed && eventSet == paused
    ensures observations != [] ==> (eventSet <==> observations[|observations| - 1].ResumingAllowed?)
    ensures Alternating(calls, false) && (calls != [] ==> calls[0] == SetEvent)
  {
    paused, resumed, eventSet, calls := false, true, false, [];
    var k := 0;
    while k < |observations|
      invariant 0 <= k <= |observations|
      invariant Reaction(Watcher(paused, resumed, eventSet), calls) == PollAll(Initial, observations[..k])
    {
      assert observations[..k + 1][..k] == observations[..k];
      match observations[k] {
        case ResumingDisallowed =>
          if !resumed {
            eventSet := false;
            calls := calls + [ClearEvent];
            resumed := true;
            paused := false;
          }
        case ResumingAllowed =>
          if !paused {
            eventSet := true;
            calls := calls + [SetEvent];
            resumed := false;
            paused := true;
          }
      }
      k := k + 1;
    }
    assert observations[..k] == observations;
    PollAllKeepsConsistent(Initial, observations);
  }
}
