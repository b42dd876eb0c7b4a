/**
 * The page's whole state machine as values: the initial `useState` values,
 * the events that reach the component (a poll resolving, a poll throwing,
 * the one-shot intro timer firing, the effect's cleanup on unmount) and
 * what a sequence of them leaves behind.
 */
module Lifecycle {
  import opened Wrappers
  import opened Presence

  /** The percentages the three skill bars animate to. */
  const Target: seq<int> := [80, 15, 5]
  const Zero: seq<int> := [0, 0, 0]

  /**
   * Component state plus the two scheduler handles: whether the 500 ms
   * timeout is still pending and whether the 60 s interval is still set.
   */
  datatype HomeState = HomeState(presence: Presence, progress: seq<int>, timerPending: bool, intervalActive: bool)

  /** The state right after mount: the `useState` initial values and both handles set. */
  function Initial(): (s: HomeState)
    ensures s.presence.status == "offline" && s.presence.activity == None
    ensures s.progress == Zero && |s.progress| == 3
    ensures s.timerPending && s.intervalActive
  {
    HomeState(Presence("offline", None), [0, 0, 0], true, true)
  }

  datatype Event =
    | PollResolved(resp: Response)  // a fetch whose body was parsed
    | PollThrew                     // fetch() or json() rejected; the catch only logs
    | IntroTimerFires               // the 500 ms timeout callback
    | Unmount                       // the effect's cleanup closure

  /** One event. No event ever re-arms a cleared handle. */
  function Step(s: HomeState, e: Event): (t: HomeState)
    ensures t.presence != s.presence ==> e.PollResolved?
    ensures e.PollResolved? ==> t.presence == ApplyResponse(s.presence, e.resp)
    ensures t.progress != s.progress ==> e.IntroTimerFires? && s.timerPending && t.progress == Target
    ensures e.IntroTimerFires? && s.timerPending ==> t.progress == Target
    ensures t.timerPending <==> s.timerPending && !e.IntroTimerFires? && !e.Unmount?
    ensures t.intervalActive <==> s.intervalActive && !e.Unmount?
  {
    match e
    case PollResolved(resp) => s.(presence := ApplyResponse(s.presence, resp))
    case PollThrew => s
    case IntroTimerFires =>
      if s.timerPending then s.(progress := Target, timerPending := false) else s
    case Unmount => s.(timerPending := false, intervalActive := false)
  }

  /** The state after the events `es`, in order. */
  function Run(s: HomeState, es: seq<Event>): HomeState
    decreases |es|
  {
    if es == [] then s else Step(Run(s, es[..|es| - 1]), es[|es| - 1])
  }

  /** The data of the last successful response among `es`, if any. */
  function LastUpdate(es: seq<Event>): Option<UserData>
    decreases |es|
  {
    if es == [] then None
    else
      var e := es[|es| - 1];
      if e.PollResolved? && e.resp.success && e.resp.data.Some? then e.resp.data
      else LastUpdate(es[..|es| - 1])
  }

  /**
   * Status and activity always agree with the most recent successful poll,
   * and keep their earlier values when no poll succeeded.
   */
  lemma {:induction false} PresenceTracksLastUpdate(s: HomeState, es: seq<Event>)
    ensures Run(s, es).presence ==
      match LastUpdate(es)
      case None => s.presence
      case Some(d) => Presence(d.discordStatus, ActivityOf(d.activities))
    decreases |es|
  {
    if es != [] {
      PresenceTracksLastUpdate(s, es[..|es| - 1]);
    }
  }

  predicate StopsTimer(e: Event) {
    e.IntroTimerFires? || e.Unmount?
  }

  /** Event `i` is the intro timer firing while it was still pending. */
  ghost predicate TimerFiresAt(es: seq<Event>, i: int) {
    0 <= i < |es| && es[i].IntroTimerFires? &&
    forall j :: 0 <= j < i ==> !StopsTimer(es[j])
  }

  /**
   * From mount, the skill bars show [0,0,0] until the timer fires and
   * exactly [80,15,5] from then on; an unmount before the timer fires keeps
   * them at zero for good. Each handle is live until the event that clears it.
   */
  lemma {:induction false} ProgressFromMount(es: seq<Event>)
    ensures Run(Initial(), es).progress == if exists i :: TimerFiresAt(es, i) then Target else Zero
    ensures Run(Initial(), es).timerPending <==> forall j :: 0 <= j < |es| ==> !StopsTimer(es[j])
    ensures Run(Initial(), es).intervalActive <==> forall j :: 0 <= j < |es| ==> !es[j].Unmount?
    decreases |es|
  {
    if es != [] {
      var n := |es| - 1;
      var pre, e := es[..n], es[n];
      assert es == pre + [e];
      ProgressFromMount(pre);
      var u := Run(Initial(), pre);
      assert forall i :: i != n ==> (TimerFiresAt(es, i) <==> TimerFiresAt(pre, i));
      assert TimerFiresAt(es, n) <==> e.IntroTimerFires? && u.timerPending;
    }
  }

  /** Whatever the events, the bars either keep their value or reach [80,15,5]. */
  lemma {:induction false} ProgressSettles(s: HomeState, es: seq<Event>)
    ensures Run(s, es).progress == s.progress || Run(s, es).progress == Target
    ensures s.progress == Target ==> Run(s, es).progress == Target
    decreases |es|
  {
    if es != [] {
      ProgressSettles(s, es[..|es| - 1]);
    }
  }

  /** The cleanup closure may run twice with the same effect as once. */
  lemma UnmountIdempotent(s: HomeState)
    ensures Step(Step(s, Unmount), Unmount) == Step(s, Unmount)
  {
  }

  /**
   * After unmount neither handle comes back and the intro timer no longer
   * changes the bars, whatever happens next.
   */
  lemma {:induction false} UnmountIsFinal(s: HomeState, es: seq<Event>)
    ensures !Run(Step(s, Unmount), es).timerPending
    ensures !Run(Step(s, Unmount), es).intervalActive
    ensures Run(Step(s, Unmount), es).progress == s.progress
    decreases |es|
  {
    if es != [] {
      UnmountIsFinal(s, es[..|es| - 1]);
    }
  }

  /**
   * The cleanup clears only the timeout and the interval and sets no
   * liveness flag: a successful result that arrives afterwards still runs
   * the setters.
   */
  lemma UnmountDoesNotGuardResults(s: HomeState, d: UserData)
    ensures Step(Step(s, Unmount), PollResolved(Response(true, Some(d)))).presence ==
      Presence(d.discordStatus, ActivityOf(d.activities))
  {
  }
}
