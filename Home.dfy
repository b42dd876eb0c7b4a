/**
 * The `Home` component as an object: its three `useState` cells and the two
 * scheduler handles created by its effect, updated in place by the events
 * that reach it. Each method is specified by the matching `Lifecycle.Step`.
 */
module HomePage {
  import opened Wrappers
  import opened Presence
  import opened Lifecycle

  class Home {
    var status: string
    var activity: Option<string>
    var progress: seq<int>
    var timerPending: bool    // the 500 ms timeout has been set and not cleared or fired
    var intervalActive: bool  // the 60 s interval has been set and not cleared

    /** The component's state as a value. */
    function State(): HomeState
      reads this
    {
      HomeState(Presence(status, activity), progress, timerPending, intervalActive)
    }

    /** Mount: the initial state values, and the effect sets the timeout and the interval. */
    constructor ()
      ensures State() == Initial()
    {
      status := "offline";
      activity := None;
      progress := [0, 0, 0];
      timerPending := true;
      intervalActive := true;
    }

    /** A fetch resolved and its body parsed to `{success, data}`. */
    method ApplyPollResult(success: bool, data: Option<UserData>)
      modifies this
      ensures State() == Step(old(State()), PollResolved(Response(success, data)))
      ensures !success || data.None? ==> status == old(status) && activity == old(activity)
      ensures success && data.Some? ==>
        status == data.value.discordStatus && activity == ActivityOf(data.value.activities)
      ensures progress == old(progress)
      ensures timerPending == old(timerPending) && intervalActive == old(intervalActive)
    {
      if success {
        match data
        case None =>
          // reading `discord_status` of a missing object throws; the catch only logs
        case Some(d) =>
          status := d.discordStatus;
          var game := if d.activities.Some? then FindGame(d.activities.value) else None;
          if game.Some? {
            activity := Some(game.value.name);
          } else {
            activity := None;
          }
      }
    }

    /** `fetch` or `response.json()` threw: the handler only logs. */
    method ApplyPollFailure()
      ensures State() == Step(old(State()), PollThrew)
    {
    }

    /** The intro timeout fires: the bars jump to their target values. */
    method FireIntroTimer()
      modifies this
      ensures State() == Step(old(State()), IntroTimerFires)
      ensures progress == if old(timerPending) then Target else old(progress)
      ensures !timerPending
      ensures status == old(status) && activity == old(activity) && intervalActive == old(intervalActive)
    {
      if timerPending {
        progress := [80, 15, 5];
        timerPending := false;
      }
    }

    /**
     * The interval ticks: a new fetch starts exactly while the interval is set.
     * When `intervalActive` holds is worked out in `Lifecycle.ProgressFromMount`
     * (until the first unmount) and `Lifecycle.UnmountIsFinal` (never again after it).
     */
    method IntervalFires() returns (startsFetch: bool)
      ensures startsFetch <==> State().intervalActive
    {
      startsFetch := intervalActive;
    }

    /** The effect's cleanup: clears the timeout and the interval, nothing else. */
    method Teardown()
      modifies this
      ensures State() == Step(old(State()), Unmount)
      ensures !timerPending && !intervalActive
      ensures status == old(status) && activity == old(activity) && progress == old(progress)
    {
      timerPending := false;
      intervalActive := false;
    }
  }
}
