/**
 * What one poll of the presence service does to the page's state once its
 * JSON body has been parsed: the `if (data.success)` block of
 * `fetchDiscordStatus` and the `activities?.find(...)` selection in it.
 */
module Presence {
  import opened Wrappers

  /** The type code the presence service uses for a "playing" activity. */
  const GameKind := 0

  /** One entry of `data.activities`: its `type` code and its `name`. */
  datatype Activity = Activity(kind: int, name: string)

  /** The `data` object of a response; `activities` may be absent. */
  datatype UserData = UserData(discordStatus: string, activities: Option<seq<Activity>>)

  /** A parsed response body: the `success` flag and the `data` object, which may be absent. */
  datatype Response = Response(success: bool, data: Option<UserData>)

  /** The two presence values the page keeps in component state. */
  datatype Presence = Presence(status: string, activity: Option<string>)

  /** Entry `i` is a game and no earlier entry is. */
  ghost predicate FirstGameAt(acts: seq<Activity>, i: int) {
    0 <= i < |acts| && acts[i].kind == GameKind &&
    forall j :: 0 <= j < i ==> acts[j].kind != GameKind
  }

  /** `acts.find(a => a.type === 0)`: the first game entry, in list order. */
  function FindGame(acts: seq<Activity>): (r: Option<Activity>)
    ensures r.None? <==> forall i :: 0 <= i < |acts| ==> acts[i].kind != GameKind
    ensures r.Some? ==> exists i :: FirstGameAt(acts, i) && acts[i] == r.value
  {
    if acts == [] then None
    else if acts[0].kind == GameKind then Some(acts[0])
    else
      var r := FindGame(acts[1..]);
      assert r.Some? ==> exists i :: FirstGameAt(acts[1..], i) && acts[1..][i] == r.value;
      assert forall i :: FirstGameAt(acts[1..], i) ==> FirstGameAt(acts, i + 1);
      r
  }

  /** The first game entry is the one `find` returns: later games are ignored. */
  lemma FindGameIsFirst(acts: seq<Activity>, i: int)
    requires FirstGameAt(acts, i)
    ensures FindGame(acts) == Some(acts[i])
  {
  }

  /** Non-game entries before the first game do not affect the choice. */
  lemma {:induction false} FindGameSkipsNonGames(pre: seq<Activity>, rest: seq<Activity>)
    requires forall i :: 0 <= i < |pre| ==> pre[i].kind != GameKind
    ensures FindGame(pre + rest) == FindGame(rest)
  {
    if pre == [] {
      assert pre + rest == rest;
    } else {
      assert (pre + rest)[1..] == pre[1..] + rest;
      FindGameSkipsNonGames(pre[1..], rest);
    }
  }

  /** Once a game entry is found, appending entries does not change the choice. */
  lemma {:induction false} FindGameIgnoresLater(acts: seq<Activity>, rest: seq<Activity>)
    requires FindGame(acts).Some?
    ensures FindGame(acts + rest) == FindGame(acts)
  {
    if acts[0].kind != GameKind {
      assert (acts + rest)[1..] == acts[1..] + rest;
      FindGameIgnoresLater(acts[1..], rest);
    }
  }

  /**
   * `activities?.find(...)` followed by `if (gameActivity) name else null`:
   * an absent list and a list without a game both give no activity.
   */
  function ActivityOf(activities: Option<seq<Activity>>): (r: Option<string>)
    ensures activities.None? ==> r.None?
    ensures activities.Some? ==>
      (r.None? <==> forall i :: 0 <= i < |activities.value| ==> activities.value[i].kind != GameKind)
    ensures r.Some? ==>
      activities.Some? && exists i :: FirstGameAt(activities.value, i) && activities.value[i].name == r.value
  {
    match activities
    case None => None
    case Some(acts) =>
      match FindGame(acts)
      case None => None
      case Some(game) => Some(game.name)
  }

  /**
   * The effect of a parsed response on status and activity. Nothing happens
   * unless `success` holds; a missing `data` object makes the field access
   * throw inside the `try`, which is caught, so nothing happens either.
   */
  function ApplyResponse(p: Presence, resp: Response): (q: Presence)
    ensures !resp.success ==> q == p
    ensures resp.data.None? ==> q == p
    ensures resp.success && resp.data.Some? ==>
      q.status == resp.data.value.discordStatus && q.activity == ActivityOf(resp.data.value.activities)
  {
    if !resp.success then p
    else
      match resp.data
      case None => p
      case Some(d) => Presence(d.discordStatus, ActivityOf(d.activities))
  }

  /** A successful response overwrites both values: the prior presence is irrelevant. */
  lemma SuccessForgetsPrior(p1: Presence, p2: Presence, d: UserData)
    ensures ApplyResponse(p1, Response(true, Some(d))) == ApplyResponse(p2, Response(true, Some(d)))
  {
  }

  /** Applying the same response twice is the same as applying it once. */
  lemma ApplyResponseIdempotent(p: Presence, resp: Response)
    ensures ApplyResponse(ApplyResponse(p, resp), resp) == ApplyResponse(p, resp)
  {
  }

  /** The activity is the name of the first game entry, whatever precedes or follows it. */
  lemma {:induction false} FirstGameNameWins(p: Presence, status: string, pre: seq<Activity>, game: Activity, rest: seq<Activity>)
    requires forall i :: 0 <= i < |pre| ==> pre[i].kind != GameKind
    requires game.kind == GameKind
    ensures ApplyResponse(p, Response(true, Some(UserData(status, Some(pre + [game] + rest))))).activity == Some(game.name)
  {
    assert pre + [game] + rest == pre + ([game] + rest);
    FindGameSkipsNonGames(pre, [game] + rest);
  }

  /** A successful response without a game entry clears a previous activity. */
  lemma NoGameClearsActivity(p: Presence, d: UserData)
    requires d.activities.None? || forall i :: 0 <= i < |d.activities.value| ==> d.activities.value[i].kind != GameKind
    ensures ApplyResponse(p, Response(true, Some(d))).activity == None
  {
  }

  /**
   * `{discordActivity && ...}`: the "playing" badge is rendered unless the
   * activity is one of the falsy values it can hold, null or "".
   */
  predicate ShowsActivityBadge(activity: Option<string>)
    ensures ShowsActivityBadge(activity) <==> activity != None && activity != Some("")
  {
    activity.Some? && activity.value != ""
  }

  /**
   * After a successful poll the badge is shown exactly when the first game
   * entry exists and has a non-empty name.
   */
  lemma BadgeAfterSuccess(p: Presence, d: UserData)
    ensures ShowsActivityBadge(ApplyResponse(p, Response(true, Some(d))).activity) <==>
      d.activities.Some? && exists i :: FirstGameAt(d.activities.value, i) && d.activities.value[i].name != ""
  {
  }
}
