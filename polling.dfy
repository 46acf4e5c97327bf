/** The polling hook (lib/use-interval-polling-results.ts) as a state
    machine: an activation polls once and arms a 2000 ms interval, every
    poll first checks a five-minute ceiling, a delivered snapshot is stored
    and stops polling once the run is complete, and a failed request only
    records an error. Time, timer handles and responses are parameters. */
module Polling {
  import opened Wrappers
  import opened Records
  import CheckStatusRoute

  /** `MAX_POLLING_TIME`: five minutes, in milliseconds. */
  const MaxPollingTime: int := 5 * 60 * 1000

  /** The interval between polls, in milliseconds. */
  const PollInterval: nat := 2000

  /** The answer count at which a snapshot reads as complete. */
  const CompleteAnswerCount: int := 27

  const TimeoutMessage: string := "Timeout: Process took longer than 5 minutes"

  const FailedMessage: string := "Failed to check status"

  /** Everything the hook and its parent keep between renders: the two props,
      the two refs, and the last values handed to `setStatus` and `setError`.
      `interval` is the live timer, if any. */
  datatype PollState = PollState(
    runId: Option<string>,
    isRunning: bool,
    startTime: Option<int>,
    interval: Option<nat>,
    status: Option<RunStatus>,
    error: Option<string>)

  /** How a status request ended: a snapshot, a non-ok response, or a thrown
      `fetch` or `json()`. */
  datatype StatusResponse = Delivered(data: RunStatus) | NotOk | RequestThrew

  /** A state together with whether a status request was issued. */
  datatype Poll = Poll(state: PollState, read: bool)

  const Initial: PollState := PollState(None, false, None, None, None, None)

  /** `!!runId`: null and the empty string are falsy. */
  predicate RunIdSet(id: Option<string>) { id.Some? && id.value != "" }

  /** `!!startTimeRef.current`: null and 0 are falsy. */
  predicate StartSet(start: Option<int>) { start.Some? && start.value != 0 }

  /** The state every reachable configuration keeps: nothing is timed or
      armed while the hook is not running, and a live interval belongs to a
      running hook with a run id. */
  predicate ValidState(s: PollState) {
    && (!s.isRunning ==> s.startTime.None? && s.interval.None?)
    && (s.interval.Some? ==> s.isRunning && RunIdSet(s.runId))
  }

  /** `stopPolling`, followed by the re-render it causes: not running, no
      interval, and the start time reset by the second effect. */
  function Stop(s: PollState): (r: PollState)
    ensures !r.isRunning && r.interval.None? && r.startTime.None?
    ensures r.runId == s.runId && r.status == s.status && r.error == s.error
  {
    s.(isRunning := false, interval := None, startTime := None)
  }

  /** The poll has run past the ceiling: strictly more than five minutes. */
  predicate TimedOut(s: PollState, now: int) {
    StartSet(s.startTime) && now - s.startTime.value > MaxPollingTime
  }

  /** `pollStatus` up to its request: past the ceiling it stops, records the
      timeout and issues nothing; otherwise it issues a status request. */
  function PollStep(s: PollState, now: int): Poll {
    if TimedOut(s, now) then Poll(Stop(s).(error := Some(TimeoutMessage)), false)
    else Poll(s, true)
  }

  /** A render with the props `id` and `running`. When neither changed the
      effect does not run. Otherwise the previous effect's interval is
      cleared, a start time is dropped if not running, and with a run id
      and running the effect takes a start time if it has none, polls at
      once and arms the interval `handle`. When that first poll times out,
      the interval it arms is cleared by the re-render the stop causes. */
  function RenderStep(s: PollState, id: Option<string>, running: bool, now: int, handle: nat): Poll {
    if id == s.runId && running == s.isRunning then Poll(s, false)
    else
      var s1 := s.(runId := id, isRunning := running, interval := None,
                   startTime := if running then s.startTime else None);
      if !RunIdSet(id) || !running then Poll(s1, false)
      else
        var s2 := if StartSet(s1.startTime) then s1 else s1.(startTime := Some(now));
        var p := PollStep(s2, now);
        if p.read then Poll(p.state.(interval := Some(handle)), true) else p
  }

  /** The interval firing: a poll, when an interval is armed. */
  function TickStep(s: PollState, now: int): Poll {
    if s.interval.None? then Poll(s, false) else PollStep(s, now)
  }

  /** The rest of `pollStatus`, once its request has ended. */
  function ReceiveStep(s: PollState, response: StatusResponse): PollState {
    match response
    case Delivered(data) =>
      var s1 := s.(status := Some(data));
      if data.status == Complete || data.completedAnswers == CompleteAnswerCount then Stop(s1) else s1
    case _ => s.(error := Some(FailedMessage))
  }

  /** Every step keeps `ValidState`. */
  lemma StepsKeepValid(s: PollState, id: Option<string>, running: bool, now: int, handle: nat, response: StatusResponse)
    requires ValidState(s)
    ensures ValidState(Initial)
    ensures ValidState(Stop(s))
    ensures ValidState(PollStep(s, now).state)
    ensures ValidState(RenderStep(s, id, running, now, handle).state)
    ensures ValidState(TickStep(s, now).state)
    ensures ValidState(ReceiveStep(s, response))
  {
  }

  /** Nothing is requested unless the hook has a run id and is running. */
  lemma ReadsNeedRunIdAndRunning(s: PollState, id: Option<string>, running: bool, now: int, handle: nat)
    requires ValidState(s)
    ensures RenderStep(s, id, running, now, handle).read ==> RunIdSet(id) && running
    ensures TickStep(s, now).read ==> RunIdSet(s.runId) && s.isRunning
    ensures !s.isRunning ==> TickStep(s, now) == Poll(s, false)
  {
  }

  /** A poll stops, records the timeout and issues no request exactly when
      strictly more than five minutes have passed since a set start time;
      at exactly five minutes it still requests. */
  lemma TimeoutCeiling(s: PollState, now: int)
    ensures var p := PollStep(s, now);
      && (!p.read <==> StartSet(s.startTime) && now - s.startTime.value > MaxPollingTime)
      && (!p.read ==> !p.state.isRunning && p.state.interval.None? && p.state.error == Some(TimeoutMessage))
      && (p.read ==> p.state == s)
    ensures StartSet(s.startTime) ==> PollStep(s, s.startTime.value + MaxPollingTime).read
  {
  }

  /** Stopping twice is stopping once. */
  lemma StopIdempotent(s: PollState)
    ensures Stop(Stop(s)) == Stop(s)
  {
  }

  /** A delivered snapshot is always stored; polling then stops exactly
      when the snapshot is complete or has 27 answers, and otherwise goes on
      with the same interval and start time. */
  lemma DeliveredSnapshot(s: PollState, data: RunStatus)
    ensures var r := ReceiveStep(s, Delivered(data));
      var done := data.status == Complete || data.completedAnswers == CompleteAnswerCount;
      && r.status == Some(data) && r.error == s.error
      && (r.isRunning <==> s.isRunning && !done)
      && (done ==> r.interval.None? && r.startTime.None?)
      && (!done ==> r.interval == s.interval && r.startTime == s.startTime)
  {
  }

  /** A failed request records the error and changes nothing else: polling goes on. */
  lemma FailedRequestKeepsPolling(s: PollState, response: StatusResponse)
    requires !response.Delivered?
    ensures ReceiveStep(s, response) == s.(error := Some(FailedMessage))
    ensures ReceiveStep(s, response).isRunning == s.isRunning
    ensures ReceiveStep(s, response).interval == s.interval
  {
  }

  /** Activating an idle hook starts a fresh window at `now` (a non-zero
      clock), requests once at once, and arms the interval. */
  lemma ActivationStartsFreshWindow(s: PollState, id: string, now: int, handle: nat)
    requires ValidState(s) && !s.isRunning && id != "" && now != 0
    ensures RenderStep(s, Some(id), true, now, handle)
         == Poll(s.(runId := Some(id), isRunning := true, startTime := Some(now), interval := Some(handle)), true)
  {
  }

  /** Once running, a start time is never replaced: a render that changes
      only the run id keeps the old window. */
  lemma RunningKeepsWindow(s: PollState, id: Option<string>, now: int, handle: nat)
    requires s.isRunning && StartSet(s.startTime)
    ensures RenderStep(s, id, true, now, handle).state.startTime in {s.startTime, None}
    ensures RenderStep(s, id, true, now, handle).state.isRunning ==>
              RenderStep(s, id, true, now, handle).state.startTime == s.startTime
  {
  }

  /** Going idle drops the window, so the next activation starts a new one. */
  lemma DeactivationResetsWindow(s: PollState, id: Option<string>, now: int, handle: nat)
    requires s.isRunning
    ensures var p := RenderStep(s, id, false, now, handle);
      !p.read && p.state.startTime.None? && p.state.interval.None? && !p.state.isRunning
  {
  }

  /** The interval firing at the given times, with no request ending in
      between: the final state and the number of requests issued. */
  function Ticks(s: PollState, times: seq<int>): (PollState, nat)
    decreases |times|
  {
    if |times| == 0 then (s, 0)
    else
      var p := TickStep(s, times[0]);
      var (t, n) := Ticks(p.state, times[1..]);
      (t, n + if p.read then 1 else 0)
  }

  /** Ticks within five minutes of the start each issue a request and change nothing. */
  lemma {:induction false} TicksWithinWindow(s: PollState, times: seq<int>)
    requires s.interval.Some? && StartSet(s.startTime)
    requires forall k :: 0 <= k < |times| ==> times[k] - s.startTime.value <= MaxPollingTime
    ensures Ticks(s, times) == (s, |times|)
  {
    if |times| > 0 {
      TicksWithinWindow(s, times[1..]);
    }
  }

  /** A hook that is not polling issues no request, whatever the ticks. */
  lemma {:induction false} TicksWhenStopped(s: PollState, times: seq<int>)
    requires s.interval.None?
    ensures Ticks(s, times) == (s, 0)
  {
    if |times| > 0 {
      TicksWhenStopped(s, times[1..]);
    }
  }

  /** The first tick past the ceiling stops polling for good: no later tick
      issues a request. */
  lemma {:induction false} TicksPastCeiling(s: PollState, times: seq<int>)
    requires s.interval.Some? && StartSet(s.startTime)
    requires |times| > 0 && times[0] - s.startTime.value > MaxPollingTime
    ensures Ticks(s, times).1 == 0 && !Ticks(s, times).0.isRunning
    ensures Ticks(s, times).0.error == Some(TimeoutMessage)
  {
    var p := TickStep(s, times[0]);
    TicksWhenStopped(p.state, times[1..]);
  }

  /** The interval's schedule after an activation at `t0`: the k-th tick at
      `t0 + 2000 * k`. */
  function Schedule(t0: int, from: nat, count: nat): (r: seq<int>)
    ensures |r| == count
    ensures forall k :: 0 <= k < count ==> r[k] == t0 + PollInterval * (from + k)
    decreases count
  {
    if count == 0 then [] else [t0 + PollInterval * from] + Schedule(t0, from + 1, count - 1)
  }

  /** Left alone, one activation issues at most 150 interval requests (plus
      the immediate one): ticks 1 to 150 fall within the five minutes, and
      tick 151 stops polling. */
  lemma ScheduledRequestsAreCapped(s: PollState, count: nat)
    requires s.interval.Some? && StartSet(s.startTime)
    ensures Ticks(s, Schedule(s.startTime.value, 1, count)).1 == if count <= 150 then count else 150
  {
    var t0 := s.startTime.value;
    if count <= 150 {
      TicksWithinWindow(s, Schedule(t0, 1, count));
    } else {
      var times := Schedule(t0, 1, count);
      TicksSplit(s, times[..150], times[150..]);
      assert times[..150] + times[150..] == times;
      TicksWithinWindow(s, times[..150]);
      assert times[150] == t0 + PollInterval * 151;
      TicksPastCeiling(s, times[150..]);
    }
  }

  lemma {:induction false} TicksSplit(s: PollState, xs: seq<int>, ys: seq<int>)
    ensures Ticks(s, xs + ys).0 == Ticks(Ticks(s, xs).0, ys).0
    ensures Ticks(s, xs + ys).1 == Ticks(s, xs).1 + Ticks(Ticks(s, xs).0, ys).1
    decreases |xs|
  {
    if |xs| == 0 {
      assert xs + ys == ys;
    } else {
      assert (xs + ys)[0] == xs[0];
      assert (xs + ys)[1..] == xs[1..] + ys;
      TicksSplit(TickStep(s, xs[0]).state, xs[1..], ys);
    }
  }

  /** A snapshot the status route built from 27 answer records stops polling. */
  lemma CompleteSnapshotStops(s: PollState, runId: string, read: CheckStatusRoute.StoreRead)
    requires |CheckStatusRoute.KeptAnswers(read.values)| == CompleteAnswerCount
    ensures var data := CheckStatusRoute.BuildRunStatus(runId, read, CheckStatusRoute.KeptAnswers(read.values));
      var r := ReceiveStep(s, Delivered(data));
      !r.isRunning && r.interval.None? && r.status == Some(data)
  {
  }

  /** The hook's state and the parent's `isRunning`, updated in place. */
  class PollingController {
    var runId: Option<string>
    var isRunning: bool
    var startTime: Option<int>
    var interval: Option<nat>
    var status: Option<RunStatus>
    var error: Option<string>

    function State(): PollState
      reads this
    {
      PollState(runId, isRunning, startTime, interval, status, error)
    }

    /** The controller is in a reachable configuration: see `ValidState`. */
    predicate Valid()
      reads this
    {
      ValidState(State())
    }

    constructor ()
      ensures Valid() && State() == Initial
    {
      runId, isRunning, startTime, interval, status, error := None, false, None, None, None, None;
    }

    /** `stopPolling` and the re-render it causes. */
    method StopPolling()
      requires Valid()
      modifies this
      ensures Valid()
      ensures State() == Stop(old(State()))
    {
      isRunning := false;
      if interval.Some? {
        interval := None;
      }
      startTime := None;
    }

    /** `pollStatus` up to its request; `read` says whether one was issued. */
    method PollStatus(now: int) returns (read: bool)
      requires Valid()
      modifies this
      ensures Valid()
      ensures Poll(State(), read) == PollStep(old(State()), now)
    {
      if StartSet(startTime) && now - startTime.value > MaxPollingTime {
        StopPolling();
        error := Some(TimeoutMessage);
        return false;
      }
      read := true;
    }

    /** A render with new props: the effects' cleanups and bodies. */
    method Render(id: Option<string>, running: bool, now: int, handle: nat) returns (read: bool)
      requires Valid()
      modifies this
      ensures Valid()
      ensures Poll(State(), read) == RenderStep(old(State()), id, running, now, handle)
      ensures read ==> RunIdSet(runId) && isRunning && interval.Some?
    {
      if id == runId && running == isRunning {
        return false;
      }
      interval := None;
      runId, isRunning := id, running;
      if !running {
        startTime := None;
      }
      if !RunIdSet(id) || !running {
        return false;
      }
      if !StartSet(startTime) {
        startTime := Some(now);
      }
      read := PollStatus(now);
      if read {
        interval := Some(handle);
      }
    }

    /** The interval firing. */
    method Tick(now: int) returns (read: bool)
      requires Valid()
      modifies this
      ensures Valid()
      ensures Poll(State(), read) == TickStep(old(State()), now)
      ensures read ==> RunIdSet(runId) && isRunning && State() == old(State())
    {
      if interval.None? {
        return false;
      }
      read := PollStatus(now);
    }

    /** A status request ending. */
    method Receive(response: StatusResponse)
      requires Valid()
      modifies this
      ensures Valid()
      ensures State() == ReceiveStep(old(State()), response)
    {
      match response {
        case Delivered(data) =>
          status := Some(data);
          if data.status == Complete || data.completedAnswers == CompleteAnswerCount {
            StopPolling();
          }
        case _ =>
          error := Some(FailedMessage);
      }
    }
  }
}
