/** Starting a stopped database and waiting until it is usable, against an API and a
    clock that may do anything a monotone clock can. */
module AdbWaiter {
  import opened Collections
  import opened AdbPace
  import opened AdbPolling
  import opened AdbTrace
  import opened Numbers

  /** Whether a failed call ends the run: it is fatal, the fifth in a row, or late. */
  predicate Raises(failure: Failure, errors: nat, late: bool) {
    !failure.Transient() || errors >= MAX_TRANSIENT_ERRORS || late
  }

  /** What the answer to a start request leads to; a conflict is looked at again in the next
      iteration. */
  function StartOutcome(failure: Option<Failure>, errors: nat, late: bool): Option<Refusal> {
    if failure.None? || failure.value.status == Some(409) then None
    else if failure.value.status == Some(404) then Some(NotAllowed)
    else if Raises(failure.value, errors, late) then Some(CallFailed)
    else None
  }

  // ----- multiples of the interval

  /** Enough intervals exceed any timeout. */
  lemma Enough(timeout: real, interval: real) returns (n: nat)
    requires interval > 0.0
    ensures Times(n, interval) >= timeout
  {
    if timeout <= 0.0 {
      n := 0;
    } else {
      var q := timeout / interval;
      n := q.Floor + 1;
      TimesProduct(n, interval);
      assert n as real > q;
      Scale(q, n as real, interval);
      assert q * interval == timeout;
    }
  }

  lemma Scale(x: real, y: real, k: real)
    requires x <= y && k >= 0.0
    ensures x * k <= y * k
  {
  }

  /** What a run did: the iterations that went on waiting, the state each iteration read, how many
      iterations there were, and how many state calls. */
  datatype Run = Run(log: seq<Visit>, seen: seq<string>, iterations: nat, calls: nat)

  function Logged(log: seq<Visit>, visit: Option<Visit>): seq<Visit> {
    if visit.Some? then log + [visit.value] else log
  }

  function Seen(seen: seq<string>, state: Option<string>): seq<string> {
    if state.Some? then seen + [state.value] else seen
  }

  function More(run: Run, state: Option<string>, visit: Option<Visit>, made: nat): Run {
    Run(Logged(run.log, visit), Seen(run.seen, state), run.iterations + 1, run.calls + made)
  }

  class Waiter {
    const world: World
    const timeoutSeconds: real
    const intervalSeconds: real
    const startedAt: real
    var transientErrors: nat

    constructor (world: World, timeoutSeconds: real, intervalSeconds: real)
      ensures this.world == world && startedAt == world.now && transientErrors == 0
      ensures this.timeoutSeconds == timeoutSeconds && this.intervalSeconds == intervalSeconds
    {
      this.world, this.timeoutSeconds, this.intervalSeconds := world, timeoutSeconds, intervalSeconds;
      startedAt, transientErrors := world.now, 0;
    }

    predicate Late()
      reads this, world
    {
      world.now - startedAt >= timeoutSeconds
    }

    /** Counts a transient failure; `raised` ends the run. */
    method HandleFailure(failure: Failure) returns (raised: bool)
      requires !AfterFound(world.trace)
      modifies this`transientErrors, world
      ensures world.now >= old(world.now) && (world.exact ==> world.now == old(world.now))
      ensures transientErrors == old(transientErrors) + if failure.Transient() then 1 else 0
      ensures raised <==> Raises(failure, transientErrors, Late())
      ensures Grown(old(world.trace), world.trace, None, None, 0)
      ensures !AfterFound(world.trace) && LastCall(world.trace) == old(LastCall(world.trace))
      ensures world.exact ==> PollsOn(old(world.trace), old(world.now), Awake, world.trace, world.now, Awake, intervalSeconds)
    {
      hide Grown, AfterFound, LastCall, PollsOn;
      GrownNot(world.trace);
      PollsSame(world.trace, world.now, Awake, intervalSeconds);
      if !failure.Transient() {
        return true;
      }
      transientErrors := transientErrors + 1;
      if transientErrors >= MAX_TRANSIENT_ERRORS {
        return true;
      }
      ghost var before := world.trace;
      var t := world.Clock();
      assert world.trace == before + [Read(t)];
      GrownRead(before, t);
      PollsRead(before, t, Awake, intervalSeconds);
      raised := t - startedAt >= timeoutSeconds;
    }

    /** One state call and, if it fails, the count of its failure. */
    method TryGet() returns (state: Option<string>, raised: bool)
      modifies this`transientErrors, world
      ensures Grown(old(world.trace), world.trace, state, None, 1)
      ensures world.now >= old(world.now) && (world.exact ==> world.now == old(world.now))
      ensures state.Some? ==> AfterFound(world.trace) && FoundState(world.trace) == state.value
      ensures state.Some? ==> transientErrors == old(transientErrors)
      ensures state.None? ==> old(transientErrors) <= transientErrors <= old(transientErrors) + 1
      ensures state.None? && raised ==> CallRaised(world.trace, transientErrors, Late())
      ensures state.None? && !raised ==>
        old(transientErrors) + 1 == transientErrors < MAX_TRANSIENT_ERRORS && !Late()
      ensures world.exact && intervalSeconds >= 0.0 ==>
        PollsOn(old(world.trace), old(world.now), Slept, world.trace, world.now, if state.Some? then Fresh else Awake, intervalSeconds)
    {
      hide Grown, AfterFound, FoundState, LastCall, PollsOn;
      ghost var before := world.trace;
      var answer := world.Get();
      ghost var after := world.trace;
      assert after == before + [Got(answer)];
      GrownGet(before, answer);
      ghost var now := world.now;
      if intervalSeconds >= 0.0 { PollsGet(before, now, Slept, answer, intervalSeconds); }
      match answer {
        case Found(found) =>
          state, raised := Some(found), false;
        case Failed(failure) =>
          state := None;
          raised := HandleFailure(failure);
          GrownTwice(before, after, world.trace, None, None, 1, None, None, 0);
          if world.exact && intervalSeconds >= 0.0 {
            PollsTwice(before, now, Slept, after, now, Awake, world.trace, world.now, Awake, intervalSeconds);
          }
      }
    }

    /** The state, with transient failures retried; `None` ends the run. */
    method GetState() returns (state: Option<string>, calls: nat)
      modifies this`transientErrors, world
      ensures 1 <= calls <= MAX_TRANSIENT_ERRORS - Min(old(transientErrors), MAX_TRANSIENT_ERRORS - 1)
      ensures Grown(old(world.trace), world.trace, state, None, calls)
      ensures state.Some? ==> AfterFound(world.trace) && FoundState(world.trace) == state.value && transientErrors == 0
      ensures state.None? ==> CallRaised(world.trace, transientErrors, Late())
      ensures world.now >= old(world.now)
      ensures world.exact && intervalSeconds >= 0.0 ==>
        world.now == old(world.now) || world.now < startedAt + timeoutSeconds + intervalSeconds
      ensures world.exact && intervalSeconds >= 0.0 ==>
        PollsOn(old(world.trace), old(world.now), Slept, world.trace, world.now, if state.Some? then Fresh else Awake, intervalSeconds)
    {
      calls := 0;
      hide Grown, AfterFound, FoundState, LastCall, CallRaised, PollsOn;
      GrownNot(world.trace);
      PollsSame(world.trace, world.now, Slept, intervalSeconds);
      ghost var began, first := world.trace, world.now;
      while true
        invariant world.now >= old(world.now)
        invariant Grown(began, world.trace, None, None, calls)
        invariant transientErrors == old(transientErrors) + calls
        invariant calls > 0 ==> transientErrors < MAX_TRANSIENT_ERRORS
        invariant world.exact && intervalSeconds >= 0.0 ==>
          world.now == old(world.now) || world.now < startedAt + timeoutSeconds + intervalSeconds
        invariant world.exact && intervalSeconds >= 0.0 ==>
          PollsOn(began, first, Slept, world.trace, world.now, Slept, intervalSeconds)
        decreases if calls == 0 then 2 * MAX_TRANSIENT_ERRORS else MAX_TRANSIENT_ERRORS - transientErrors
      {
        ghost var before, now := world.trace, world.now;
        var raised;
        state, raised := TryGet();
        GrownTwice(began, before, world.trace, None, None, calls, state, None, 1);
        if world.exact && intervalSeconds >= 0.0 {
          PollsTwice(began, first, Slept, before, now, Slept, world.trace, world.now, if state.Some? then Fresh else Awake, intervalSeconds);
        }
        calls := calls + 1;
        if state.Some? {
          transientErrors := 0;
          return;
        }
        if raised {
          return;
        }
        now := world.now;
        world.Sleep(intervalSeconds);
        if world.exact && intervalSeconds >= 0.0 {
          PollsRest(world.trace, now, world.now, intervalSeconds);
          PollsTwice(began, first, Slept, world.trace, now, Awake, world.trace, world.now, Slept, intervalSeconds);
        }
      }
    }

    /** Asks for a start. */
    method RequestStart() returns (refused: Option<Refusal>)
      modifies this`transientErrors, world
      ensures world.now >= old(world.now) && (world.exact ==> world.now == old(world.now))
      ensures Asked(old(world.trace), world.trace, refused, transientErrors, Late())
      ensures world.exact ==> PollsOn(old(world.trace), old(world.now), Awake, world.trace, world.now, Awake, intervalSeconds)
    {
      ghost var before, now := world.trace, world.now;
      var failure := world.Start();
      ghost var after := world.trace;
      assert after == before + [Started(failure)];
      StartCalled(before, failure);
      GrownNot(after);
      PollsStart(before, now, failure, intervalSeconds);
      hide Grown, AfterFound, LastCall, PollsOn;
      if failure.None? || failure.value.status == Some(409) {
        refused := None;
      } else if failure.value.status == Some(404) {
        refused := Some(NotAllowed);
      } else {
        var raised := HandleFailure(failure.value);
        refused := if raised then Some(CallFailed) else None;
        if world.exact { PollsTwice(before, now, Awake, after, now, Awake, world.trace, world.now, Awake, intervalSeconds); }
      }
      assert AskedWith(before, world.trace, failure, refused, transientErrors, Late());
    }

    /** What a stopped or busy state leads to: perhaps a request, and the time left. */
    method Decide(s: string, last: Option<real>) returns (visit: Visit, refused: Option<Refusal>, remaining: real)
      requires AfterFound(world.trace) && FoundState(world.trace) == s
      modifies this`transientErrors, world
      ensures visit.state == s && visit.requested == Due(s, last, visit.time)
      ensures old(world.now) <= visit.time <= world.now && (world.exact ==> world.now == old(world.now))
      ensures refused.None? ==> remaining == timeoutSeconds - (world.now - startedAt)
      ensures Grown(old(world.trace), world.trace, None, Some(visit), 0)
      ensures refused.Some? ==> visit.requested && StartRefused(world.trace, refused.value, transientErrors, Late())
      ensures world.exact ==> PollsOn(old(world.trace), old(world.now), Fresh, world.trace, world.now, Awake, intervalSeconds)
    {
      hide Due, Grown, AfterFound, FoundState, LastCall, Asked, StartRefused, PollsOn;
      ghost var began := world.trace;
      var now := world.Clock();
      ghost var read := world.trace;
      assert read == began + [Read(now)];
      GrownRead(began, now);
      PollsRead(began, now, Fresh, intervalSeconds);
      visit, refused, remaining := Visit(s, now, Due(s, last, now)), None, 0.0;
      if visit.requested {
        refused := RequestStart();
        AskedGrows(began, now, world.trace, refused, transientErrors, Late());
        if world.exact { PollsTwice(began, now, Fresh, read, now, Awake, world.trace, world.now, Awake, intervalSeconds); }
        if refused.Some? { return; }
      }
      ghost var before := world.trace;
      var t := world.Clock();
      assert world.trace == before + [Read(t)];
      GrownRead(before, t);
      GrownTwice(began, before, world.trace, None, Some(visit), 0, None, None, 0);
      if world.exact {
        PollsRead(before, t, Awake, intervalSeconds);
        PollsTwice(began, now, Fresh, before, now, Awake, world.trace, world.now, Awake, intervalSeconds);
      }
      remaining := timeoutSeconds - (t - startedAt);
    }

    /** One iteration: reads the state, and on a waiting state decides and sleeps.
        `visit` is set when the state was a waiting one, `result` when the run ends. */
    method Iterate(last: Option<real>)
      returns (result: Option<Result>, state: Option<string>, visit: Option<Visit>, made: nat, ghost decided: real)
      requires intervalSeconds > 0.0
      modifies this`transientErrors, world
      ensures Grown(old(world.trace), world.trace, state, visit, made)
      ensures result.None? ==> visit.Some?
      ensures result.Some? ==> Shown(world.trace, result.value, transientErrors, Late())
      ensures Iterated(last, old(world.now), result, state, visit, made, decided, world.now, startedAt, timeoutSeconds, intervalSeconds)
      ensures world.exact ==>
        Prompt(old(world.now), world.now, startedAt, timeoutSeconds, intervalSeconds, result.None?)
      ensures world.exact ==>
        PollsOn(old(world.trace), old(world.now), Slept, world.trace, world.now, if result.None? then Slept else Fresh, intervalSeconds)
    {
      result, visit := None, None;
      ghost var began, first := world.trace, world.now;
      hide KindOf, Due, Grown, AfterFound, FoundState, StartRefused, CallRaised, PollsOn;
      state, made := GetState();
      decided := world.now;
      if state.None? {
        if world.exact { PollsEnd(began, first, Slept, world.trace, world.now, intervalSeconds); }
        return Some(Refused(CallFailed)), state, None, made, decided;
      }
      var s := state.value;
      if KindOf(s) == Open {
        return Some(Usable(s)), state, None, made, decided;
      }
      if KindOf(s) == Hopeless {
        return Some(Refused(StopState)), state, None, made, decided;
      }
      ghost var found, now := world.trace, world.now;
      var v, refused, remaining := Decide(s, last);
      GrownTwice(began, found, world.trace, Some(s), None, made, None, Some(v), 0);
      if world.exact {
        PollsTwice(began, first, Slept, found, now, Fresh, world.trace, world.now, Awake, intervalSeconds);
        PollsEnd(began, first, Slept, world.trace, world.now, intervalSeconds);
      }
      visit, decided := Some(v), world.now;
      if refused.Some? {
        RefusalShown(world.trace, refused.value, transientErrors, Late());
        return Some(Refused(refused.value)), state, visit, made, decided;
      }
      if remaining <= 0.0 {
        return Some(Refused(TimedOut)), state, visit, made, decided;
      }
      now := world.now;
      world.Sleep(if intervalSeconds <= remaining then intervalSeconds else remaining);
      if world.exact {
        PollsRest(world.trace, now, world.now, intervalSeconds);
        PollsTwice(began, first, Slept, world.trace, now, Awake, world.trace, world.now, Slept, intervalSeconds);
      }
    }

    /** Waits until the database is usable. The trace shows the states found, the decisions and
        the calls of the run, and it shows the reason of the result. */
    method Ensure() returns (result: Result, run: Run)
      requires intervalSeconds > 0.0 && world.now >= startedAt
      modifies this`transientErrors, world
      ensures Recorded(old(world.trace), world.trace, run.log, run.seen, run.calls)
      ensures Shown(world.trace, result, transientErrors, Late())
      ensures Finished(run.log, run.seen, run.iterations, run.calls, startedAt, timeoutSeconds, intervalSeconds)
      ensures Explained(result, run.log, run.seen, run.iterations, world.now - startedAt >= timeoutSeconds)
      ensures world.exact && old(world.now) == startedAt && timeoutSeconds >= 0.0 ==>
        world.now < startedAt + timeoutSeconds + intervalSeconds
      ensures world.exact && old(world.now) == startedAt ==>
        Keeps(world.trace, |old(world.trace)|, startedAt, intervalSeconds, world.now, Fresh)
    {
      run := Run([], [], 0, 0);
      var lastStartRequest: Option<real> := None;
      ghost var begun, start, timeout, interval := world.trace, startedAt, timeoutSeconds, intervalSeconds;
      ghost var bound := Enough(timeout, interval);
      ghost var promptly := world.exact && world.now == start && timeout >= 0.0;
      ghost var first := world.now;
      RunBegins(world.trace, world.now, start, timeout, interval, bound, promptly);
      KeepsNothing(begun, start, interval);
      PollsSame(begun, first, Slept, interval);
      hide *;
      while true
        invariant InRun(begun, world.trace, run, lastStartRequest, world.now, start, timeout, interval, bound, promptly)
        invariant world.exact ==> PollsOn(begun, first, Slept, world.trace, world.now, Slept, interval)
        decreases bound - run.iterations
      {
        ghost var began, trace := world.now, world.trace;
        var ended, state, visit, made, decided := Iterate(lastStartRequest);
        if world.exact {
          PollsTwice(begun, first, Slept, trace, began, Slept, world.trace, world.now, if ended.None? then Slept else Fresh, interval);
        }
        if ended.Some? {
          if world.exact && first == start {
            KeepsOn(begun, first, Slept, world.trace, world.now, Fresh, interval, |begun|, start);
          }
          RunEnds(begun, trace, run, lastStartRequest, began, start, timeout, interval, bound, promptly,
                  world.trace, ended.value, state, visit, made, decided, world.now);
          return ended.value, More(run, state, visit, made);
        }
        RunGoesOn(begun, trace, run, lastStartRequest, began, start, timeout, interval, bound, promptly,
                  world.trace, state, visit, made, decided, world.now);
        run := More(run, state, visit, made);
        if visit.value.requested {
          lastStartRequest := Some(visit.value.time);
        }
      }
    }
  }

  // ----- what the trace shows

  /** A start call and its answer, after which at most the clock was read. */
  ghost predicate Asked(before: seq<Event>, after: seq<Event>, refused: Option<Refusal>, errors: nat, late: bool) {
    exists failure :: AskedWith(before, after, failure, refused, errors, late)
  }

  ghost predicate AskedWith(before: seq<Event>, after: seq<Event>, failure: Option<Failure>, refused: Option<Refusal>,
                            errors: nat, late: bool)
  {
    && Grown(before + [Started(failure)], after, None, None, 0)
    && LastCall(after) == Some(Started(failure)) && !AfterFound(after)
    && refused == StartOutcome(failure, errors, late)
  }

  lemma StartCalled(before: seq<Event>, failure: Option<Failure>)
    ensures var after := before + [Started(failure)]; !AfterFound(after) && LastCall(after) == Some(Started(failure))
  {
  }

  lemma AskedGrows(began: seq<Event>, now: real, after: seq<Event>, refused: Option<Refusal>, errors: nat, late: bool)
    requires AfterFound(began) && Asked(began + [Read(now)], after, refused, errors, late)
    ensures Grown(began, after, None, Some(Visit(FoundState(began), now, true)), 0) && !AfterFound(after)
    ensures refused.Some? ==> StartRefused(after, refused.value, errors, late)
  {
    hide Grown, AfterFound, FoundState, LastCall, StartOutcome;
    var failure :| AskedWith(began + [Read(now)], after, failure, refused, errors, late);
    GrownStart(began, now, failure);
    GrownTwice(began, began + [Read(now)] + [Started(failure)], after, None, Some(Visit(FoundState(began), now, true)), 0, None, None, 0);
  }

  /** The last call is a start whose answer leads to this refusal. */
  ghost predicate StartRefused(run: seq<Event>, refusal: Refusal, errors: nat, late: bool) {
    && LastCall(run).Some? && LastCall(run).value.Started?
    && StartOutcome(LastCall(run).value.failure, errors, late) == Some(refusal)
  }

  /** The last call is for the state, and its failure ends the run. */
  ghost predicate CallRaised(run: seq<Event>, errors: nat, late: bool) {
    && LastCall(run).Some? && LastCall(run).value.Got? && LastCall(run).value.answer.Failed?
    && Raises(LastCall(run).value.answer.failure, errors, late)
  }

  /** The trace ends with the reason of the result: the state just found is open, or stops the
      run; or the last call's failure does; or it is late. */
  ghost predicate Shown(run: seq<Event>, result: Result, errors: nat, late: bool) {
    match result
    case Usable(state) => AfterFound(run) && FoundState(run) == state && KindOf(state) == Open
    case Refused(StopState) => AfterFound(run) && KindOf(FoundState(run)) == Hopeless
    case Refused(CallFailed) => CallRaised(run, errors, late) || StartRefused(run, CallFailed, errors, late)
    case Refused(NotAllowed) => StartRefused(run, NotAllowed, errors, late)
    case Refused(TimedOut) => late
  }

  /** With calls that take no time, a run that gives up for lack of time has made a state call for
      each interval of the timeout. */
  lemma TimedOutCalls(t: seq<Event>, t': seq<Event>, run: Run, errors: nat, start: real, timeout: real, interval: real, now: real)
    requires Recorded(t, t', run.log, run.seen, run.calls) && Keeps(t', |t|, start, interval, now, Fresh)
    requires Shown(t', Refused(TimedOut), errors, now - start >= timeout)
    ensures timeout <= run.calls as real * interval
  {
    hide Recorded, Keeps;
    CallsEnough(t, t', run.log, run.seen, run.calls, start, interval, now);
  }

  lemma RefusalShown(run: seq<Event>, refusal: Refusal, errors: nat, late: bool)
    requires StartRefused(run, refusal, errors, late)
    ensures refusal in {NotAllowed, CallFailed} && Shown(run, Refused(refusal), errors, late)
  {
    hide LastCall, AfterFound, CallRaised;
  }

  lemma NothingRecorded(t: seq<Event>)
    ensures Recorded(t, t, [], [], 0)
  {
  }

  lemma RecordedMore(t: seq<Event>, run: seq<Event>, run': seq<Event>, log: seq<Visit>, seen: seq<string>, calls: nat,
                     state: Option<string>, visit: Option<Visit>, made: nat)
    requires Recorded(t, run, log, seen, calls) && Grown(run, run', state, visit, made)
    ensures Recorded(t, run', Logged(log, visit), Seen(seen, state), calls + made)
  {
    LoggedIs(log, visit);
    SeenIs(seen, state);
    hide LogOf, Founds, Gets, Starts, Requests, Logged, Seen;
    AddOn(LogOf(t), log, if visit.Some? then [visit.value] else []);
    AddOn(Founds(t), seen, if state.Some? then [state.value] else []);
  }

  lemma LoggedIs(log: seq<Visit>, visit: Option<Visit>)
    ensures Logged(log, visit) == log + if visit.Some? then [visit.value] else []
    ensures Requests(Logged(log, visit)) == Requests(log) + if visit.Some? && visit.value.requested then 1 else 0
  {
    if visit.Some? {
      assert (log + [visit.value])[..|log|] == log;
    } else {
      assert log + [] == log;
    }
  }

  lemma SeenIs(seen: seq<string>, state: Option<string>)
    ensures Seen(seen, state) == seen + if state.Some? then [state.value] else []
  {
    assert seen + [] == seen;
  }

  lemma AddOn<T>(a: seq<T>, b: seq<T>, c: seq<T>)
    ensures a + b + c == a + (b + c)
  {
  }

  ghost predicate OnTime(now: real, start: real, timeout: real) {
    now <= start + timeout
  }

  /** An iteration that begins on time ends before one interval more, and on time if it goes on. */
  ghost predicate Prompt(began: real, now: real, start: real, timeout: real, interval: real, goesOn: bool) {
    OnTime(began, start, timeout) ==> now < start + timeout + interval && (goesOn ==> OnTime(now, start, timeout))
  }

  // ----- the loop of a run

  /** The facts at the head of an iteration of the run recorded so far. */
  ghost predicate InRun(t: seq<Event>, t': seq<Event>, run: Run, last: Option<real>, now: real,
                        start: real, timeout: real, interval: real, bound: nat, prompt: bool)
    ensures InRun(t, t', run, last, now, start, timeout, interval, bound, prompt) ==> run.iterations <= bound
  {
    && Recorded(t, t', run.log, run.seen, run.calls)
    && Going(run.log, run.seen, run.iterations, run.calls, now, start, timeout, interval)
    && last == LastRequest(run.log) && run.iterations <= bound && interval > 0.0 && timeout <= Times(bound, interval)
    && (prompt ==> OnTime(now, start, timeout))
  }

  lemma RunBegins(t: seq<Event>, now: real, start: real, timeout: real, interval: real, bound: nat, prompt: bool)
    requires start <= now && interval > 0.0 && timeout <= Times(bound, interval)
    requires prompt ==> now == start && timeout >= 0.0
    ensures InRun(t, t, Run([], [], 0, 0), None, now, start, timeout, interval, bound, prompt)
  {
    hide Recorded, Going, Times;
    NothingRecorded(t);
    GoingStart(now, start, timeout, interval);
  }

  lemma RunEnds(t: seq<Event>, t': seq<Event>, run: Run, last: Option<real>, began: real, start: real, timeout: real,
                interval: real, bound: nat, prompt: bool, t'': seq<Event>, result: Result,
                state: Option<string>, visit: Option<Visit>, made: nat, decided: real, now: real)
    requires InRun(t, t', run, last, began, start, timeout, interval, bound, prompt)
    requires Grown(t', t'', state, visit, made) && (prompt ==> Prompt(began, now, start, timeout, interval, false))
    requires Iterated(last, began, Some(result), state, visit, made, decided, now, start, timeout, interval)
    ensures var run' := More(run, state, visit, made);
      && Recorded(t, t'', run'.log, run'.seen, run'.calls)
      && Finished(run'.log, run'.seen, run'.iterations, run'.calls, start, timeout, interval)
      && Explained(result, run'.log, run'.seen, run'.iterations, now - start >= timeout)
    ensures prompt ==> now < start + timeout + interval
  {
    hide Recorded, Going, Times, Grown, Iterated, LastRequest, Finished, Explained, Logged, Seen, More, OnTime;
    if prompt { EndsPromptly(began, now, start, timeout, interval); }
    if visit.None? {
      EndsReading(t, t', run, began, start, timeout, interval, t'', result, state, made, decided, now);
    } else {
      EndsWaiting(t, t', run, began, start, timeout, interval, t'', result, state, visit.value, made, decided, now);
    }
  }

  lemma EndsPromptly(began: real, now: real, start: real, timeout: real, interval: real)
    requires Prompt(began, now, start, timeout, interval, false) && OnTime(began, start, timeout)
    ensures now < start + timeout + interval
  {
  }

  lemma EndsReading(t: seq<Event>, t': seq<Event>, run: Run, began: real, start: real, timeout: real, interval: real,
                    t'': seq<Event>, result: Result, state: Option<string>, made: nat, decided: real, now: real)
    requires Recorded(t, t', run.log, run.seen, run.calls) && Grown(t', t'', state, None, made)
    requires Going(run.log, run.seen, run.iterations, run.calls, began, start, timeout, interval)
    requires Iterated(LastRequest(run.log), began, Some(result), state, None, made, decided, now, start, timeout, interval)
    ensures var run' := More(run, state, None, made);
      && Recorded(t, t'', run'.log, run'.seen, run'.calls)
      && Finished(run'.log, run'.seen, run'.iterations, run'.calls, start, timeout, interval)
      && Explained(result, run'.log, run'.seen, run'.iterations, now - start >= timeout)
  {
    assert Logged(run.log, None) == run.log;
    hide Recorded, Going, Times, Grown, Iterated, LastRequest, Finished, Explained, Logged, Seen;
    RecordedMore(t, t', t'', run.log, run.seen, run.calls, state, None, made);
    GoingEnds(run.log, run.seen, run.iterations, run.calls, made, began, decided, now, start, timeout, interval, result, state);
  }

  lemma EndsWaiting(t: seq<Event>, t': seq<Event>, run: Run, began: real, start: real, timeout: real, interval: real,
                    t'': seq<Event>, result: Result, state: Option<string>, v: Visit, made: nat, decided: real, now: real)
    requires Recorded(t, t', run.log, run.seen, run.calls) && Grown(t', t'', state, Some(v), made)
    requires Going(run.log, run.seen, run.iterations, run.calls, began, start, timeout, interval)
    requires Iterated(LastRequest(run.log), began, Some(result), state, Some(v), made, decided, now, start, timeout, interval)
    ensures var run' := More(run, state, Some(v), made);
      && Recorded(t, t'', run'.log, run'.seen, run'.calls)
      && Finished(run'.log, run'.seen, run'.iterations, run'.calls, start, timeout, interval)
      && Explained(result, run'.log, run'.seen, run'.iterations, now - start >= timeout)
  {
    hide Recorded, Going, Times, Grown, Iterated, LastRequest, Finished, Explained, Logged, Seen;
    RecordedMore(t, t', t'', run.log, run.seen, run.calls, state, Some(v), made);
    LoggedOne(run, state, v);
    VisitEnds(run.log, run.seen, run.iterations, run.calls, made, began, decided, now, start, timeout, interval, result, state, v);
  }

  lemma RunGoesOn(t: seq<Event>, t': seq<Event>, run: Run, last: Option<real>, began: real, start: real, timeout: real,
                  interval: real, bound: nat, prompt: bool, t'': seq<Event>,
                  state: Option<string>, visit: Option<Visit>, made: nat, decided: real, now: real)
    requires InRun(t, t', run, last, began, start, timeout, interval, bound, prompt)
    requires Grown(t', t'', state, visit, made) && (prompt ==> Prompt(began, now, start, timeout, interval, true))
    requires visit.Some? && Iterated(last, began, None, state, visit, made, decided, now, start, timeout, interval)
    ensures run.iterations + 1 <= bound && More(run, state, visit, made).iterations == run.iterations + 1
    ensures InRun(t, t'', More(run, state, visit, made), if visit.value.requested then Some(visit.value.time) else last, now,
      start, timeout, interval, bound, prompt)
  {
    RecordedMore(t, t', t'', run.log, run.seen, run.calls, state, visit, made);
    LoggedOne(run, state, visit.value);
    var run', last' := More(run, state, visit, made), if visit.value.requested then Some(visit.value.time) else last;
    assert run' == Run(Logged(run.log, visit), Seen(run.seen, state), run.iterations + 1, run.calls + made);
    assert Going(run.log, run.seen, run.iterations, run.calls, began, start, timeout, interval) && last == LastRequest(run.log);
    assert interval > 0.0 && timeout <= Times(bound, interval) && (prompt ==> OnTime(began, start, timeout));
    hide *;
    if prompt { GoesOnTime(began, now, start, timeout, interval); }
    VisitGoesOn(run.log, run.seen, run.iterations, run.calls, made, began, decided, now, start, timeout, interval, state, visit.value, bound);
    StaysInRun(t, t'', run', last', now, start, timeout, interval, bound, prompt);
  }

  lemma StaysInRun(t: seq<Event>, t': seq<Event>, run: Run, last: Option<real>, now: real,
                   start: real, timeout: real, interval: real, bound: nat, prompt: bool)
    requires Recorded(t, t', run.log, run.seen, run.calls)
    requires Going(run.log, run.seen, run.iterations, run.calls, now, start, timeout, interval)
    requires last == LastRequest(run.log) && run.iterations <= bound && interval > 0.0 && timeout <= Times(bound, interval)
    requires prompt ==> OnTime(now, start, timeout)
    ensures InRun(t, t', run, last, now, start, timeout, interval, bound, prompt)
  {
  }

  lemma GoesOnTime(began: real, now: real, start: real, timeout: real, interval: real)
    requires Prompt(began, now, start, timeout, interval, true) && OnTime(began, start, timeout)
    ensures OnTime(now, start, timeout)
  {
  }

  lemma LoggedOne(run: Run, state: Option<string>, v: Visit)
    ensures Logged(run.log, Some(v)) == run.log + [v] && (state == Some(v.state) ==> Seen(run.seen, state) == run.seen + [v.state])
  {
  }

  /** What one iteration from `began` to `now` did; `decided` is when it went to sleep. */
  ghost predicate Iterated(last: Option<real>, began: real, result: Option<Result>, state: Option<string>, visit: Option<Visit>,
                           made: nat, decided: real, now: real, start: real, timeout: real, interval: real)
  {
    && made <= MAX_TRANSIENT_ERRORS && began <= decided <= now
    && (visit.None? ==> result.Some? && EndsAt(result.value, state))
    && (visit.Some? ==>
          && state == Some(visit.value.state) && KindOf(visit.value.state) in {Startable, Waiting}
          && visit.value.requested == Due(visit.value.state, last, visit.value.time)
          && began <= visit.value.time <= decided
          && (result.Some? ==> RefusedWhileWaiting(result.value, visit.value, now - start >= timeout)))
    && (result.None? ==>
          && visit.Some? && decided < start + timeout
          && (decided + interval <= now || start + timeout <= now))
  }

  /** A run that ends after a waiting state was refused its start, or is late. */
  ghost predicate RefusedWhileWaiting(result: Result, visit: Visit, late: bool) {
    && result.Refused?
    && ((result.reason in {NotAllowed, CallFailed} && visit.requested) || (result.reason == TimedOut && late))
  }

  /** Why the run ended: the state last read is open, or stops it, or is a waiting one whose
      start was refused or for which no time is left, or it could not be read. */
  ghost predicate Explained(result: Result, log: seq<Visit>, seen: seq<string>, iterations: nat, late: bool) {
    || (|seen| < iterations && result == Refused(CallFailed))
    || (|log| < |seen| == iterations && LastState(seen, result))
    || (|log| == |seen| == iterations > 0 && RefusedWhileWaiting(result, log[|log| - 1], late))
  }

  /** How a state that is no waiting one, or cannot be read, ends the run. */
  ghost predicate EndsAt(result: Result, state: Option<string>) {
    if state.None? then result == Refused(CallFailed)
    else
      match KindOf(state.value)
      case Open => result == Usable(state.value)
      case Hopeless => result == Refused(StopState)
      case _ => false
  }

  lemma ExplainedEnd(result: Result, log: seq<Visit>, seen: seq<string>, state: Option<string>, iterations: nat, late: bool)
    requires |log| == |seen| == iterations && EndsAt(result, state)
    ensures Explained(result, log, Seen(seen, state), iterations + 1, late)
  {
    hide KindOf;
  }

  lemma ExplainedWait(result: Result, log: seq<Visit>, seen: seq<string>, v: Visit, iterations: nat, late: bool)
    requires |log| == |seen| == iterations && RefusedWhileWaiting(result, v, late)
    ensures Explained(result, log + [v], seen + [v.state], iterations + 1, late)
  {
    hide RefusedWhileWaiting;
  }

  ghost predicate LastState(seen: seq<string>, result: Result) {
    && seen != []
    && var state := seen[|seen| - 1];
       match KindOf(state)
       case Open => result == Usable(state)
       case Hopeless => result == Refused(StopState)
       case _ => false
  }

  /** The log is a valid record since `start` of the iterations that read `seen`. */
  ghost predicate Waited(log: seq<Visit>, seen: seq<string>, start: real) {
    && ValidLog(log) && |log| <= |seen|
    && forall k :: 0 <= k < |log| ==> start <= log[k].time && seen[k] == log[k].state
  }

  function LastTime(log: seq<Visit>, start: real): real {
    if log == [] then start else log[|log| - 1].time
  }

  ghost predicate InTime(log: seq<Visit>, start: real, timeout: real) {
    log != [] ==> LastTime(log, start) - start < timeout
  }

  /** The facts at the head of an iteration, `now` being the time. */
  ghost predicate Going(log: seq<Visit>, seen: seq<string>, iterations: nat, calls: nat, now: real,
                        start: real, timeout: real, interval: real)
  {
    && start <= now && |log| == |seen| == iterations
    && Waited(log, seen, start) && InTime(log, start, timeout) && LastTime(log, start) <= now
    && calls <= MAX_TRANSIENT_ERRORS * iterations
    && Paced(iterations, now, start, timeout, interval)
  }

  ghost predicate Paced(iterations: nat, now: real, start: real, timeout: real, interval: real) {
    && (Times(iterations, interval) <= now - start || timeout <= now - start)
    && (iterations >= 1 ==> Times(iterations - 1, interval) < timeout)
  }

  /** What is promised of a finished run: at most one iteration more than there are
      started intervals in the timeout, at most five state calls in each, and a number of
      start requests bounded by the timeout. */
  ghost predicate Finished(log: seq<Visit>, seen: seq<string>, iterations: nat, calls: nat,
                           start: real, timeout: real, interval: real)
  {
    && Waited(log, seen, start) && |seen| <= iterations <= |seen| + 1
    && calls <= MAX_TRANSIENT_ERRORS * iterations
    && (iterations >= 2 ==> Times(iterations - 2, interval) < timeout)
    && (Requests(log) >= 2 ==> (Requests(log) - 2) as real * RESTART_REQUEST_SECONDS < timeout)
  }

  lemma GoingStart(now: real, start: real, timeout: real, interval: real)
    requires start <= now
    ensures Going([], [], 0, 0, now, start, timeout, interval)
    ensures LastRequest([]) == None && Requests([]) == 0
  {
  }

  /** An iteration that ends the run before deciding to wait. */
  lemma GoingEnds(log: seq<Visit>, seen: seq<string>, iterations: nat, calls: nat, made: nat, began: real, decided: real,
                  now: real, start: real, timeout: real, interval: real, result: Result, state: Option<string>)
    requires Going(log, seen, iterations, calls, began, start, timeout, interval)
    requires Iterated(LastRequest(log), began, Some(result), state, None, made, decided, now, start, timeout, interval)
    ensures Finished(log, Seen(seen, state), iterations + 1, calls + made, start, timeout, interval)
    ensures Explained(result, log, Seen(seen, state), iterations + 1, now - start >= timeout)
  {
    hide EndsAt, Explained;
    RequestsBound(log, seen, start, timeout);
    ExplainedEnd(result, log, seen, state, iterations, now - start >= timeout);
  }

  /** An iteration that records a visit, whether or not it ends the run. */
  lemma GoingVisits(log: seq<Visit>, seen: seq<string>, iterations: nat, calls: nat, made: nat, now: real,
                    start: real, timeout: real, interval: real, v: Visit)
    requires Going(log, seen, iterations, calls, now, start, timeout, interval) && made <= MAX_TRANSIENT_ERRORS
    requires now <= v.time && KindOf(v.state) in {Startable, Waiting}
    requires v.requested == Due(v.state, LastRequest(log), v.time)
    ensures Finished(log + [v], seen + [v.state], iterations + 1, calls + made, start, timeout, interval)
    ensures LastRequest(log + [v]) == if v.requested then Some(v.time) else LastRequest(log)
    ensures LastTime(log + [v], start) == v.time
    ensures Requests(log + [v]) == Requests(log) + if v.requested then 1 else 0
    ensures Paced(iterations, now, start, timeout, interval)
  {
    hide Requests, LastRequest, Waited, Times, KindOf;
    WaitedMore(log, seen, start, timeout, v);
  }

  /** An iteration that sleeps and goes on: it began at `began` with time left. */
  lemma GoingOn(log: seq<Visit>, seen: seq<string>, iterations: nat, calls: nat, began: real, decided: real, now: real,
                start: real, timeout: real, interval: real, bound: nat)
    requires Finished(log, seen, iterations, calls, start, timeout, interval)
    requires |log| == |seen| == iterations >= 1 && interval > 0.0 && timeout <= Times(bound, interval)
    requires Paced(iterations - 1, began, start, timeout, interval)
    requires start <= began <= LastTime(log, start) <= decided < start + timeout
    requires decided + interval <= now || start + timeout <= now
    ensures Going(log, seen, iterations, calls, now, start, timeout, interval)
    ensures iterations <= bound
  {
    TimesStep(iterations, interval);
    hide Times, Requests, Waited;
    BelowBound(iterations - 1, bound, interval, timeout);
  }

  /** An iteration that ends the run on a waiting state. */
  lemma VisitEnds(log: seq<Visit>, seen: seq<string>, iterations: nat, calls: nat, made: nat, began: real, decided: real,
                  now: real, start: real, timeout: real, interval: real, result: Result, state: Option<string>, v: Visit)
    requires Going(log, seen, iterations, calls, began, start, timeout, interval)
    requires Iterated(LastRequest(log), began, Some(result), state, Some(v), made, decided, now, start, timeout, interval)
    ensures state == Some(v.state)
    ensures Finished(log + [v], seen + [v.state], iterations + 1, calls + made, start, timeout, interval)
    ensures Explained(result, log + [v], seen + [v.state], iterations + 1, now - start >= timeout)
    ensures Requests(log + [v]) == Requests(log) + if v.requested then 1 else 0
  {
    GoingVisits(log, seen, iterations, calls, made, began, start, timeout, interval, v);
    hide KindOf, RefusedWhileWaiting, Explained, Finished, Requests, LastRequest, Waited, Paced;
    ExplainedWait(result, log, seen, v, iterations, now - start >= timeout);
  }

  /** An iteration that sleeps and goes on. */
  lemma VisitGoesOn(log: seq<Visit>, seen: seq<string>, iterations: nat, calls: nat, made: nat, began: real, decided: real,
                    now: real, start: real, timeout: real, interval: real, state: Option<string>, v: Visit, bound: nat)
    requires Going(log, seen, iterations, calls, began, start, timeout, interval)
    requires Iterated(LastRequest(log), began, None, state, Some(v), made, decided, now, start, timeout, interval)
    requires interval > 0.0 && timeout <= Times(bound, interval)
    ensures state == Some(v.state)
    ensures Going(log + [v], seen + [v.state], iterations + 1, calls + made, now, start, timeout, interval)
    ensures iterations + 1 <= bound
    ensures LastRequest(log + [v]) == if v.requested then Some(v.time) else LastRequest(log)
    ensures Requests(log + [v]) == Requests(log) + if v.requested then 1 else 0
  {
    GoingVisits(log, seen, iterations, calls, made, began, start, timeout, interval, v);
    assert start <= began && |log| == |seen| == iterations;
    hide Going, KindOf, Finished, Requests, LastRequest, Paced, Times, Due;
    GoingOn(log + [v], seen + [v.state], iterations + 1, calls + made, began, decided, now, start, timeout, interval, bound);
  }

  lemma WaitedMore(log: seq<Visit>, seen: seq<string>, start: real, timeout: real, v: Visit)
    requires Waited(log, seen, start) && |log| == |seen| && InTime(log, start, timeout)
    requires start <= v.time && LastTime(log, start) <= v.time
    requires KindOf(v.state) in {Startable, Waiting}
    requires v.requested == Due(v.state, LastRequest(log), v.time)
    ensures Waited(log + [v], seen + [v.state], start)
    ensures LastRequest(log + [v]) == if v.requested then Some(v.time) else LastRequest(log)
    ensures LastTime(log + [v], start) == v.time
    ensures Requests(log + [v]) == Requests(log) + if v.requested then 1 else 0
    ensures v.time - start < timeout ==> InTime(log + [v], start, timeout)
    ensures Requests(log + [v]) >= 2 ==> (Requests(log + [v]) - 2) as real * RESTART_REQUEST_SECONDS < timeout
  {
    hide KindOf;
    ValidNext(log, v, start);
    RequestsBound(log, seen, start, timeout);
    AppendVisit(log, v);
    hide ValidLog, Requests, LastRequest;
    assert (log + [v])[|log|] == v;
    WaitedAppend(log, seen, start, v);
  }

  lemma ValidNext(log: seq<Visit>, v: Visit, start: real)
    requires LastTime(log, start) <= v.time
    requires KindOf(v.state) in {Startable, Waiting}
    requires v.requested == Due(v.state, LastRequest(log), v.time)
    ensures ValidVisit(log, v)
  {
  }

  lemma WaitedAppend(log: seq<Visit>, seen: seq<string>, start: real, v: Visit)
    requires Waited(log, seen, start) && |log| == |seen| && start <= v.time && ValidLog(log + [v])
    ensures Waited(log + [v], seen + [v.state], start)
  {
    hide ValidLog;
    var more, states := log + [v], seen + [v.state];
    forall k | 0 <= k < |more| ensures start <= more[k].time && states[k] == more[k].state {
      assert k < |log| ==> more[k] == log[k] && states[k] == seen[k];
    }
  }

  lemma BelowBound(done: nat, bound: nat, interval: real, timeout: real)
    requires interval > 0.0 && Times(done, interval) < timeout <= Times(bound, interval)
    ensures done < bound
  {
    if bound <= done { TimesGrows(bound, done, interval); }
  }

  lemma AppendVisit(log: seq<Visit>, v: Visit)
    requires ValidLog(log) && ValidVisit(log, v)
    ensures ValidLog(log + [v])
    ensures LastRequest(log + [v]) == if v.requested then Some(v.time) else LastRequest(log)
    ensures Requests(log + [v]) == Requests(log) + if v.requested then 1 else 0
  {
    var all := log + [v];
    assert all[..|log|] == log;
    forall k | 0 <= k < |all| ensures ValidVisit(all[..k], all[k]) {
      assert k < |log| ==> all[..k] == log[..k];
    }
  }

  /** While every visit came before the deadline, the requests fit before it. */
  lemma RequestsBound(log: seq<Visit>, seen: seq<string>, start: real, timeout: real)
    requires Waited(log, seen, start) && InTime(log, start, timeout)
    ensures Requests(log) >= 1 ==> (Requests(log) - 1) as real * RESTART_REQUEST_SECONDS < timeout
    ensures Requests(log) >= 2 ==> (Requests(log) - 2) as real * RESTART_REQUEST_SECONDS < timeout
  {
    if Requests(log) > 0 {
      RequestsSpan(log, start);
      assert log[..|log|] == log;
      LastRequestBefore(log, |log|);
      hide Requests, LastRequest;
    }
  }

  lemma {:induction false} LastRequestBefore(log: seq<Visit>, n: nat)
    requires ValidLog(log) && 0 < n <= |log| && LastRequest(log[..n]).Some?
    ensures LastRequest(log[..n]).value <= log[n - 1].time
  {
    if !log[n - 1].requested {
      assert log[..n][..n - 1] == log[..n - 1];
      LastRequestEarlier(log, n - 1);
    }
  }
}
