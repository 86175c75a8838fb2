/** The API, the clock and the trace of every use of them, from which the record of a run is
    read: the states found, the decisions made on waiting states, and the start requests. */
module AdbTrace {
  import opened Collections

  const RESTART_REQUEST_SECONDS: real := 120.0
  const MAX_TRANSIENT_ERRORS: nat := 5

  const READY_STATES: set<string> := {"AVAILABLE"}
  const OPEN_BUSY_STATES: set<string> := {"AVAILABLE_NEEDS_ATTENTION", "BACKUP_IN_PROGRESS", "SCALE_IN_PROGRESS"}
  const START_STATES: set<string> := {"STOPPED"}
  const WAIT_STATES: set<string> := {
    "STARTING", "STOPPING", "PROVISIONING", "RESTARTING", "UPDATING", "MAINTENANCE_IN_PROGRESS",
    "RESTORE_IN_PROGRESS", "ROLE_CHANGE_IN_PROGRESS", "UPGRADING", "RECREATING"}

  /** How the waiter treats a lifecycle state; every state it does not list stops it. */
  datatype Kind = Open | Startable | Waiting | Hopeless

  function KindOf(state: string): Kind {
    if state in READY_STATES || state in OPEN_BUSY_STATES then Open
    else if state in START_STATES then Startable
    else if state in WAIT_STATES then Waiting
    else Hopeless
  }

  /** A failed API call: its HTTP status if it has one, and whether reading the
      credentials failed. */
  datatype Failure = Failure(status: Option<int>, configError: bool)
  {
    predicate Transient() {
      if status.Some? then status.value == 429 || status.value >= 500 else !configError
    }
  }

  datatype Answer = Found(state: string) | Failed(failure: Failure)

  datatype Refusal = CallFailed | NotAllowed | StopState | TimedOut

  datatype Result = Usable(state: string) | Refused(reason: Refusal)

  // ----- the record of a run

  /** An iteration that went on waiting: the state it saw, when it decided, and whether
      it asked for a start. */
  datatype Visit = Visit(state: string, time: real, requested: bool)

  function LastRequest(log: seq<Visit>): Option<real> {
    if log == [] then None
    else if log[|log| - 1].requested then Some(log[|log| - 1].time)
    else LastRequest(log[..|log| - 1])
  }

  ghost predicate ValidVisit(before: seq<Visit>, v: Visit) {
    && KindOf(v.state) in {Startable, Waiting}
    && (before != [] ==> before[|before| - 1].time <= v.time)
    && v.requested == Due(v.state, LastRequest(before), v.time)
  }

  /** Whether to ask for a start: stopped, and never asked or long enough ago. */
  predicate Due(state: string, last: Option<real>, now: real) {
    KindOf(state) == Startable && (last.None? || now - last.value >= RESTART_REQUEST_SECONDS)
  }

  ghost predicate ValidLog(log: seq<Visit>) {
    forall k :: 0 <= k < |log| ==> ValidVisit(log[..k], log[k])
  }

  function Requests(log: seq<Visit>): nat {
    if log == [] then 0 else Requests(log[..|log| - 1]) + if log[|log| - 1].requested then 1 else 0
  }

  lemma ValidPrefix(log: seq<Visit>, n: nat)
    requires ValidLog(log) && n <= |log|
    ensures ValidLog(log[..n])
  {
    forall k | 0 <= k < n ensures ValidVisit(log[..n][..k], log[..n][k]) {
      assert log[..n][..k] == log[..k];
    }
  }

  lemma {:induction false} LastRequestIs(log: seq<Visit>, i: nat)
    requires ValidLog(log) && i < |log| && log[i].requested
    ensures LastRequest(log).Some? && log[i].time <= LastRequest(log).value
  {
    var n := |log| - 1;
    if i < n {
      assert LastRequest(log) == if log[n].requested then Some(log[n].time) else LastRequest(log[..n]);
      hide ValidVisit, LastRequest;
      ValidPrefix(log, n);
      assert log[..n][i] == log[i];
      hide ValidLog;
      LastRequestIs(log[..n], i);
      LastRequestEarlier(log, n);
    }
  }

  lemma {:induction false} LastRequestEarlier(log: seq<Visit>, n: nat)
    requires ValidLog(log) && n < |log| && LastRequest(log[..n]).Some?
    ensures LastRequest(log[..n]).value <= log[n].time
  {
    var before := log[..n];
    assert ValidVisit(log[..n], log[n]);
    if !before[n - 1].requested {
      assert before[..n - 1] == log[..n - 1];
      LastRequestEarlier(log, n - 1);
    }
  }

  /** A start is requested only on seeing STOPPED, and requests are at least 120 s apart. */
  lemma RequestsSpaced(log: seq<Visit>, i: nat, j: nat)
    requires ValidLog(log) && i < j < |log| && log[i].requested && log[j].requested
    ensures log[i].state == "STOPPED"
    ensures log[j].time - log[i].time >= RESTART_REQUEST_SECONDS
  {
    ValidPrefix(log, j);
    LastRequestIs(log[..j], i);
    assert ValidVisit(log[..j], log[j]) && ValidVisit(log[..i], log[i]);
  }

  /** `n` requests span at least (n - 1) times 120 s. */
  lemma {:induction false} RequestsSpan(log: seq<Visit>, start: real)
    requires ValidLog(log) && (forall k :: 0 <= k < |log| ==> start <= log[k].time)
    requires Requests(log) > 0
    ensures LastRequest(log).Some?
    ensures (Requests(log) - 1) as real * RESTART_REQUEST_SECONDS <= LastRequest(log).value - start
  {
    var n := |log| - 1;
    ValidPrefix(log, n);
    assert ValidVisit(log[..n], log[n]);
    if Requests(log[..n]) > 0 {
      RequestsSpan(log[..n], start);
    }
  }

  // ----- the trace

  /** A state call and its answer, a reading of the clock, or a start call and how it failed. */
  datatype Event = Got(answer: Answer) | Read(time: real) | Started(failure: Option<Failure>)

  /** The trace ends with a state found. */
  predicate AfterFound(t: seq<Event>) {
    t != [] && t[|t| - 1].Got? && t[|t| - 1].answer.Found?
  }

  /** It ends with a state found and the clock read right after it. */
  predicate AfterDecision(t: seq<Event>) {
    t != [] && t[|t| - 1].Read? && AfterFound(t[..|t| - 1])
  }

  function FoundState(t: seq<Event>): string
    requires AfterFound(t)
  {
    t[|t| - 1].answer.state
  }

  /** The states found, in order. */
  function Founds(t: seq<Event>): seq<string> {
    if t == [] then [] else Founds(t[..|t| - 1]) + if AfterFound(t) then [FoundState(t)] else []
  }

  /** The decisions: each state right after which the clock was read, at that time, and whether
      a start call follows at once. */
  function LogOf(t: seq<Event>): seq<Visit> {
    if t == [] then []
    else
      var before, log := t[..|t| - 1], LogOf(t[..|t| - 1]);
      match t[|t| - 1]
      case Got(_) => log
      case Read(time) => if AfterFound(before) then log + [Visit(FoundState(before), time, false)] else log
      case Started(_) =>
        if AfterDecision(before) && log != [] then log[..|log| - 1] + [log[|log| - 1].(requested := true)] else log
  }

  function Gets(t: seq<Event>): nat {
    if t == [] then 0 else Gets(t[..|t| - 1]) + if t[|t| - 1].Got? then 1 else 0
  }

  function Starts(t: seq<Event>): nat {
    if t == [] then 0 else Starts(t[..|t| - 1]) + if t[|t| - 1].Started? then 1 else 0
  }

  /** The last call to the API. */
  function LastCall(t: seq<Event>): Option<Event> {
    if t == [] then None else if t[|t| - 1].Read? then LastCall(t[..|t| - 1]) else Some(t[|t| - 1])
  }

  /** The trace grew from `t` to `t'` by `gets` state calls, of which the last may have found a
      state, and by at most one decision; every start call belongs to a decision. */
  ghost predicate Grown(t: seq<Event>, t': seq<Event>, state: Option<string>, visit: Option<Visit>, gets: nat) {
    && t <= t'
    && Founds(t') == Founds(t) + (if state.Some? then [state.value] else [])
    && LogOf(t') == LogOf(t) + (if visit.Some? then [visit.value] else [])
    && Gets(t') == Gets(t) + gets
    && Starts(t') == Starts(t) + if visit.Some? && visit.value.requested then 1 else 0
  }

  lemma GrownNot(t: seq<Event>)
    ensures Grown(t, t, None, None, 0)
  {
  }

  lemma GrownGet(t: seq<Event>, answer: Answer)
    ensures
      var t', state := t + [Got(answer)], if answer.Found? then Some(answer.state) else None;
      && Grown(t, t', state, None, 1) && LastCall(t') == Some(Got(answer))
      && (AfterFound(t') <==> answer.Found?) && (answer.Found? ==> FoundState(t') == answer.state)
  {
    assert (t + [Got(answer)])[..|t|] == t;
  }

  lemma GrownRead(t: seq<Event>, time: real)
    ensures
      var t', visit := t + [Read(time)], if AfterFound(t) then Some(Visit(FoundState(t), time, false)) else None;
      && Grown(t, t', None, visit, 0) && LastCall(t') == LastCall(t)
      && !AfterFound(t') && (AfterFound(t) ==> AfterDecision(t'))
  {
    assert (t + [Read(time)])[..|t|] == t;
  }

  /** A decision with its start call. */
  lemma GrownStart(t: seq<Event>, time: real, failure: Option<Failure>)
    requires AfterFound(t)
    ensures
      var t' := t + [Read(time)] + [Started(failure)];
      && Grown(t, t', None, Some(Visit(FoundState(t), time, true)), 0) && LastCall(t') == Some(Started(failure))
      && !AfterFound(t')
  {
    GrownRead(t, time);
    var read := t + [Read(time)];
    assert (read + [Started(failure)])[..|read|] == read;
    assert LogOf(read) == LogOf(t) + [Visit(FoundState(t), time, false)];
    assert LogOf(read)[..|LogOf(read)| - 1] == LogOf(t);
  }

  function Either<T>(a: Option<T>, b: Option<T>): Option<T> {
    if a.Some? then a else b
  }

  lemma GrownTwice(t: seq<Event>, t': seq<Event>, t'': seq<Event>, state: Option<string>, visit: Option<Visit>, gets: nat,
                   state': Option<string>, visit': Option<Visit>, gets': nat)
    requires Grown(t, t', state, visit, gets) && Grown(t', t'', state', visit', gets')
    requires (state.None? || state'.None?) && (visit.None? || visit'.None?)
    ensures Grown(t, t'', Either(state, state'), Either(visit, visit'), gets + gets')
  {
    hide Founds, LogOf, Gets, Starts;
  }

  /** From `t` to `t'` the trace gained these decisions, states found and number of state calls,
      and every start call gained belongs to a decision of its own. */
  ghost predicate Recorded(t: seq<Event>, t': seq<Event>, log: seq<Visit>, seen: seq<string>, calls: nat) {
    && t <= t'
    && LogOf(t') == LogOf(t) + log && Founds(t') == Founds(t) + seen
    && Gets(t') == Gets(t) + calls && Starts(t') == Starts(t) + Requests(log)
  }

  // ----- what the trace shows of the start calls

  lemma {:induction false} RequestsWithinStarts(t: seq<Event>)
    ensures Requests(LogOf(t)) <= Starts(t)
  {
    if t != [] {
      var before := t[..|t| - 1];
      RequestsWithinStarts(before);
      RequestsOfLast(LogOf(before));
      var e, log := t[|t| - 1], LogOf(before);
      if e.Read? && AfterFound(before) {
        RequestsOfLast(LogOf(t));
      } else if e.Started? && AfterDecision(before) && log != [] {
        RequestsOfLast(LogOf(t));
      }
    }
  }

  lemma RequestsOfLast(log: seq<Visit>)
    ensures log != [] ==> Requests(log) == Requests(log[..|log| - 1]) + if log[|log| - 1].requested then 1 else 0
  {
  }

  /** Every start call belongs to a decision of its own. */
  ghost predicate StartsDecided(t: seq<Event>) {
    Starts(t) == Requests(LogOf(t))
  }

  lemma DecidedBefore(t: seq<Event>)
    requires t != [] && StartsDecided(t)
    ensures StartsDecided(t[..|t| - 1])
    ensures t[|t| - 1].Started? ==> AfterDecision(t[..|t| - 1]) && LogOf(t[..|t| - 1]) != []
  {
    RequestsWithinStarts(t[..|t| - 1]);
    RequestsOfLast(LogOf(t[..|t| - 1]));
    RequestsOfLast(LogOf(t));
    hide Requests, AfterFound, AfterDecision;
  }

  lemma DecisionLogged(t: seq<Event>)
    requires AfterDecision(t)
    ensures LogOf(t) == LogOf(t[..|t| - 1]) + [Visit(FoundState(t[..|t| - 1]), t[|t| - 1].time, false)]
  {
  }

  /** Where the decision of a start call is in the log. */
  function DecisionAt(t: seq<Event>, i: nat): int
    requires i < |t|
  {
    |LogOf(t[..i])| - 1
  }

  lemma {:induction false} StartLogged(t: seq<Event>, i: nat)
    requires StartsDecided(t) && i < |t| && t[i].Started?
    ensures AfterDecision(t[..i]) && 0 <= DecisionAt(t, i) < |LogOf(t)|
    ensures LogOf(t)[DecisionAt(t, i)] == Visit(FoundState(t[..i][..i - 1]), t[i - 1].time, true)
  {
    var n := |t| - 1;
    var before := t[..n];
    DecidedBefore(t);
    hide StartsDecided, AfterFound, FoundState;
    if i == n {
      DecisionLogged(before);
      assert before[n - 1] == t[n - 1];
    } else {
      assert before[..i] == t[..i];
      StartLogged(before, i);
    }
  }

  lemma LogStep(t: seq<Event>)
    requires t != []
    ensures |LogOf(t[..|t| - 1])| <= |LogOf(t)|
  {
    hide AfterFound, AfterDecision;
  }

  lemma {:induction false} LogGrows(t: seq<Event>, a: nat, b: nat)
    requires a <= b <= |t|
    ensures |LogOf(t[..a])| <= |LogOf(t[..b])|
  {
    hide LogOf;
    if a < b {
      LogGrows(t, a, b - 1);
      assert t[..b][..b - 1] == t[..b - 1];
      LogStep(t[..b]);
    }
  }

  lemma DecisionShape(t: seq<Event>, i: nat)
    requires i <= |t| && AfterDecision(t[..i])
    ensures i >= 2 && t[i - 1].Read? && t[i - 2] == Got(Found(FoundState(t[..i][..i - 1])))
  {
    assert t[..i][..i - 1] == t[..i - 1];
  }

  lemma RequestedIsStopped(log: seq<Visit>, k: nat)
    requires ValidLog(log) && k < |log| && log[k].requested
    ensures log[k].state == "STOPPED"
  {
    assert ValidVisit(log[..k], log[k]);
  }

  /** What a run in a new world recorded. */
  lemma RecordedAll(t: seq<Event>, log: seq<Visit>, seen: seq<string>, calls: nat)
    requires Recorded([], t, log, seen, calls)
    ensures LogOf(t) == log && Founds(t) == seen && StartsDecided(t)
  {
    assert [] + log == log && [] + seen == seen;
  }

  /** A start call comes right after a reading of the clock that comes right after finding STOPPED. */
  lemma StartFollowsStopped(t: seq<Event>, log: seq<Visit>, seen: seq<string>, calls: nat, i: nat)
    requires Recorded([], t, log, seen, calls) && ValidLog(log) && i < |t| && t[i].Started?
    ensures i >= 2 && t[i - 1].Read? && t[i - 2] == Got(Found("STOPPED"))
  {
    hide *;
    RecordedAll(t, log, seen, calls);
    StartLogged(t, i);
    RequestedIsStopped(LogOf(t), DecisionAt(t, i));
    DecisionShape(t, i);
  }

  lemma LaterDecision(t: seq<Event>, i: nat, j: nat)
    requires i < j <= |t| && AfterDecision(t[..j]) && i < j - 1
    ensures |LogOf(t[..i])| < |LogOf(t[..j])|
  {
    assert t[..j][..j - 1] == t[..j - 1];
    DecisionLogged(t[..j]);
    hide LogOf, AfterDecision;
    LogGrows(t, i, j - 1);
  }

  /** The readings on which two start calls were decided are at least 120 s apart. */
  lemma StartsSpaced(t: seq<Event>, log: seq<Visit>, seen: seq<string>, calls: nat, i: nat, j: nat)
    requires Recorded([], t, log, seen, calls) && ValidLog(log) && i < j < |t| && t[i].Started? && t[j].Started?
    ensures 0 < i && t[i - 1].Read? && t[j - 1].Read? && t[j - 1].time - t[i - 1].time >= RESTART_REQUEST_SECONDS
  {
    hide *;
    RecordedAll(t, log, seen, calls);
    StartLogged(t, i);
    StartLogged(t, j);
    DecisionShape(t, i);
    DecisionShape(t, j);
    LaterDecision(t, i, j);
    LaterIndex(t, i, j);
    RequestsSpaced(LogOf(t), DecisionAt(t, i), DecisionAt(t, j));
  }

  lemma LaterIndex(t: seq<Event>, i: nat, j: nat)
    requires i < |t| && j < |t|
    ensures |LogOf(t[..i])| < |LogOf(t[..j])| <==> DecisionAt(t, i) < DecisionAt(t, j)
  {
  }

  // ----- the API and the clock

  /** Every interaction may take time; in an `exact` world calls take none and a sleep takes
      exactly as long as asked. */
  class World {
    var now: real
    var trace: seq<Event>
    const exact: bool

    constructor (start: real, exact: bool)
      ensures now == start && this.exact == exact && trace == []
    {
      now, this.exact, trace := start, exact, [];
    }

    method Elapse()
      modifies this`now
      ensures now >= old(now) && (exact ==> now == old(now))
    {
      if !exact {
        var delay: real :| delay >= 0.0;
        now := now + delay;
      }
    }

    method Clock() returns (t: real)
      modifies this
      ensures t == now && now >= old(now) && (exact ==> now == old(now))
      ensures trace == old(trace) + [Read(t)]
    {
      Elapse();
      t := now;
      trace := trace + [Read(t)];
    }

    method Get() returns (answer: Answer)
      modifies this
      ensures now >= old(now) && (exact ==> now == old(now))
      ensures trace == old(trace) + [Got(answer)]
    {
      Elapse();
      answer := *;
      trace := trace + [Got(answer)];
    }

    method Start() returns (failure: Option<Failure>)
      modifies this
      ensures now >= old(now) && (exact ==> now == old(now))
      ensures trace == old(trace) + [Started(failure)]
    {
      Elapse();
      failure := *;
      trace := trace + [Started(failure)];
    }

    method Sleep(seconds: real)
      modifies this`now
      ensures now >= old(now) && now >= old(now) + seconds
      ensures exact && seconds >= 0.0 ==> now == old(now) + seconds
    {
      now := if seconds >= 0.0 then now + seconds else now;
      Elapse();
    }
  }
}
