/** What the pace of a run means: readings of the clock are close together, a run that times out has
    called often enough, and a database that stays stopped is asked again soon after 120 s. */
module AdbPace {
  import opened Collections
  import opened AdbTrace
  import opened AdbPolling

  // ----- close readings

  lemma {:induction false} LevelFalls(t: seq<Event>, from: nat, start: real, interval: real, m: nat, m': nat)
    requires Polls(t, from, start, interval) && from <= m <= m' <= |t|
    ensures Level(t[..m'], from, start, interval) <= Level(t[..m], from, start, interval) && Polls(t[..m'], from, start, interval)
    decreases |t| + m'
  {
    if m' < |t| {
      assert t[..|t| - 1][..m] == t[..m] && t[..|t| - 1][..m'] == t[..m'];
      hide Level;
      LevelFalls(t[..|t| - 1], from, start, interval, m, m');
    } else {
      assert t[..m'] == t;
      if m < m' {
        LevelFalls(t, from, start, interval, m, m' - 1);
        hide Times, Gets, AfterFound;
      }
    }
  }

  lemma LevelAtRead(t: seq<Event>, from: nat, start: real, interval: real, i: nat)
    requires from <= i < |t| && t[i].Read?
    ensures Level(t[..i + 1], from, start, interval) == t[i].time - Times(Gets(t[..i]), interval)
    ensures Polls(t[..i + 1], from, start, interval) ==>
      t[i].time - Times(Gets(t[..i]), interval) <= Level(t[..i], from, start, interval)
  {
    assert t[..i + 1][..i] == t[..i];
    hide Times, AfterFound;
  }

  lemma Calls(a: nat, b: nat, interval: real)
    ensures Times(b, interval) - Times(a, interval) == (b - a) as real * interval
  {
    TimesProduct(a, interval);
    TimesProduct(b, interval);
  }

  /** Any two readings of the clock are at most an interval apart for each state call between them. */
  lemma ReadsApart(t: seq<Event>, from: nat, start: real, interval: real, i: nat, j: nat)
    requires Polls(t, from, start, interval) && from <= i < j < |t| && t[i].Read? && t[j].Read?
    ensures t[j].time - t[i].time <= (Gets(t[..j]) - Gets(t[..i])) as real * interval
  {
    hide *;
    LevelFalls(t, from, start, interval, i + 1, j);
    LevelFalls(t, from, start, interval, j + 1, j + 1);
    LevelAtRead(t, from, start, interval, i);
    LevelAtRead(t, from, start, interval, j);
    Calls(Gets(t[..i]), Gets(t[..j]), interval);
  }

  lemma LevelAtStart(t: seq<Event>, from: nat, start: real, interval: real, now: real)
    requires Keeps(t, from, start, interval, now, Fresh)
    ensures Level(t[..from], from, start, interval) == start - Times(Gets(t[..from]), interval)
    ensures Polls(t, from, start, interval) && from <= |t|
    ensures now - Times(Gets(t), interval) <= Level(t[..|t|], from, start, interval)
  {
    assert t[..|t|] == t;
    hide Polls, Times, Gets, AfterFound;
  }

  /** The end of a run is at most an interval from its start for each of its state calls. */
  lemma EndApart(t: seq<Event>, from: nat, start: real, interval: real, now: real)
    requires Keeps(t, from, start, interval, now, Fresh)
    ensures now - start <= (Gets(t) - Gets(t[..from])) as real * interval
  {
    hide *;
    LevelAtStart(t, from, start, interval, now);
    LevelFalls(t, from, start, interval, from, |t|);
    Calls(Gets(t[..from]), Gets(t), interval);
  }

  /** A run makes at least as many state calls as intervals pass in it. */
  lemma CallsEnough(t: seq<Event>, t': seq<Event>, log: seq<Visit>, seen: seq<string>, calls: nat,
                    start: real, interval: real, now: real)
    requires Recorded(t, t', log, seen, calls) && Keeps(t', |t|, start, interval, now, Fresh)
    ensures now - start <= calls as real * interval
  {
    assert t'[..|t|] == t;
    hide Keeps, LogOf, Founds, Gets, Starts;
    EndApart(t', |t|, start, interval, now);
  }

  // ----- decisions

  /** At `j` the clock is read right after a state was found. */
  ghost predicate Decision(t: seq<Event>, j: nat) {
    0 < j < |t| && t[j].Read? && t[j - 1].Got? && t[j - 1].answer.Found?
  }

  lemma DecisionIs(t: seq<Event>, j: nat)
    requires j < |t|
    ensures Decision(t, j) <==> AfterDecision(t[..j + 1])
    ensures Decision(t, j) ==> AfterFound(t[..j]) && FoundState(t[..j]) == t[j - 1].answer.state && t[..j + 1][..j] == t[..j]
  {
    assert t[..j + 1][..j] == t[..j];
  }

  lemma FoundIsDecided(t: seq<Event>, from: nat, start: real, interval: real, k: nat)
    requires Polls(t, from, start, interval) && from <= k < |t| - 1
    ensures t[k].Got? && t[k].answer.Found? ==> Decision(t, k + 1)
  {
    LevelFalls(t, from, start, interval, from, k + 2);
    assert t[..k + 2][..k + 1] == t[..k + 1];
    hide Level, Times, Gets;
  }

  lemma {:induction false} NoGets(t: seq<Event>, a: nat, b: nat)
    requires a <= b <= |t| && forall k :: a <= k < b ==> !t[k].Got?
    ensures Gets(t[..b]) == Gets(t[..a])
  {
    if a < b {
      NoGets(t, a, b - 1);
      assert t[..b][..b - 1] == t[..b - 1];
    }
  }

  /** Between two successive decisions there is one state call, if none failed. */
  lemma OneCall(t: seq<Event>, from: nat, start: real, interval: real, i: nat, j: nat)
    requires Polls(t, from, start, interval) && from <= i < j && Decision(t, i) && Decision(t, j)
    requires forall k :: i < k < j ==> !Decision(t, k) && (t[k].Got? ==> t[k].answer.Found?)
    ensures Gets(t[..j]) == Gets(t[..i]) + 1
  {
    hide Polls, Gets;
    forall k | i <= k < j - 1 ensures !t[k].Got? {
      FoundIsDecided(t, from, start, interval, k);
    }
    NoGets(t, i, j - 1);
    LastGet(t, j);
  }

  lemma LastGet(t: seq<Event>, j: nat)
    requires 0 < j <= |t| && t[j - 1].Got?
    ensures Gets(t[..j]) == Gets(t[..j - 1]) + 1
  {
    assert t[..j][..j - 1] == t[..j - 1];
  }

  // ----- the log, decision by decision

  lemma LastStep(t: seq<Event>)
    requires t != []
    ensures
      var before, log, e := t[..|t| - 1], LogOf(t[..|t| - 1]), t[|t| - 1];
      LogOf(t) ==
        if e.Read? && AfterFound(before) then log + [Visit(FoundState(before), e.time, false)]
        else if e.Started? && AfterDecision(before) && log != [] then log[..|log| - 1] + [log[|log| - 1].(requested := true)]
        else log
  {
    var before, e := t[..|t| - 1], t[|t| - 1];
    var log := LogOf(before);
    hide AfterFound, AfterDecision, FoundState;
    match e
    case Got(_) =>
    case Read(_) =>
    case Started(_) =>
  }

  lemma LengthAtDecision(t: seq<Event>, r: nat)
    requires Decision(t, r)
    ensures |LogOf(t[..r + 1])| == |LogOf(t[..r])| + 1
  {
    DecisionIs(t, r);
    DecisionLogged(t[..r + 1]);
  }

  lemma LaterLength(t: seq<Event>, r: nat, n: nat)
    requires Decision(t, r) && r + 1 < n <= |t| && AfterDecision(t[..n])
    ensures |LogOf(t[..r])| + 1 < |LogOf(t[..n])|
  {
    DecisionIs(t, n - 1);
    LengthAtDecision(t, r);
    hide LogOf, AfterDecision;
    LaterDecision(t, r + 1, n);
  }

  /** What the log says of a decision, and where. */
  lemma {:induction false} DecisionInLog(t: seq<Event>, r: nat)
    requires Decision(t, r)
    ensures |LogOf(t[..r])| < |LogOf(t)|
    ensures LogOf(t)[|LogOf(t[..r])|] == Visit(t[r - 1].answer.state, t[r].time, r + 1 < |t| && t[r + 1].Started?)
  {
    var n := |t| - 1;
    hide LogOf, AfterDecision, AfterFound;
    if r == n {
      DecidedLast(t);
    } else {
      assert t[..n][..r] == t[..r];
      DecisionInLog(t[..n], r);
      LastStep(t);
      DecisionIs(t, r);
      if r + 1 == n {
        LengthAtDecision(t, r);
      } else if AfterDecision(t[..n]) {
        LaterLength(t, r, n);
      }
    }
  }

  lemma DecidedLast(t: seq<Event>)
    requires t != [] && Decision(t, |t| - 1)
    ensures LogOf(t) == LogOf(t[..|t| - 1]) + [Visit(t[|t| - 2].answer.state, t[|t| - 1].time, false)]
  {
    DecisionIs(t, |t| - 1);
    assert t[..|t|] == t;
    DecisionLogged(t);
  }

  /** What the log said before an event that is no start call it still says. */
  lemma {:induction false} LogPrefix(t: seq<Event>, m: nat)
    requires m <= |t| && (m < |t| ==> !t[m].Started?)
    ensures LogOf(t[..m]) <= LogOf(t)
  {
    hide LogOf, AfterDecision, AfterFound;
    if m == |t| {
      assert t[..m] == t;
    } else {
      var n := |t| - 1;
      LastStep(t);
      assert t[..n][..m] == t[..m];
      LogPrefix(t[..n], m);
      if t[n].Started? && AfterDecision(t[..n]) { LogIsLonger(t, m, n); }
    }
  }

  lemma LogIsLonger(t: seq<Event>, m: nat, n: nat)
    requires m < n <= |t| && AfterDecision(t[..n])
    ensures |LogOf(t[..m])| < |LogOf(t[..n])|
  {
    hide LogOf, AfterFound;
    DecisionIs(t, n - 1);
    DecisionShape(t, n);
    LogGrows(t, m, n - 1);
    LengthAtDecision(t, n - 1);
  }

  // ----- asking again

  /** As long as there is no further start call, the last request stays the one of decision `i`. */
  lemma {:induction false} QuietSince(t: seq<Event>, i: nat, m: nat)
    requires Decision(t, i) && i + 1 < |t| && t[i + 1].Started? && i + 2 <= m <= |t|
    requires forall k :: i + 2 <= k < m ==> !t[k].Started?
    ensures LastRequest(LogOf(t[..m])) == Some(t[i].time)
  {
    hide *;
    if m == i + 2 {
      RequestedNow(t, i);
    } else {
      QuietSince(t, i, m - 1);
      NotRequested(t, m);
    }
  }

  lemma RequestedNow(t: seq<Event>, i: nat)
    requires Decision(t, i) && i + 1 < |t| && t[i + 1].Started?
    ensures LastRequest(LogOf(t[..i + 2])) == Some(t[i].time)
  {
    var s := t[..i + 2];
    assert s[..i] == t[..i] && s[..i + 1] == t[..i + 1] && s[..|s| - 1] == t[..i + 1];
    hide LogOf, AfterDecision, AfterFound, LastRequest;
    DecisionInLog(s, i);
    LengthAtDecision(t, i);
    LastStep(s);
    DecisionIs(t, i);
    LastRequested(LogOf(s));
  }

  lemma NotRequested(t: seq<Event>, m: nat)
    requires 0 < m <= |t| && !t[m - 1].Started?
    ensures LastRequest(LogOf(t[..m])) == LastRequest(LogOf(t[..m - 1]))
  {
    hide LogOf, AfterDecision, AfterFound, LastRequest;
    assert t[..m][..m - 1] == t[..m - 1];
    LastStep(t[..m]);
    UnrequestedKeeps(LogOf(t[..m - 1]));
  }

  lemma LastRequested(log: seq<Visit>)
    requires log != [] && log[|log| - 1].requested
    ensures LastRequest(log) == Some(log[|log| - 1].time)
  {
  }

  lemma UnrequestedKeeps(log: seq<Visit>)
    ensures forall v: Visit :: !v.requested ==> LastRequest(log + [v]) == LastRequest(log)
  {
    forall v: Visit | !v.requested ensures LastRequest(log + [v]) == LastRequest(log) {
      assert (log + [v])[..|log|] == log;
    }
  }

  lemma {:induction false} QuietFromStart(t: seq<Event>, m: nat)
    requires m <= |t| && forall k :: 0 <= k < m ==> !t[k].Started?
    ensures LastRequest(LogOf(t[..m])) == None
  {
    if m > 0 {
      hide *;
      QuietFromStart(t, m - 1);
      NotRequested(t, m);
    }
  }

  lemma VisitIsDue(log: seq<Visit>, before: seq<Visit>)
    requires ValidLog(log) && before <= log && |before| < |log|
    ensures var v := log[|before|]; v.requested == Due(v.state, LastRequest(before), v.time)
  {
    assert log[..|before|] == before;
    assert ValidVisit(log[..|before|], log[|before|]);
    hide LastRequest, Due;
  }

  /** A decision asks for a start exactly when one is due. */
  lemma AsksWhenDue(t: seq<Event>, j: nat)
    requires ValidLog(LogOf(t)) && Decision(t, j)
    ensures (j + 1 < |t| && t[j + 1].Started?) <==> Due(t[j - 1].answer.state, LastRequest(LogOf(t[..j])), t[j].time)
  {
    hide LogOf, LastRequest, Due, ValidLog, ValidVisit;
    DecisionInLog(t, j);
    LogPrefix(t, j);
    VisitIsDue(LogOf(t), LogOf(t[..j]));
  }

  lemma StoppedIsStartable()
    ensures KindOf("STOPPED") == Startable
  {
  }

  /** The first time the database is found stopped, a start is requested. */
  lemma FirstAsk(t: seq<Event>, j: nat)
    requires ValidLog(LogOf(t)) && Decision(t, j) && t[j - 1].answer.state == "STOPPED"
    requires forall k :: 0 <= k < j ==> !t[k].Started?
    ensures j + 1 < |t| && t[j + 1].Started?
  {
    hide LogOf, ValidLog, LastRequest, KindOf;
    StoppedIsStartable();
    QuietFromStart(t, j);
    AsksWhenDue(t, j);
  }

  /** After a request, the next is made exactly at the first decision on STOPPED that is 120 s later. */
  lemma AskedAgainIff(t: seq<Event>, i: nat, j: nat)
    requires ValidLog(LogOf(t)) && i < j && Decision(t, i) && Decision(t, j) && t[i + 1].Started?
    requires t[j - 1].answer.state == "STOPPED" && forall k :: i + 2 <= k < j ==> !t[k].Started?
    ensures (j + 1 < |t| && t[j + 1].Started?) <==> t[j].time - t[i].time >= RESTART_REQUEST_SECONDS
  {
    hide LogOf, ValidLog, LastRequest, KindOf;
    StoppedIsStartable();
    QuietSince(t, i, j);
    AsksWhenDue(t, j);
  }

  lemma {:induction false} LastDecision(t: seq<Event>, i: nat, j: nat) returns (h: nat)
    requires i < j && Decision(t, i) && j <= |t|
    ensures i <= h < j && Decision(t, h) && forall k :: h < k < j ==> !Decision(t, k)
  {
    h := j - 1;
    if !Decision(t, h) {
      h := LastDecision(t, i, j - 1);
    }
  }

  /** With calls that take no time and none that fails, as long as the database is found stopped the
      next request follows the last one by less than 120 s and an interval. */
  lemma AskedAgainSoon(t: seq<Event>, from: nat, start: real, interval: real, i: nat, j: nat)
    requires Polls(t, from, start, interval) && ValidLog(LogOf(t)) && interval >= 0.0
    requires from <= i < j && Decision(t, i) && Decision(t, j) && t[i + 1].Started?
    requires forall k :: i + 2 <= k <= j ==> !t[k].Started?
    requires forall k :: i < k < j && t[k].Got? ==> t[k] == Got(Found("STOPPED"))
    ensures t[j].time - t[i].time < RESTART_REQUEST_SECONDS + interval
  {
    hide Polls, LogOf, ValidLog, Gets;
    var h := LastDecision(t, i, j);
    OneCall(t, from, start, interval, h, j);
    ReadsApart(t, from, start, interval, h, j);
    OneInterval(Gets(t[..h]), Gets(t[..j]), interval);
    if i < h {
      assert t[h - 1] == Got(Found("STOPPED"));
      AskedAgainIff(t, i, h);
    }
  }

  lemma OneInterval(a: nat, b: nat, interval: real)
    requires b == a + 1
    ensures (b - a) as real * interval == interval
  {
  }
}
