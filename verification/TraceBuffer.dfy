/** The ring buffer of trace events: appended at the back, pruned from the front by size and by age. */
module TraceBuffer {

  /** Times are in microseconds. */
  datatype Event = Event(payload: string, createdAt: int)

  datatype Policy = Policy(bufferSize: int, retentionSeconds: int)

  function MaxEvents(policy: Policy): nat {
    if policy.bufferSize < 1 then 1 else policy.bufferSize
  }

  function Cutoff(now: int, policy: Policy): int {
    now - policy.retentionSeconds * 1_000_000
  }

  // ----- the two trims

  function LastN(events: seq<Event>, n: nat): seq<Event> {
    if |events| > n then events[|events| - n..] else events
  }

  /** How many events in front are older than the cutoff. */
  function StaleCount(events: seq<Event>, cutoff: int): (n: nat)
    ensures n <= |events|
  {
    if events == [] || events[0].createdAt >= cutoff then 0 else 1 + StaleCount(events[1..], cutoff)
  }

  function DropStale(events: seq<Event>, cutoff: int): seq<Event> {
    events[StaleCount(events, cutoff)..]
  }

  function Pruned(events: seq<Event>, now: int, policy: Policy): seq<Event> {
    var kept := LastN(events, MaxEvents(policy));
    if policy.retentionSeconds <= 0 then kept else DropStale(kept, Cutoff(now, policy))
  }

  /** Every event at or after the cutoff, in order. */
  function Fresh(events: seq<Event>, cutoff: int): seq<Event> {
    if events == [] then []
    else (if events[0].createdAt >= cutoff then [events[0]] else []) + Fresh(events[1..], cutoff)
  }

  class Buffer {
    var events: seq<Event>

    constructor ()
      ensures events == []
    {
      events := [];
    }

    /** `_prune_trace_events_locked`. */
    method Prune(now: int, policy: Policy)
      modifies this
      ensures events == Pruned(old(events), now, policy)
    {
      var n := MaxEvents(policy);
      while |events| > n
        invariant LastN(events, n) == LastN(old(events), n)
      {
        events := events[1..];
      }
      if policy.retentionSeconds <= 0 { return; }
      var cutoff := Cutoff(now, policy);
      ghost var kept := events;
      while |events| > 0 && events[0].createdAt < cutoff
        invariant DropStale(events, cutoff) == DropStale(kept, cutoff)
      {
        events := events[1..];
      }
    }

    /** The end of `_append_trace_event`. */
    method Append(event: Event, policy: Policy)
      modifies this
      ensures events == Pruned(old(events) + [event], event.createdAt, policy)
    {
      events := events + [event];
      Prune(event.createdAt, policy);
    }

    /** A listing prunes first. */
    method List(now: int, policy: Policy) returns (snapshot: seq<Event>)
      modifies this
      ensures snapshot == events == Pruned(old(events), now, policy)
    {
      Prune(now, policy);
      snapshot := events;
    }
  }

  // ----- what pruning leaves

  ghost predicate Ordered(events: seq<Event>) {
    forall i, j :: 0 <= i < j < |events| ==> events[i].createdAt <= events[j].createdAt
  }

  /** No event behind a fresh one is stale. */
  ghost predicate StaleFirst(events: seq<Event>, cutoff: int) {
    forall i, j :: 0 <= i < j < |events| && events[i].createdAt >= cutoff ==> events[j].createdAt >= cutoff
  }

  lemma {:induction false} StaleCountIs(events: seq<Event>, cutoff: int)
    ensures forall i :: 0 <= i < StaleCount(events, cutoff) ==> events[i].createdAt < cutoff
    ensures StaleCount(events, cutoff) < |events| ==> events[StaleCount(events, cutoff)].createdAt >= cutoff
  {
    if events != [] && events[0].createdAt < cutoff {
      StaleCountIs(events[1..], cutoff);
      var n := StaleCount(events, cutoff);
      forall i | 0 <= i < n ensures events[i].createdAt < cutoff {
        if i > 0 { assert events[i] == events[1..][i - 1]; }
      }
    }
  }

  lemma {:induction false} FreshMembers(events: seq<Event>, cutoff: int, i: nat)
    requires i < |Fresh(events, cutoff)|
    ensures Fresh(events, cutoff)[i].createdAt >= cutoff
  {
    if events[0].createdAt >= cutoff {
      if i > 0 { FreshMembers(events[1..], cutoff, i - 1); }
    } else {
      FreshMembers(events[1..], cutoff, i);
    }
  }

  lemma {:induction false} AllFresh(events: seq<Event>, cutoff: int)
    requires forall i :: 0 <= i < |events| ==> events[i].createdAt >= cutoff
    ensures Fresh(events, cutoff) == events
  {
    if events != [] {
      AllFresh(events[1..], cutoff);
      assert [events[0]] + events[1..] == events;
    }
  }

  lemma {:induction false} FreshAfterStale(events: seq<Event>, cutoff: int)
    ensures Fresh(events, cutoff) == Fresh(DropStale(events, cutoff), cutoff)
  {
    if events != [] && events[0].createdAt < cutoff {
      FreshAfterStale(events[1..], cutoff);
      assert DropStale(events, cutoff) == DropStale(events[1..], cutoff);
    }
  }

  lemma LeftIsFresh(events: seq<Event>, cutoff: int)
    requires StaleFirst(events, cutoff)
    ensures DropStale(events, cutoff) == Fresh(events, cutoff)
  {
    StaleCountIs(events, cutoff);
    FreshAfterStale(events, cutoff);
    hide StaleCount, Fresh;
    AllFresh(DropStale(events, cutoff), cutoff);
  }

  lemma LeftIsStale(events: seq<Event>, cutoff: int, i: nat, j: nat)
    requires i < j < |events| && events[i].createdAt >= cutoff && events[j].createdAt < cutoff
    ensures DropStale(events, cutoff) != Fresh(events, cutoff)
  {
    StaleCountIs(events, cutoff);
    hide StaleCount, Fresh;
    var n := StaleCount(events, cutoff);
    assert DropStale(events, cutoff)[j - n] == events[j];
    if DropStale(events, cutoff) == Fresh(events, cutoff) {
      FreshMembers(events, cutoff, j - n);
    }
  }

  /** Popping from the front drops every stale event exactly when none hides behind a fresh one. */
  lemma DropStaleIsFilter(events: seq<Event>, cutoff: int)
    ensures DropStale(events, cutoff) == Fresh(events, cutoff) <==> StaleFirst(events, cutoff)
  {
    hide DropStale, Fresh;
    if StaleFirst(events, cutoff) {
      LeftIsFresh(events, cutoff);
    } else {
      var i, j :| 0 <= i < j < |events| && events[i].createdAt >= cutoff && events[j].createdAt < cutoff;
      LeftIsStale(events, cutoff, i, j);
    }
  }

  /** A stale event behind a fresh one stays. */
  lemma StaleBehindFresh()
    ensures var events := [Event("late", 5), Event("early", 1)];
      DropStale(events, 3) == events && Fresh(events, 3) == [Event("late", 5)]
  {
    var events := [Event("late", 5), Event("early", 1)];
    assert events[1..] == [Event("early", 1)] && [Event("early", 1)][1..] == [];
  }

  lemma OrderedIsStaleFirst(events: seq<Event>, cutoff: int)
    requires Ordered(events)
    ensures StaleFirst(events, cutoff)
  {
  }

  lemma StaleCountUnique(events: seq<Event>, cutoff: int, n: nat)
    requires n <= |events|
    requires forall i :: 0 <= i < n ==> events[i].createdAt < cutoff
    requires forall i :: n <= i < |events| ==> events[i].createdAt >= cutoff
    ensures StaleCount(events, cutoff) == n
  {
    StaleCountIs(events, cutoff);
    assert n < |events| ==> events[n].createdAt >= cutoff;
  }

  lemma StaleCountSuffix(events: seq<Event>, cutoff: int, k: nat)
    requires Ordered(events) && k <= |events|
    ensures StaleCount(events[k..], cutoff) == if StaleCount(events, cutoff) > k then StaleCount(events, cutoff) - k else 0
  {
    StaleCountIs(events, cutoff);
    var n := StaleCount(events, cutoff);
    StaleCountUnique(events[k..], cutoff, if n > k then n - k else 0);
  }

  /** How many events of an ordered history are pruned. */
  function PrunedCount(events: seq<Event>, now: int, policy: Policy): (n: nat)
    ensures n <= |events|
  {
    var bySize := if |events| > MaxEvents(policy) then |events| - MaxEvents(policy) else 0;
    var byAge := if policy.retentionSeconds <= 0 then 0 else StaleCount(events, Cutoff(now, policy));
    if bySize > byAge then bySize else byAge
  }

  lemma PrunedIsSuffix(events: seq<Event>, now: int, policy: Policy)
    requires Ordered(events)
    ensures Pruned(events, now, policy) == events[PrunedCount(events, now, policy)..]
  {
    var n := if |events| > MaxEvents(policy) then |events| - MaxEvents(policy) else 0;
    assert events[n..] == LastN(events, MaxEvents(policy));
    StaleCountSuffix(events, Cutoff(now, policy), n);
    hide StaleCount, Cutoff;
    if policy.retentionSeconds > 0 {
      var m := StaleCount(events[n..], Cutoff(now, policy));
      assert events[n..][m..] == events[n + m..];
    }
  }

  /** On events in time order pruning keeps the last `max_events` events and of these the fresh
      ones. */
  lemma PrunedIsFreshTail(events: seq<Event>, now: int, policy: Policy)
    requires Ordered(events) && policy.retentionSeconds > 0
    ensures Pruned(events, now, policy) == Fresh(LastN(events, MaxEvents(policy)), Cutoff(now, policy))
  {
    OrderedIsStaleFirst(LastN(events, MaxEvents(policy)), Cutoff(now, policy));
    hide Fresh, DropStale, LastN, Cutoff;
    DropStaleIsFilter(LastN(events, MaxEvents(policy)), Cutoff(now, policy));
  }

  lemma LastOfRest(events: seq<Event>, m: nat, n: nat)
    requires m <= |events|
    ensures LastN(events[m..], n) == events[if |events| - m > n then |events| - n else m..]
  {
  }

  /** The two trims may be exchanged. */
  lemma TrimsCommute(events: seq<Event>, now: int, policy: Policy)
    requires Ordered(events) && policy.retentionSeconds > 0
    ensures Pruned(events, now, policy) == LastN(DropStale(events, Cutoff(now, policy)), MaxEvents(policy))
  {
    PrunedIsSuffix(events, now, policy);
    var n, m := MaxEvents(policy), StaleCount(events, Cutoff(now, policy));
    LastOfRest(events, m, n);
    assert DropStale(events, Cutoff(now, policy)) == events[m..];
    hide Pruned, StaleCount, Cutoff, MaxEvents, LastN, DropStale;
    assert PrunedCount(events, now, policy) == if |events| - m > n then |events| - n else m;
  }

  // ----- runs

  /** An append, a listing or a policy change, each under its own policy. */
  datatype Step = Appended(event: Event, policy: Policy) | Listed(now: int, policy: Policy)

  function After(events: seq<Event>, step: Step): seq<Event> {
    match step
    case Appended(event, policy) => Pruned(events + [event], event.createdAt, policy)
    case Listed(now, policy) => Pruned(events, now, policy)
  }

  function Contents(steps: seq<Step>): seq<Event> {
    if steps == [] then [] else After(Contents(steps[..|steps| - 1]), steps[|steps| - 1])
  }

  function NewEvents(step: Step): seq<Event> {
    if step.Appended? then [step.event] else []
  }

  /** Every event appended so far. */
  function History(steps: seq<Step>): seq<Event> {
    if steps == [] then [] else History(steps[..|steps| - 1]) + NewEvents(steps[|steps| - 1])
  }

  function Time(step: Step): int {
    if step.Appended? then step.event.createdAt else step.now
  }

  ghost predicate IsSuffix(events: seq<Event>, history: seq<Event>) {
    |events| <= |history| && history[|history| - |events|..] == events
  }

  lemma PruneIsSuffix(events: seq<Event>, now: int, policy: Policy)
    ensures IsSuffix(Pruned(events, now, policy), events) && |Pruned(events, now, policy)| <= MaxEvents(policy)
  {
    var kept := LastN(events, MaxEvents(policy));
    var m := StaleCount(kept, Cutoff(now, policy));
    hide StaleCount, Cutoff;
    var n := |events| - |kept|;
    assert events[n..] == kept && kept[m..] == events[n + m..];
  }

  lemma SuffixOfSuffix(a: seq<Event>, b: seq<Event>, c: seq<Event>, tail: seq<Event>)
    requires IsSuffix(a, b + tail) && IsSuffix(b, c)
    ensures IsSuffix(a, c + tail)
  {
    var n := |c| - |b|;
    assert (c + tail)[n..] == c[n..] + tail;
    assert (c + tail)[n..][|b + tail| - |a|..] == (c + tail)[|c + tail| - |a|..];
  }

  /** Whatever the policies and clocks, the buffer is the end of the history, and no longer than
      the last policy allows. */
  lemma {:induction false} ContentsAreSuffix(steps: seq<Step>)
    ensures IsSuffix(Contents(steps), History(steps))
    ensures steps != [] ==> |Contents(steps)| <= MaxEvents(steps[|steps| - 1].policy)
  {
    if steps != [] {
      var before, step := steps[..|steps| - 1], steps[|steps| - 1];
      ContentsAreSuffix(before);
      var tail := NewEvents(step);
      PruneIsSuffix(Contents(before) + tail, Time(step), step.policy);
      assert Contents(before) + [] == Contents(before);
      assert Contents(steps) == Pruned(Contents(before) + tail, Time(step), step.policy);
      SuffixOfSuffix(Contents(steps), Contents(before), History(before), tail);
    }
  }

  ghost predicate InTimeOrder(steps: seq<Step>) {
    forall i, j :: 0 <= i < j < |steps| ==> Time(steps[i]) <= Time(steps[j])
  }

  ghost predicate UnderPolicy(steps: seq<Step>, policy: Policy) {
    forall i :: 0 <= i < |steps| ==> steps[i].policy == policy
  }

  lemma {:induction false} HistoryOrdered(steps: seq<Step>)
    requires InTimeOrder(steps)
    ensures Ordered(History(steps))
    ensures steps != [] ==> forall i :: 0 <= i < |History(steps)| ==> History(steps)[i].createdAt <= Time(steps[|steps| - 1])
  {
    if steps != [] {
      var before := steps[..|steps| - 1];
      HistoryOrdered(before);
      if before != [] {
        assert Time(before[|before| - 1]) <= Time(steps[|steps| - 1]);
      }
    }
  }

  lemma OrderedPrefix(history: seq<Event>, tail: seq<Event>)
    requires Ordered(history + tail)
    ensures Ordered(history)
  {
    forall i, j | 0 <= i < j < |history| ensures history[i].createdAt <= history[j].createdAt {
      assert (history + tail)[i] == history[i] && (history + tail)[j] == history[j];
    }
  }

  lemma CountOfSuffix(events: seq<Event>, now: int, policy: Policy, k: nat)
    requires Ordered(events) && k <= PrunedCount(events, now, policy)
    ensures k + PrunedCount(events[k..], now, policy) == PrunedCount(events, now, policy)
  {
    StaleCountSuffix(events, Cutoff(now, policy), k);
    hide StaleCount, Cutoff, Ordered;
  }

  lemma CountGrows(history: seq<Event>, tail: seq<Event>, now: int, now': int, policy: Policy)
    requires now <= now'
    ensures PrunedCount(history, now, policy) <= PrunedCount(history + tail, now', policy)
  {
    StaleGrows(history, tail, Cutoff(now, policy), Cutoff(now', policy));
    hide StaleCount;
  }

  lemma SuffixPrunedAgain(all: seq<Event>, k: nat, now: int, policy: Policy)
    requires Ordered(all) && k <= PrunedCount(all, now, policy)
    ensures Pruned(all[k..], now, policy) == Pruned(all, now, policy)
  {
    assert Ordered(all[k..]);
    hide Pruned, PrunedCount, Ordered;
    PrunedIsSuffix(all, now, policy);
    PrunedIsSuffix(all[k..], now, policy);
    CountOfSuffix(all, now, policy, k);
    assert all[k..][PrunedCount(all[k..], now, policy)..] == all[PrunedCount(all, now, policy)..];
  }

  /** Pruning early loses nothing that a later pruning of the whole history would keep. */
  lemma PruneAgain(history: seq<Event>, tail: seq<Event>, now: int, now': int, policy: Policy)
    requires Ordered(history + tail) && now <= now'
    ensures Pruned(Pruned(history, now, policy) + tail, now', policy) == Pruned(history + tail, now', policy)
  {
    hide *;
    var k := PrunedCount(history, now, policy);
    OrderedPrefix(history, tail);
    PrunedIsSuffix(history, now, policy);
    CountGrows(history, tail, now, now', policy);
    assert history[k..] + tail == (history + tail)[k..];
    SuffixPrunedAgain(history + tail, k, now', policy);
  }

  lemma StaleGrows(history: seq<Event>, tail: seq<Event>, cutoff: int, cutoff': int)
    requires cutoff <= cutoff'
    ensures StaleCount(history, cutoff) <= StaleCount(history + tail, cutoff')
  {
    StaleCountIs(history, cutoff);
    StaleCountIs(history + tail, cutoff');
    assert forall i :: 0 <= i < |history| ==> (history + tail)[i] == history[i];
  }

  /** Under one policy and a clock that never goes back, pruning at every step leaves what one
      pruning of the whole history would. */
  lemma {:induction false} ContentsArePrunedHistory(steps: seq<Step>, policy: Policy)
    requires steps != [] && InTimeOrder(steps) && UnderPolicy(steps, policy)
    ensures Contents(steps) == Pruned(History(steps), Time(steps[|steps| - 1]), policy)
  {
    var before, step := steps[..|steps| - 1], steps[|steps| - 1];
    var tail := NewEvents(step);
    HistoryOrdered(steps);
    assert step.policy == policy;
    assert Contents(before) + [] == Contents(before);
    assert Contents(steps) == Pruned(Contents(before) + tail, Time(step), policy);
    assert History(steps) == History(before) + tail;
    if before != [] {
      ContentsArePrunedHistory(before, policy);
      assert Time(before[|before| - 1]) <= Time(step);
      PruneAgain(History(before), tail, Time(before[|before| - 1]), Time(step), policy);
    }
  }
}
