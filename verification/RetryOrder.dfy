/** The queue is first in, first out: it holds the items appended last, and what leaves it, taken or
    evicted, is what has been in it longest. */
module RetryOrder {
  import opened Numbers
  import opened RetryQueue
  import opened RetryReconfigured

  /** What a step puts at the end of the queue: a new event's item, or a sent one that goes back. */
  function Put(settings: Settings, st: State, step: Step): (items: seq<Item>)
    ensures |items| <= 1
  {
    if settings.Size() == 0 then []
    else
      match step
      case Enter(event, now) => if event in st.ledger.entered || settings.sinks == {} then [] else [Item(event, 0, "", now)]
      case Take(_) => []
      case Send(index, force, now, at, fate) =>
        if index >= |st.flight| then []
        else
          match OutcomeOf(settings, st.flight[index], force, now, fate)
          case Skipped => [st.flight[index]]
          case Retried => [Again(settings, st.flight[index], at, fate)]
          case _ => []
  }

  /** All items ever put into the queue, in order. */
  function History(st: State, steps: seq<Change>): seq<Item>
    decreases |steps|
  {
    if steps == [] then []
    else
      var settings, step := steps[0].settings, steps[0].step;
      Put(settings, st, step) + History(Next(settings, st, step), steps[1..])
  }

  /** How many items leave the front of the queue in a step: a batch, or as many as do not fit. */
  function Leaves(settings: Settings, st: State, step: Step): nat {
    if step.Take? then Min(Max(1, step.limit), |st.queue|)
    else if Put(settings, st, step) != [] && |st.queue| + 1 > settings.Size() then |st.queue| + 1 - settings.Size()
    else 0
  }

  /** The items that stay are the last ones of the queue and what was put behind it; the ones before
      them were taken, or else evicted. */
  ghost predicate Ordered(settings: Settings, st: State, step: Step, st': State) {
    var line, n := st.queue + Put(settings, st, step), Leaves(settings, st, step);
    && n <= |line| && st'.queue == line[n..]
    && if step.Take? then st'.flight == st.flight + line[..n] && st'.ledger == st.ledger
       else st'.ledger.evicted == st.ledger.evicted + multiset(Ids(line[..n]))
  }

  lemma KeptOrdered(settings: Settings, st: State, step: Step, st': State)
    requires !step.Take? && Put(settings, st, step) == []
    requires st'.queue == st.queue && st'.ledger.evicted == st.ledger.evicted
    ensures Ordered(settings, st, step, st')
  {
    hide Put;
    assert st.queue + [] == st.queue;
  }

  lemma PutOrdered(settings: Settings, st: State, step: Step, base: State, item: Item)
    requires !step.Take? && Put(settings, st, step) == [item] && settings.Size() > 0
    requires base.queue == st.queue && base.ledger.evicted == st.ledger.evicted
    ensures Ordered(settings, st, step, Append(settings, base, item))
  {
    hide Put;
  }

  lemma EnterOrdered(settings: Settings, st: State, event: EventId, now: real)
    ensures Ordered(settings, st, Enter(event, now), Next(settings, st, Enter(event, now)))
  {
    hide Ordered, Append;
    var step, next := Enter(event, now), Next(settings, st, Enter(event, now));
    if settings.Size() == 0 || event in st.ledger.entered || settings.sinks == {} {
      KeptOrdered(settings, st, step, next);
    } else {
      var entered := st.ledger.entered + multiset{event};
      PutOrdered(settings, st, step, st.(ledger := st.ledger.(entered := entered)), Item(event, 0, "", now));
    }
  }

  lemma SendOrdered(settings: Settings, st: State, index: nat, force: bool, now: real, at: real, fate: Fate)
    ensures Ordered(settings, st, Send(index, force, now, at, fate), Next(settings, st, Send(index, force, now, at, fate)))
  {
    hide Ordered, Append, Again, OutcomeOf, Without;
    var step, next := Send(index, force, now, at, fate), Next(settings, st, Send(index, force, now, at, fate));
    if index >= |st.flight| || settings.Size() == 0
       || OutcomeOf(settings, st.flight[index], force, now, fate) !in {Skipped, Retried} {
      KeptOrdered(settings, st, step, next);
    } else {
      var base, item := st.(flight := Without(st.flight, index)), st.flight[index];
      var l := Sent(settings, st.ledger, item, fate);
      if OutcomeOf(settings, item, force, now, fate) == Skipped {
        PutOrdered(settings, st, step, base, item);
      } else {
        PutOrdered(settings, st, step, base.(ledger := l.(failedAt := l.failedAt[item.event := at])), Again(settings, item, at, fate));
      }
    }
  }

  lemma TakeOrdered(settings: Settings, st: State, limit: int)
    ensures Ordered(settings, st, Take(limit), Next(settings, st, Take(limit)))
  {
    assert st.queue + [] == st.queue;
    hide Ids;
  }

  /** Every step keeps the order. */
  lemma NextOrdered(settings: Settings, st: State, step: Step)
    ensures Ordered(settings, st, step, Next(settings, st, step))
  {
    hide *;
    match step
    case Enter(event, now) => EnterOrdered(settings, st, event, now);
    case Take(limit) => TakeOrdered(settings, st, limit);
    case Send(index, force, now, at, fate) =>
      SendOrdered(settings, st, index, force, now, at, fate);
  }

  /** `q` is the end of `h`. */
  ghost predicate EndOf(q: seq<Item>, h: seq<Item>) {
    |q| <= |h| && h[|h| - |q|..] == q
  }

  lemma EndGrows(q: seq<Item>, h: seq<Item>, more: seq<Item>, n: nat)
    requires EndOf(q, h) && n <= |q + more|
    ensures EndOf((q + more)[n..], h + more)
  {
  }

  lemma NextIsEnd(settings: Settings, st: State, step: Step, before: seq<Item>)
    requires EndOf(st.queue, before)
    ensures EndOf(Next(settings, st, step).queue, before + Put(settings, st, step))
  {
    NextOrdered(settings, st, step);
    hide EndOf, Put, Next, Leaves;
    EndGrows(st.queue, before, Put(settings, st, step), Leaves(settings, st, step));
  }

  lemma RunBegins(st: State, steps: seq<Change>)
    requires steps != []
    ensures
      var next, put := Next(steps[0].settings, st, steps[0].step), Put(steps[0].settings, st, steps[0].step);
      RunAll(st, steps) == RunAll(next, steps[1..]) && History(st, steps) == put + History(next, steps[1..])
  {
    hide Next, Put;
  }

  lemma NothingRun(st: State)
    ensures RunAll(st, []) == st && History(st, []) == []
  {
  }

  lemma {:induction false} RunOrdered(st: State, steps: seq<Change>, before: seq<Item>)
    requires EndOf(st.queue, before)
    ensures EndOf(RunAll(st, steps).queue, before + History(st, steps))
    decreases |steps|
  {
    hide *;
    if steps == [] {
      NothingRun(st);
      assert before + [] == before;
    } else {
      var settings, step := steps[0].settings, steps[0].step;
      var next, put := Next(settings, st, step), Put(settings, st, step);
      RunBegins(st, steps);
      NextIsEnd(settings, st, step, before);
      RunOrdered(next, steps[1..], before + put);
      assert before + put + History(next, steps[1..]) == before + (put + History(next, steps[1..]));
    }
  }

  // ----- what every run guarantees

  lemma NothingQueued()
    ensures EndOf(EMPTY.queue, [])
  {
  }

  /** In every run, whatever the interleaving, the failures and the settings, the queue is the last
      items put into it, in order. */
  lemma QueueIsEndOfHistory(steps: seq<Change>)
    ensures
      var queue, history := RunAll(EMPTY, steps).queue, History(EMPTY, steps);
      |queue| <= |history| && queue == history[|history| - |queue|..]
  {
    hide RunAll, History;
    NothingQueued();
    RunOrdered(EMPTY, steps, []);
    assert [] + History(EMPTY, steps) == History(EMPTY, steps);
  }

  /** The next step takes or evicts the items that have been in the queue longest, evicts only as many
      as do not fit, and keeps the item it has just put. */
  lemma OldestLeaveFirst(steps: seq<Change>, settings: Settings, step: Step)
    ensures
      var st, history := RunAll(EMPTY, steps), History(EMPTY, steps) + Put(settings, RunAll(EMPTY, steps), step);
      var st' := Next(settings, st, step);
      var first := |History(EMPTY, steps)| - |st.queue|;
      var left := |history| - |st'.queue|;
      && 0 <= first <= left && st.queue == history[first..|History(EMPTY, steps)|] && st'.queue == history[left..]
      && (step.Take? ==> st'.flight == st.flight + history[first..left] && left - first == Min(Max(1, step.limit), |st.queue|))
      && (!step.Take? ==> st'.ledger.evicted == st.ledger.evicted + multiset(Ids(history[first..left])))
      && (!step.Take? && first < left ==> |st'.queue| == settings.Size())
      && (Put(settings, st, step) != [] ==> st'.queue != [] && st'.queue[|st'.queue| - 1] == Put(settings, st, step)[0])
  {
    var st, h, put := RunAll(EMPTY, steps), History(EMPTY, steps), Put(settings, RunAll(EMPTY, steps), step);
    var n := Leaves(settings, st, step);
    QueueIsEndOfHistory(steps);
    NextOrdered(settings, st, step);
    PutFits(settings, st, step);
    hide RunAll, History, Next, Put, Ids;
    FrontOfEnd(h, st.queue, put, n);
  }

  lemma PutFits(settings: Settings, st: State, step: Step)
    ensures Put(settings, st, step) != [] ==> settings.Size() > 0 && !step.Take?
  {
  }

  lemma FrontOfEnd(h: seq<Item>, q: seq<Item>, put: seq<Item>, n: nat)
    requires |q| <= |h| && q == h[|h| - |q|..] && n <= |q + put|
    ensures
      var first := |h| - |q|;
      && (h + put)[first..|h|] == q && (h + put)[first..first + n] == (q + put)[..n] && (h + put)[first + n..] == (q + put)[n..]
  {
  }
}
