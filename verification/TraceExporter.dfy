/** The queue object and its operations, tied to the steps of `RetryQueue`, and what a
    whole flush does. */
module TraceExporter {
  import opened SinkErrors
  import opened RetryQueue

  /** What the outside world does during one attempt: the clock when a retry is
      scheduled, and the sinks that fail. */
  datatype Attempt = Attempt(at: real, fate: Fate)

  datatype FlushData = FlushData(attempted: nat, succeeded: nat, requeued: nat, dropped: nat, skipped: nat)
  {
    function Count(outcome: Outcome): FlushData {
      match outcome
      case Skipped => this.(skipped := skipped + 1)
      case Delivered => this.(attempted := attempted + 1, succeeded := succeeded + 1)
      case Retried => this.(attempted := attempted + 1, requeued := requeued + 1)
      case Exhausted => this.(attempted := attempted + 1, dropped := dropped + 1)
      case Vanished => this.(attempted := attempted + 1)
    }
  }

  // ----- a flush as steps

  function SendFirst(settings: Settings, st: State, force: bool, now: real, attempt: Attempt): State
    requires st.flight != []
  {
    Next(settings, st, Send(0, force, now, attempt.at, attempt.fate))
  }

  lemma SendFirstShape(settings: Settings, st: State, force: bool, now: real, attempt: Attempt)
    requires st.flight != []
    ensures SendFirst(settings, st, force, now, attempt) ==
      SendItem(settings, st.(flight := st.flight[1..]), st.flight[0], force, now, attempt.at, attempt.fate)
    ensures SendFirst(settings, st, force, now, attempt).flight == st.flight[1..]
  {
    assert Without(st.flight, 0) == st.flight[1..];
  }

  /** The taken items are processed in order, the `k`-th attempt being `sends(k)`. */
  function FlushFrom(settings: Settings, st: State, force: bool, now: real, sends: nat -> Attempt, k: nat): State
    decreases |st.flight|
  {
    if st.flight == [] then st
    else
      SendFirstShape(settings, st, force, now, sends(k));
      FlushFrom(settings, SendFirst(settings, st, force, now, sends(k)), force, now, sends, k + 1)
  }

  function Tally(settings: Settings, st: State, force: bool, now: real, sends: nat -> Attempt, k: nat, data: FlushData): FlushData
    decreases |st.flight|
  {
    if st.flight == [] then data
    else
      SendFirstShape(settings, st, force, now, sends(k));
      Tally(settings, SendFirst(settings, st, force, now, sends(k)), force, now, sends, k + 1,
            data.Count(OutcomeOf(settings, st.flight[0], force, now, sends(k).fate)))
  }

  /** A flush is one of the runs of the step system. */
  lemma {:induction false} FlushIsRun(settings: Settings, st: State, force: bool, now: real, sends: nat -> Attempt, k: nat)
    returns (steps: seq<Step>)
    ensures FlushFrom(settings, st, force, now, sends, k) == Run(settings, st, steps)
    decreases |st.flight|
  {
    if st.flight == [] {
      steps := [];
    } else {
      SendFirstShape(settings, st, force, now, sends(k));
      var rest := FlushIsRun(settings, SendFirst(settings, st, force, now, sends(k)), force, now, sends, k + 1);
      steps := [Send(0, force, now, sends(k).at, sends(k).fate)] + rest;
    }
  }

  lemma SendFirstInv(settings: Settings, st: State, force: bool, now: real, attempt: Attempt)
    requires Inv(settings, st) && st.flight != []
    ensures Inv(settings, SendFirst(settings, st, force, now, attempt))
    ensures OutcomeOf(settings, st.flight[0], force, now, attempt.fate) != Vanished
    ensures |SendFirst(settings, st, force, now, attempt).flight| == |st.flight| - 1
  {
    hide Inv, Next, SendItem, OutcomeOf;
    TakeOut(settings, st, 0);
    SendInv(settings, st.(flight := Without(st.flight, 0)), st.flight[0], force, now, attempt.at, attempt.fate);
    SendFirstShape(settings, st, force, now, attempt);
    NextInv(settings, st, Send(0, force, now, attempt.at, attempt.fate));
  }

  /** Every taken item is counted once: skipped, succeeded, requeued or dropped. */
  lemma {:induction false} TallyAddsUp(settings: Settings, st: State, force: bool, now: real, sends: nat -> Attempt, k: nat, data: FlushData)
    requires Inv(settings, st)
    ensures
      var d := Tally(settings, st, force, now, sends, k, data);
      && d.attempted + d.skipped == data.attempted + data.skipped + |st.flight|
      && d.succeeded + d.requeued + d.dropped - d.attempted == data.succeeded + data.requeued + data.dropped - data.attempted
    decreases |st.flight|
  {
    hide Inv, OutcomeOf, SendFirst;
    if st.flight != [] {
      SendFirstInv(settings, st, force, now, sends(k));
      TallyAddsUp(settings, SendFirst(settings, st, force, now, sends(k)), force, now, sends, k + 1,
                  data.Count(OutcomeOf(settings, st.flight[0], force, now, sends(k).fate)));
    }
  }

  lemma RequeueSettles(settings: Settings, st: State, item: Item)
    ensures var l := Requeue(settings, st, item).ledger;
      l.delivered == st.ledger.delivered && l.exhausted == st.ledger.exhausted && l.sends == st.ledger.sends
  {
    hide Ids;
  }

  lemma SentSettles(settings: Settings, l: Ledger, item: Item, fate: Fate)
    ensures var l' := Sent(settings, l, item, fate);
      l'.delivered == l.delivered && l'.exhausted == l.exhausted && |l'.sends| == |l.sends| + 1
  {
    hide Due;
  }

  lemma SendCounts(settings: Settings, st: State, item: Item, force: bool, now: real, at: real, fate: Fate)
    ensures
      var l, l' := st.ledger, SendItem(settings, st, item, force, now, at, fate).ledger;
      var outcome := OutcomeOf(settings, item, force, now, fate);
      && |l'.delivered| == |l.delivered| + (if outcome == Delivered then 1 else 0)
      && |l'.exhausted| == |l.exhausted| + (if outcome == Exhausted then 1 else 0)
      && |l'.sends| == |l.sends| + (if outcome == Skipped then 0 else 1)
  {
    hide Requeue, Sent, Again, OutcomeOf;
    var l := Sent(settings, st.ledger, item, fate);
    SentSettles(settings, st.ledger, item, fate);
    RequeueSettles(settings, st, item);
    RequeueSettles(settings, st.(ledger := l.(failedAt := l.failedAt[item.event := at])), Again(settings, item, at, fate));
    match OutcomeOf(settings, item, force, now, fate)
    case Delivered => OneIn(l.delivered, item.event);
    case Exhausted => OneIn(l.exhausted, item.event);
    case _ =>
  }

  lemma OneIn(events: multiset<EventId>, event: EventId)
    ensures |events + multiset{event}| == |events| + 1
  {
  }

  /** The counts are those of the ledger: what was delivered, given up and sent. */
  lemma {:induction false} TallyIsLedger(settings: Settings, st: State, force: bool, now: real, sends: nat -> Attempt, k: nat, data: FlushData)
    ensures
      var d, st' := Tally(settings, st, force, now, sends, k, data), FlushFrom(settings, st, force, now, sends, k);
      && d.succeeded - data.succeeded == |st'.ledger.delivered| - |st.ledger.delivered|
      && d.dropped - data.dropped == |st'.ledger.exhausted| - |st.ledger.exhausted|
      && d.attempted - data.attempted == |st'.ledger.sends| - |st.ledger.sends|
    decreases |st.flight|
  {
    hide OutcomeOf, SendFirst, SendItem;
    if st.flight != [] {
      var item, left := st.flight[0], st.(flight := st.flight[1..]);
      SendFirstShape(settings, st, force, now, sends(k));
      SendCounts(settings, left, item, force, now, sends(k).at, sends(k).fate);
      TallyIsLedger(settings, SendFirst(settings, st, force, now, sends(k)), force, now, sends, k + 1,
                    data.Count(OutcomeOf(settings, item, force, now, sends(k).fate)));
    }
  }

  lemma AppendRoom(settings: Settings, st: State, item: Item)
    requires |st.queue| < settings.Size()
    ensures Append(settings, st, item) == st.(queue := st.queue + [item])
  {
    var q := st.queue + [item];
    assert q[..0] == [] && q[0..] == q && Ids([]) == [];
    assert st.ledger.evicted + multiset(Ids([])) == st.ledger.evicted;
  }

  lemma RequeueGrows(settings: Settings, st: State, item: Item)
    requires |st.queue| < settings.Size()
    ensures Requeue(settings, st, item) == st.(queue := st.queue + [item])
  {
    hide Append;
    AppendRoom(settings, st, item);
  }

  lemma SentEvicts(settings: Settings, l: Ledger, item: Item, fate: Fate)
    ensures Sent(settings, l, item, fate).evicted == l.evicted
  {
  }

  lemma SendItemGrows(settings: Settings, st: State, item: Item, force: bool, now: real, at: real, fate: Fate)
    requires |st.queue| < settings.Size()
    ensures
      var st' := SendItem(settings, st, item, force, now, at, fate);
      && st'.ledger.evicted == st.ledger.evicted
      && |st'.queue| <= |st.queue| + 1
  {
    hide Requeue, OutcomeOf, Sent, Again;
    var l := Sent(settings, st.ledger, item, fate);
    SentEvicts(settings, st.ledger, item, fate);
    RequeueGrows(settings, st, item);
    RequeueGrows(settings, st.(ledger := l.(failedAt := l.failedAt[item.event := at])), Again(settings, item, at, fate));
  }

  /** A flush that no entry interrupts pushes nothing out of the queue. */
  lemma {:induction false} FlushNeverEvicts(settings: Settings, st: State, force: bool, now: real, sends: nat -> Attempt, k: nat)
    requires |st.queue| + |st.flight| <= settings.Size()
    ensures
      var st' := FlushFrom(settings, st, force, now, sends, k);
      && st'.ledger.evicted == st.ledger.evicted
      && |st'.queue| <= |st.queue| + |st.flight|
      && st'.flight == []
    decreases |st.flight|
  {
    if st.flight != [] {
      SendFirstShape(settings, st, force, now, sends(k));
      SendItemGrows(settings, st.(flight := st.flight[1..]), st.flight[0], force, now, sends(k).at, sends(k).fate);
      FlushNeverEvicts(settings, SendFirst(settings, st, force, now, sends(k)), force, now, sends, k + 1);
    }
  }

  // ----- forced flushes drain the queue

  ghost predicate Aged(items: seq<Item>, age: nat) {
    forall item :: item in items ==> item.attempts >= age
  }

  lemma ForcedSendAges(settings: Settings, st: State, item: Item, now: real, at: real, fate: Fate, age: nat)
    requires Aged(st.queue, age + 1) && item.attempts >= age
    ensures Aged(SendItem(settings, st, item, true, now, at, fate).queue, age + 1)
  {
    forall i: Item, l: Ledger | i.attempts >= age + 1
      ensures Aged(Append(settings, st.(ledger := l), i).queue, age + 1)
    {
      var q := st.queue + [i];
      forall j | j in q[Excess(|q|, settings.Size())..] ensures j.attempts >= age + 1 {
        assert j in q;
        assert j in st.queue || j == i;
      }
    }
  }

  lemma {:induction false} ForcedFlushAges(settings: Settings, st: State, now: real, sends: nat -> Attempt, k: nat, age: nat)
    requires Inv(settings, st) && Aged(st.queue, age + 1) && Aged(st.flight, age)
    ensures
      var st' := FlushFrom(settings, st, true, now, sends, k);
      Inv(settings, st') && st'.flight == [] && Aged(st'.queue, age + 1)
    decreases |st.flight|
  {
    if st.flight != [] {
      SendFirstShape(settings, st, true, now, sends(k));
      NextInv(settings, st, Send(0, true, now, sends(k).at, sends(k).fate));
      ForcedSendAges(settings, st.(flight := st.flight[1..]), st.flight[0], now, sends(k).at, sends(k).fate, age);
      var st' := SendFirst(settings, st, true, now, sends(k));
      assert st'.flight == st.flight[1..];
      ForcedFlushAges(settings, st', now, sends, k + 1, age);
    }
  }

  /** The state after `rounds` forced flushes, each long enough for the whole queue. */
  ghost function Drained(settings: Settings, st: State, rounds: nat, now: nat -> real, sends: nat -> nat -> Attempt): State {
    if rounds == 0 then st
    else
      var before := Drained(settings, st, rounds - 1, now, sends);
      FlushFrom(settings, TakeStep(before, |before.queue|), true, now(rounds), sends(rounds), 0)
  }

  lemma {:induction false} DrainedAges(settings: Settings, st: State, rounds: nat, now: nat -> real, sends: nat -> nat -> Attempt)
    requires Inv(settings, st) && st.flight == []
    ensures
      var st' := Drained(settings, st, rounds, now, sends);
      Inv(settings, st') && st'.flight == [] && Aged(st'.queue, rounds)
    decreases rounds
  {
    if rounds > 0 {
      DrainedAges(settings, st, rounds - 1, now, sends);
      var before := Drained(settings, st, rounds - 1, now, sends);
      hide Drained, Inv, FlushFrom;
      RoundAges(settings, before, now(rounds), sends(rounds), rounds - 1);
    }
  }

  lemma RoundAges(settings: Settings, st: State, now: real, sends: nat -> Attempt, age: nat)
    requires Inv(settings, st) && st.flight == [] && Aged(st.queue, age)
    ensures
      var st' := FlushFrom(settings, TakeStep(st, |st.queue|), true, now, sends, 0);
      Inv(settings, st') && st'.flight == [] && Aged(st'.queue, age + 1)
  {
    hide Inv, FlushFrom;
    var taken := TakeStep(st, |st.queue|);
    TakeInv(settings, st, |st.queue|);
    assert taken.queue == [] && taken.flight == st.queue;
    hide TakeStep;
    ForcedFlushAges(settings, taken, now, sends, 0, age);
  }

  lemma WaitingIsYoung(settings: Settings, st: State)
    requires Inv(settings, st) && st.queue != []
    ensures !Aged(st.queue, settings.Attempts())
  {
    assert st.queue[0] in Waiting(st);
  }

  /** As many forced full flushes as there are attempts empty the queue, whatever the
      sinks do. */
  lemma ForcedFlushesEmptyQueue(settings: Settings, st: State, now: nat -> real, sends: nat -> nat -> Attempt)
    requires Inv(settings, st) && st.flight == []
    ensures Drained(settings, st, settings.Attempts(), now, sends).queue == []
  {
    hide Inv, Aged, Drained;
    DrainedAges(settings, st, settings.Attempts(), now, sends);
    var st' := Drained(settings, st, settings.Attempts(), now, sends);
    if st'.queue != [] { WaitingIsYoung(settings, st'); }
  }

  // ----- the queue object

  lemma IdsNext(q: seq<Item>, k: nat)
    requires k < |q|
    ensures multiset(Ids(q[..k + 1])) == multiset(Ids(q[..k])) + multiset{q[k].event}
  {
    assert Ids(q[..k + 1]) == Ids(q[..k]) + [q[k].event];
  }

  class Exporter {
    const settings: Settings
    var queue: seq<Item>
    var ledger: Ledger

    constructor (settings: Settings)
      ensures this.settings == settings && View([]) == EMPTY && Inv(settings, View([]))
    {
      this.settings := settings;
      queue, ledger := [], EMPTY.ledger;
    }

    /** The state of the system, `flight` being the items a flush has taken. */
    function View(flight: seq<Item>): State
      reads this
    {
      State(queue, flight, ledger)
    }

    /** Appends, then drops from the front until the queue fits. */
    method Push(item: Item, ghost flight: seq<Item>)
      modifies this
      ensures View(flight) == Append(settings, old(View(flight)), item)
    {
      queue := queue + [item];
      ghost var q, k := queue, 0;
      while |queue| > settings.Size()
        invariant k <= Excess(|q|, settings.Size()) && queue == q[k..]
        invariant ledger == old(ledger).(evicted := old(ledger.evicted) + multiset(Ids(q[..k])))
      {
        IdsNext(q, k);
        ledger := ledger.(evicted := ledger.evicted + multiset{queue[0].event});
        queue := queue[1..];
        k := k + 1;
      }
    }

    /** The first hand-over of an event, whose id is new. */
    method Enqueue(event: EventId, now: real, ghost flight: seq<Item>)
      requires event !in ledger.entered
      modifies this
      ensures View(flight) == Next(settings, old(View(flight)), Enter(event, now))
    {
      if settings.sinks == {} || settings.Size() == 0 {
        return;
      }
      ledger := ledger.(entered := ledger.entered + multiset{event});
      Push(Item(event, 0, "", now), flight);
    }

    method PutBack(item: Item, ghost flight: seq<Item>)
      modifies this
      ensures View(flight) == Requeue(settings, old(View(flight)), item)
    {
      if settings.Size() == 0 {
        ledger := ledger.(vanished := ledger.vanished + multiset{item.event});
        return;
      }
      Push(item, flight);
    }

    /** One sink's turn: skipped unless configured and owed, else it accepts or fails. */
    method TrySink(s: Sink, item: Item, fate: Fate) returns (failures: seq<Failure>, ok: set<Sink>)
      ensures failures == FailureAt(s, Due(settings.sinks, item.lastError), fate)
      ensures ok == (Due(settings.sinks, item.lastError) - fate.Keys) * {s}
    {
      failures, ok := [], {};
      var names := NamesOwed(item.lastError);
      if s in settings.sinks && (names == {} || s.Name() in names) {
        if s in fate {
          failures := [Failure(s, fate[s])];
        } else {
          ok := {s};
        }
      }
    }

    /** One attempt at the sinks an item is due at, in their fixed order. */
    method Export(item: Item, fate: Fate) returns (failures: seq<Failure>, exported: bool)
      modifies this
      ensures queue == old(queue)
      ensures ledger == Sent(settings, old(ledger), item, fate)
      ensures failures == Failures(Due(settings.sinks, item.lastError), fate)
      ensures exported <==> Due(settings.sinks, item.lastError) - fate.Keys != {}
    {
      ghost var due := Due(settings.sinks, item.lastError);
      var webhook, a := TrySink(Webhook, item, fate);
      var otlp, b := TrySink(Otlp, item, fate);
      var langfuse, c := TrySink(Langfuse, item, fate);
      hide Due, FailureAt, RecordSend;
      failures := webhook + otlp + langfuse;
      var ok := a + b + c;
      forall s: Sink ensures s in ok <==> s in due - fate.Keys {
        match s case Webhook => case Otlp => case Langfuse =>
      }
      assert ok == due - fate.Keys;
      exported := ok != {};
      ledger := RecordSend(ledger, item.event, ok);
    }

    /** The body of the flush loop. */
    method Process(item: Item, force: bool, now: real, attempt: Attempt, ghost flight: seq<Item>)
      returns (outcome: Outcome)
      modifies this
      ensures outcome == OutcomeOf(settings, item, force, now, attempt.fate)
      ensures View(flight) == SendItem(settings, old(View(flight)), item, force, now, attempt.at, attempt.fate)
    {
      hide Append, ErrorText, Failures, Due, RecordSend, Sent;
      if !force && item.nextRetryAt > now {
        PutBack(item, flight);
        return Skipped;
      }
      var failures, exported := Export(item, attempt.fate);
      if failures != [] {
        var attempts := item.attempts + 1;
        if attempts >= settings.Attempts() || !settings.workerEnabled {
          ledger := ledger.(exhausted := ledger.exhausted + multiset{item.event});
          outcome := Exhausted;
        } else {
          ledger := ledger.(failedAt := ledger.failedAt[item.event := attempt.at]);
          PutBack(Item(item.event, attempts, ErrorText(failures), attempt.at + settings.Delay(attempts)), flight);
          outcome := Retried;
        }
      } else if exported {
        ledger := ledger.(delivered := ledger.delivered + multiset{item.event});
        outcome := Delivered;
      } else {
        ledger := ledger.(vanished := ledger.vanished + multiset{item.event});
        outcome := Vanished;
      }
    }

    /** A flush that no other caller interrupts. */
    method Flush(limit: int, force: bool, now: real, sends: nat -> Attempt) returns (data: FlushData, size: nat)
      modifies this
      ensures
        var taken := TakeStep(old(View([])), limit);
        && View([]) == FlushFrom(settings, taken, force, now, sends, 0)
        && data == Tally(settings, taken, force, now, sends, 0, FlushData(0, 0, 0, 0, 0))
        && size == |queue|
      ensures data.succeeded == |ledger.delivered| - old(|ledger.delivered|)
      ensures data.dropped == |ledger.exhausted| - old(|ledger.exhausted|)
      ensures data.attempted == |ledger.sends| - old(|ledger.sends|)
      ensures old(Inv(settings, View([]))) ==>
        && Inv(settings, View([])) && ledger.evicted == old(ledger.evicted)
        && data.attempted + data.skipped == Batch(limit, old(|queue|))
        && data.succeeded + data.requeued + data.dropped == data.attempted
    {
      var n := Batch(limit, |queue|);
      var items := queue[..n];
      queue := queue[n..];
      ghost var taken := TakeStep(old(View([])), limit);
      assert View(items) == taken;
      data := FlushData(0, 0, 0, 0, 0);
      for k := 0 to n
        invariant FlushFrom(settings, View(items[k..]), force, now, sends, k) == FlushFrom(settings, taken, force, now, sends, 0)
        invariant Tally(settings, View(items[k..]), force, now, sends, k, data) ==
          Tally(settings, taken, force, now, sends, 0, FlushData(0, 0, 0, 0, 0))
      {
        ghost var st := View(items[k..]);
        assert items[k..][1..] == items[k + 1..];
        SendFirstShape(settings, st, force, now, sends(k));
        var outcome := Process(items[k], force, now, sends(k), items[k + 1..]);
        assert View(items[k + 1..]) == SendFirst(settings, st, force, now, sends(k));
        data := data.Count(outcome);
      }
      TallyIsLedger(settings, taken, force, now, sends, 0, FlushData(0, 0, 0, 0, 0));
      if old(Inv(settings, View([]))) {
        TakeInv(settings, old(View([])), limit);
        TallyAddsUp(settings, taken, force, now, sends, 0, FlushData(0, 0, 0, 0, 0));
        FlushNeverEvicts(settings, taken, force, now, sends, 0);
        ghost var steps := FlushIsRun(settings, taken, force, now, sends, 0);
        RunInv(settings, taken, steps);
      }
      size := |queue|;
    }
  }
}
