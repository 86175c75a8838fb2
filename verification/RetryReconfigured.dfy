/** Runs in which the settings change: every step has the settings of its moment. What the sinks
    accept and where every event ends up do not depend on the settings staying the same. */
module RetryReconfigured {
  import opened RetryQueue
  import opened SinkErrors

  datatype Change = Change(settings: Settings, step: Step)

  function RunAll(st: State, steps: seq<Change>): State
    decreases |steps|
  {
    if steps == [] then st else RunAll(Next(steps[0].settings, st, steps[0].step), steps[1..])
  }

  /** With one configuration these are the runs of the queue. */
  lemma {:induction false} UnchangedIsRun(settings: Settings, st: State, steps: seq<Step>)
    ensures RunAll(st, seq(|steps|, i requires 0 <= i < |steps| => Change(settings, steps[i]))) == Run(settings, st, steps)
    decreases |steps|
  {
    if steps != [] {
      var all := seq(|steps|, i requires 0 <= i < |steps| => Change(settings, steps[i]));
      var rest := seq(|steps| - 1, i requires 0 <= i < |steps| - 1 => Change(settings, steps[1..][i]));
      assert all[1..] == rest;
      hide Next;
      UnchangedIsRun(settings, Next(settings, st, steps[0]), steps[1..]);
    }
  }

  // ----- the invariant

  const ALL: set<Sink> := {Webhook, Otlp, Langfuse}

  /** No sink that the item may still be sent to, under any settings, has accepted it. */
  ghost predicate NotYet(l: Ledger, item: Item) {
    forall s :: s in Due(ALL, item.lastError) ==> l.accepted[(item.event, s)] == 0
  }

  ghost predicate Placed(l: Ledger, waiting: multiset<EventId>) {
    && l.entered == waiting + l.delivered + l.exhausted + l.evicted + l.vanished
    && forall e :: l.entered[e] <= 1
  }

  ghost predicate AcceptedOnce(l: Ledger) {
    && (forall e, s :: l.accepted[(e, s)] <= 1 && (l.accepted[(e, s)] > 0 ==> e in l.entered))
    && forall e :: e in l.delivered ==> exists s :: l.accepted[(e, s)] == 1
  }

  ghost predicate ItemFits(l: Ledger, item: Item, limit: nat) {
    NotYet(l, item) && l.sends[item.event] == item.attempts < limit
  }

  ghost predicate ItemsFit(st: State, limit: nat) {
    forall item :: item in Waiting(st) ==> ItemFits(st.ledger, item, limit)
  }

  ghost predicate SendsOk(l: Ledger, limit: nat) {
    forall e :: l.sends[e] <= limit && (l.sends[e] > 0 ==> e in l.entered)
  }

  /** Holds whatever the settings; `size` and `limit` bound those that have been in force. */
  ghost predicate Open(st: State, size: nat, limit: nat) {
    && |st.queue| <= size
    && Placed(st.ledger, multiset(Ids(Waiting(st))))
    && AcceptedOnce(st.ledger) && SendsOk(st.ledger, limit) && ItemsFit(st, limit)
  }

  /** The same while one item is held outside the queue and the batch. */
  ghost predicate OpenHeld(st: State, item: Item, size: nat, limit: nat) {
    && |st.queue| <= size
    && Placed(st.ledger, multiset(Ids(Waiting(st))) + multiset{item.event})
    && AcceptedOnce(st.ledger) && SendsOk(st.ledger, limit) && ItemsFit(st, limit)
  }

  // ----- preservation

  lemma PlacedAppend(l: Ledger, l': Ledger, waiting: multiset<EventId>, waiting': multiset<EventId>)
    requires Placed(l, waiting) && SameHistory(l, l') && l'.vanished == l.vanished
    requires waiting' + l'.evicted == waiting + l.evicted
    ensures Placed(l', waiting')
  {
    forall e ensures l'.entered[e] == (waiting' + l'.delivered + l'.exhausted + l'.evicted + l'.vanished)[e] {
      assert (waiting' + l'.evicted)[e] == (waiting + l.evicted)[e];
    }
  }

  lemma SameHistoryFits(l: Ledger, l': Ledger, limit: nat)
    requires SameHistory(l, l')
    ensures AcceptedOnce(l) ==> AcceptedOnce(l')
    ensures SendsOk(l, limit) ==> SendsOk(l', limit)
    ensures forall item :: ItemFits(l, item, limit) ==> ItemFits(l', item, limit)
  {
    hide Due;
  }

  lemma AppendOpen(settings: Settings, st: State, item: Item, size: nat, limit: nat)
    requires OpenHeld(st, item, size, limit) && ItemFits(st.ledger, item, limit) && settings.Size() <= size
    ensures Open(Append(settings, st, item), size, limit)
  {
    var st' := Append(settings, st, item);
    AppendConserves(settings, st, item);
    hide Append, Placed, AcceptedOnce, SendsOk, ItemFits, Waiting, Ids;
    SameHistoryFits(st.ledger, st'.ledger, limit);
    PlacedAppend(st.ledger, st'.ledger, multiset(Ids(Waiting(st))) + multiset{item.event}, multiset(Ids(Waiting(st'))));
  }

  /** The event is counted as settled, by one more in one place. */
  ghost predicate Settles(l: Ledger, l': Ledger, event: EventId) {
    || l' == l.(exhausted := l.exhausted + multiset{event})
    || l' == l.(vanished := l.vanished + multiset{event})
    || (l' == l.(delivered := l.delivered + multiset{event}) && exists s :: l.accepted[(event, s)] == 1)
  }

  lemma SettlesPlaced(l: Ledger, l': Ledger, event: EventId, waiting: multiset<EventId>)
    requires Settles(l, l', event) && Placed(l, waiting + multiset{event})
    ensures Placed(l', waiting)
  {
  }

  lemma SettlesFits(l: Ledger, l': Ledger, event: EventId, limit: nat)
    requires Settles(l, l', event)
    ensures AcceptedOnce(l) ==> AcceptedOnce(l')
    ensures SendsOk(l, limit) ==> SendsOk(l', limit)
    ensures forall item :: ItemFits(l, item, limit) ==> ItemFits(l', item, limit)
  {
    hide Due;
    assert l'.accepted == l.accepted && l'.sends == l.sends && l'.entered == l.entered;
    assert forall e :: e in l'.delivered ==> e in l.delivered || exists s :: l.accepted[(e, s)] == 1;
  }

  /** That ends the holding of its item. */
  lemma SettleOpen(st: State, item: Item, l': Ledger, size: nat, limit: nat)
    requires OpenHeld(st, item, size, limit) && Settles(st.ledger, l', item.event)
    ensures Open(st.(ledger := l'), size, limit)
  {
    assert Waiting(st.(ledger := l')) == Waiting(st);
    hide Settles, Placed, AcceptedOnce, SendsOk, ItemFits, Waiting, Ids;
    SettlesPlaced(st.ledger, l', item.event, multiset(Ids(Waiting(st))));
    SettlesFits(st.ledger, l', item.event, limit);
  }

  lemma RequeueOpen(settings: Settings, st: State, item: Item, size: nat, limit: nat)
    requires OpenHeld(st, item, size, limit) && ItemFits(st.ledger, item, limit) && settings.Size() <= size
    ensures Open(Requeue(settings, st, item), size, limit)
  {
    hide Open, OpenHeld, ItemFits, Append;
    if settings.Size() == 0 {
      SettleOpen(st, item, Requeue(settings, st, item).ledger, size, limit);
    } else {
      AppendOpen(settings, st, item, size, limit);
    }
  }

  lemma EnteredFits(l: Ledger, event: EventId, limit: nat)
    requires AcceptedOnce(l) && SendsOk(l, limit) && event !in l.entered
    ensures
      var l' := l.(entered := l.entered + multiset{event});
      && AcceptedOnce(l') && SendsOk(l', limit)
      && (forall item :: ItemFits(l, item, limit) ==> ItemFits(l', item, limit))
      && (forall now :: limit > 0 ==> ItemFits(l', Item(event, 0, "", now), limit))
  {
    hide Due;
    assert forall s :: l.accepted[(event, s)] == 0;
  }

  lemma EnterOpen(settings: Settings, st: State, event: EventId, now: real, size: nat, limit: nat)
    requires Open(st, size, limit) && event !in st.ledger.entered && settings.Size() <= size && limit > 0
    ensures Open(EnterStep(settings, st, event, now), size, limit)
  {
    if settings.sinks != {} && settings.Size() != 0 {
      var item, st' := Item(event, 0, "", now), st.(ledger := st.ledger.(entered := st.ledger.entered + multiset{event}));
      assert Waiting(st') == Waiting(st);
      EnteredFits(st.ledger, event, limit);
      hide Append, Waiting, AcceptedOnce, SendsOk, ItemFits, Ids;
      AppendOpen(settings, st', item, size, limit);
    }
  }

  lemma TakeOpen(st: State, count: int, size: nat, limit: nat)
    requires Open(st, size, limit)
    ensures Open(TakeStep(st, count), size, limit)
  {
    var k := Batch(count, |st.queue|);
    var front, back := st.queue[..k], st.queue[k..];
    assert st.queue == front + back;
    IdsConcat(front, back);
    IdsConcat(st.queue, st.flight);
    IdsConcat(back, st.flight + front);
    IdsConcat(st.flight, front);
    assert forall i :: i in back + (st.flight + front) ==> i in Waiting(st);
  }

  lemma TakeOutOpen(st: State, i: nat, size: nat, limit: nat)
    requires Open(st, size, limit) && i < |st.flight|
    ensures OpenHeld(st.(flight := Without(st.flight, i)), st.flight[i], size, limit)
    ensures ItemFits(st.ledger, st.flight[i], limit)
  {
    var rest := Without(st.flight, i);
    WithoutOne(st.flight, i);
    IdsConcat(st.queue, st.flight);
    IdsConcat(st.queue, rest);
    assert st.flight[i] in Waiting(st);
    assert forall j :: j in st.queue + rest ==> j in Waiting(st);
  }

  /** A held item's event has entered, and waits nowhere else. */
  lemma HeldOnce(st: State, item: Item)
    requires Placed(st.ledger, multiset(Ids(Waiting(st))) + multiset{item.event})
    ensures item.event in st.ledger.entered && forall i :: i in Waiting(st) ==> i.event != item.event
  {
    assert st.ledger.entered[item.event] == 1;
    forall i | i in Waiting(st) ensures i.event != item.event {
      IdOf(Waiting(st), i);
    }
  }

  lemma AcceptedMore(l: Ledger, event: EventId, ok: set<Sink>)
    requires AcceptedOnce(l) && event in l.entered && forall s :: s in ok ==> l.accepted[(event, s)] == 0
    ensures AcceptedOnce(RecordSend(l, event, ok))
  {
    var l' := RecordSend(l, event, ok);
    RecordCounts(l, event, ok);
    assert l'.delivered == l.delivered && l'.entered == l.entered;
    hide RecordSend;
    forall e | e in l.delivered ensures exists s :: l'.accepted[(e, s)] == 1 {
      var s :| l.accepted[(e, s)] == 1;
      assert l'.accepted[(e, s)] == 1;
    }
  }

  lemma OthersFit(st: State, item: Item, ok: set<Sink>, failedAt: map<EventId, real>, limit: nat)
    requires ItemsFit(st, limit) && forall i :: i in Waiting(st) ==> i.event != item.event
    ensures ItemsFit(st.(ledger := RecordSend(st.ledger, item.event, ok).(failedAt := failedAt)), limit)
  {
    var l, l' := st.ledger, RecordSend(st.ledger, item.event, ok).(failedAt := failedAt);
    RecordCounts(l, item.event, ok);
    assert Waiting(st.(ledger := l')) == Waiting(st);
    hide RecordSend, Due, Waiting;
    forall i | i in Waiting(st) ensures ItemFits(l', i, limit) {
      assert ItemFits(l, i, limit);
    }
  }

  lemma SendsMore(l: Ledger, event: EventId, ok: set<Sink>, limit: nat)
    requires SendsOk(l, limit) && event in l.entered && l.sends[event] < limit
    ensures SendsOk(RecordSend(l, event, ok), limit)
  {
    RecordCounts(l, event, ok);
    assert RecordSend(l, event, ok).entered == l.entered;
    hide RecordSend;
  }

  lemma RecordKeeps(l: Ledger, event: EventId, ok: set<Sink>, failedAt: map<EventId, real>, waiting: multiset<EventId>, limit: nat)
    requires Placed(l, waiting) && AcceptedOnce(RecordSend(l, event, ok)) && SendsOk(RecordSend(l, event, ok), limit)
    ensures
      var l' := RecordSend(l, event, ok).(failedAt := failedAt);
      Placed(l', waiting) && AcceptedOnce(l') && SendsOk(l', limit)
  {
  }

  /** After a send everything but the event's own place is in order. */
  lemma RecordOpen(st: State, item: Item, ok: set<Sink>, failedAt: map<EventId, real>, size: nat, limit: nat)
    requires OpenHeld(st, item, size, limit) && st.ledger.sends[item.event] < limit
    requires forall s :: s in ok ==> st.ledger.accepted[(item.event, s)] == 0
    ensures OpenHeld(st.(ledger := RecordSend(st.ledger, item.event, ok).(failedAt := failedAt)), item, size, limit)
  {
    var l := st.ledger;
    assert Waiting(st.(ledger := RecordSend(l, item.event, ok).(failedAt := failedAt))) == Waiting(st);
    hide ItemsFit, Waiting, Ids, Placed, AcceptedOnce, SendsOk, RecordSend;
    HeldOnce(st, item);
    AcceptedMore(l, item.event, ok);
    SendsMore(l, item.event, ok, limit);
    OthersFit(st, item, ok, failedAt, limit);
    RecordKeeps(l, item.event, ok, failedAt, multiset(Ids(Waiting(st))) + multiset{item.event}, limit);
  }

  lemma SentOpen(settings: Settings, st: State, item: Item, fate: Fate, failedAt: map<EventId, real>, size: nat, limit: nat)
    requires OpenHeld(st, item, size, limit) && ItemFits(st.ledger, item, limit)
    ensures OpenHeld(st.(ledger := Sent(settings, st.ledger, item, fate).(failedAt := failedAt)), item, size, limit)
  {
    hide OpenHeld, RecordSend;
    var ok := Due(settings.sinks, item.lastError) - fate.Keys;
    assert ok <= Due(ALL, item.lastError);
    RecordOpen(st, item, ok, failedAt, size, limit);
  }

  lemma AgainFits(settings: Settings, l: Ledger, item: Item, at: real, fate: Fate, limit: nat)
    requires ItemFits(l, item, limit) && item.attempts + 1 < limit
    requires Failures(Due(settings.sinks, item.lastError), fate) != []
    ensures ItemFits(Sent(settings, l, item, fate).(failedAt := l.failedAt[item.event := at]), Again(settings, item, at, fate), limit)
  {
    var due := Due(settings.sinks, item.lastError);
    assert due <= Due(ALL, item.lastError) && due <= ALL;
    RecordCounts(l, item.event, due - fate.Keys);
    DueAfterFailure(ALL, due, fate);
    hide Due, RecordSend, Failures;
  }

  lemma DeliveredSome(settings: Settings, l: Ledger, item: Item, fate: Fate)
    requires NotYet(l, item) && Due(settings.sinks, item.lastError) - fate.Keys != {}
    ensures exists s :: Sent(settings, l, item, fate).accepted[(item.event, s)] == 1
  {
    var ok := Due(settings.sinks, item.lastError) - fate.Keys;
    var s :| s in ok;
    assert s in Due(ALL, item.lastError);
    RecordCounts(l, item.event, ok);
    assert Sent(settings, l, item, fate).accepted[(item.event, s)] == 1;
  }

  lemma RetriedOpen(settings: Settings, st: State, item: Item, force: bool, now: real, at: real, fate: Fate, size: nat, limit: nat)
    requires OpenHeld(st, item, size, limit) && ItemFits(st.ledger, item, limit)
    requires settings.Size() <= size && settings.Attempts() <= limit
    requires OutcomeOf(settings, item, force, now, fate) == Retried
    ensures Open(SendItem(settings, st, item, force, now, at, fate), size, limit)
  {
    var l := Sent(settings, st.ledger, item, fate);
    var failedAt, again := l.failedAt[item.event := at], Again(settings, item, at, fate);
    assert l.failedAt == st.ledger.failedAt && again.event == item.event;
    AgainFits(settings, st.ledger, item, at, fate, limit);
    SentOpen(settings, st, item, fate, failedAt, size, limit);
    hide OpenHeld, Open, ItemFits, Sent, Requeue, Again, OutcomeOf;
    HeldAgain(st.(ledger := l.(failedAt := failedAt)), item, again, size, limit);
    RequeueOpen(settings, st.(ledger := l.(failedAt := failedAt)), again, size, limit);
  }

  /** Only the event of a held item matters. */
  lemma HeldAgain(st: State, item: Item, again: Item, size: nat, limit: nat)
    requires OpenHeld(st, item, size, limit) && again.event == item.event
    ensures OpenHeld(st, again, size, limit)
  {
    hide Placed, AcceptedOnce, SendsOk, ItemsFit, Waiting, Ids;
  }

  lemma SettledOpen(settings: Settings, st: State, item: Item, force: bool, now: real, at: real, fate: Fate, size: nat, limit: nat)
    requires OpenHeld(st, item, size, limit) && ItemFits(st.ledger, item, limit)
    requires OutcomeOf(settings, item, force, now, fate) in {Delivered, Exhausted, Vanished}
    ensures Open(SendItem(settings, st, item, force, now, at, fate), size, limit)
  {
    var l, st' := Sent(settings, st.ledger, item, fate), SendItem(settings, st, item, force, now, at, fate);
    if OutcomeOf(settings, item, force, now, fate).Delivered? { DeliveredSome(settings, st.ledger, item, fate); }
    SentOpen(settings, st, item, fate, l.failedAt, size, limit);
    hide OpenHeld, Open, ItemFits, Sent, OutcomeOf;
    assert l.(failedAt := l.failedAt) == l;
    assert Settles(l, st'.ledger, item.event) && st' == st.(ledger := l).(ledger := st'.ledger);
    SettleOpen(st.(ledger := l), item, st'.ledger, size, limit);
  }

  lemma SendOpen(settings: Settings, st: State, item: Item, force: bool, now: real, at: real, fate: Fate, size: nat, limit: nat)
    requires OpenHeld(st, item, size, limit) && ItemFits(st.ledger, item, limit)
    requires settings.Size() <= size && settings.Attempts() <= limit
    ensures Open(SendItem(settings, st, item, force, now, at, fate), size, limit)
  {
    var outcome := OutcomeOf(settings, item, force, now, fate);
    hide OutcomeOf, OpenHeld, Open, ItemFits;
    match outcome
    case Skipped => RequeueOpen(settings, st, item, size, limit);
    case Retried => RetriedOpen(settings, st, item, force, now, at, fate, size, limit);
    case _ => SettledOpen(settings, st, item, force, now, at, fate, size, limit);
  }

  lemma NextOpen(settings: Settings, st: State, step: Step, size: nat, limit: nat)
    requires Open(st, size, limit) && settings.Size() <= size && settings.Attempts() <= limit
    ensures Open(Next(settings, st, step), size, limit)
  {
    hide Open, OpenHeld, ItemFits, SendItem, EnterStep, TakeStep;
    match step
    case Enter(event, now) =>
      if event !in st.ledger.entered { EnterOpen(settings, st, event, now, size, limit); }
    case Take(count) => TakeOpen(st, count, size, limit);
    case Send(index, force, now, at, fate) =>
      if index < |st.flight| {
        TakeOutOpen(st, index, size, limit);
        SendOpen(settings, st.(flight := Without(st.flight, index)), st.flight[index], force, now, at, fate, size, limit);
      }
  }

  /** The settings in force stay within these bounds. */
  ghost predicate Bounded(steps: seq<Change>, size: nat, limit: nat) {
    forall k :: 0 <= k < |steps| ==> steps[k].settings.Size() <= size && steps[k].settings.Attempts() <= limit
  }

  lemma {:induction false} RunAllOpen(st: State, steps: seq<Change>, size: nat, limit: nat)
    requires Open(st, size, limit) && Bounded(steps, size, limit)
    ensures Open(RunAll(st, steps), size, limit)
    decreases |steps|
  {
    if steps != [] {
      hide Open, Next;
      NextOpen(steps[0].settings, st, steps[0].step, size, limit);
      RunAllOpen(Next(steps[0].settings, st, steps[0].step), steps[1..], size, limit);
    }
  }

  lemma {:induction false} Bounds(steps: seq<Change>) returns (size: nat, limit: nat)
    ensures Bounded(steps, size, limit)
  {
    size, limit := 0, 0;
    if steps != [] {
      size, limit := Bounds(steps[1..]);
      var now := steps[0].settings;
      if now.Size() > size { size := now.Size(); }
      if now.Attempts() > limit { limit := now.Attempts(); }
      assert steps == [steps[0]] + steps[1..];
    }
  }

  // ----- what every run guarantees

  /** Each sink accepts an event at most once, however the settings change, and an event counted as
      delivered has been accepted by some sink. */
  lemma AcceptedOnceAnyway(steps: seq<Change>, event: EventId, sink: Sink)
    ensures
      var l := RunAll(EMPTY, steps).ledger;
      && l.accepted[(event, sink)] <= 1
      && (event in l.delivered ==> exists s :: l.accepted[(event, s)] == 1)
  {
    var size, limit := Bounds(steps);
    RunAllOpen(EMPTY, steps, size, limit);
  }

  /** A sink that a waiting item would be sent to under the settings of any moment has not accepted it. */
  lemma OwedAnyway(steps: seq<Change>, item: Item, settings: Settings, sink: Sink)
    requires item in Waiting(RunAll(EMPTY, steps)) && sink in Due(settings.sinks, item.lastError)
    ensures RunAll(EMPTY, steps).ledger.accepted[(item.event, sink)] == 0
  {
    var size, limit := Bounds(steps);
    RunAllOpen(EMPTY, steps, size, limit);
    assert sink in Due(ALL, item.lastError);
    assert ItemFits(RunAll(EMPTY, steps).ledger, item, limit);
  }

  /** Every event that entered is in exactly one place, one of which is to have vanished; the queue and
      the sends stay within the largest size and number of attempts in force. */
  lemma ConservedAnyway(steps: seq<Change>, size: nat, limit: nat)
    requires Bounded(steps, size, limit)
    ensures
      var st := RunAll(EMPTY, steps);
      && st.ledger.entered == multiset(Ids(st.queue)) + multiset(Ids(st.flight))
           + st.ledger.delivered + st.ledger.exhausted + st.ledger.evicted + st.ledger.vanished
      && (forall e :: st.ledger.entered[e] <= 1)
      && |st.queue| <= size
      && forall e :: st.ledger.sends[e] <= limit
  {
    RunAllOpen(EMPTY, steps, size, limit);
    var st := RunAll(EMPTY, steps);
    IdsConcat(st.queue, st.flight);
  }
}
