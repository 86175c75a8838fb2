/** The bounded delivery queue: events enter once, a flush takes a batch under the lock,
    sends it outside the lock, and puts failures back with a growing delay.

    `Next` is one step of the system. Taken items may be processed in any order and with
    any steps in between, so its runs cover every interleaving of flushes and entries. */
module RetryQueue {
  import opened Numbers
  import opened SinkErrors

  type EventId = nat

  datatype Item = Item(event: EventId, attempts: nat, lastError: string, nextRetryAt: real)

  datatype Settings = Settings(
    sinks: set<Sink>, queueSize: int, maxAttempts: int, workerEnabled: bool, baseDelay: real, maxDelay: real)
  {
    function Size(): nat {
      if queueSize < 0 then 0 else queueSize
    }

    function Attempts(): nat {
      if maxAttempts < 1 then 1 else maxAttempts
    }

    /** The wait before the attempt after `attempts` failures. */
    function Delay(attempts: nat): real {
      var base := MaxReal(0.0, baseDelay);
      MinReal(MaxReal(base, maxDelay), Scaled(base, if attempts == 0 then 0 else attempts - 1))
    }
  }

  function MaxReal(x: real, y: real): real {
    if x >= y then x else y
  }

  function MinReal(x: real, y: real): real {
    if x <= y then x else y
  }

  /** 2 to the power `n`. */
  function Power(n: nat): (r: real)
    ensures r >= 1.0
  {
    if n == 0 then 1.0 else 2.0 * Power(n - 1)
  }

  function Scaled(base: real, n: nat): real {
    base * Power(n)
  }

  /** Where every event went, and what the sinks saw of it. */
  datatype Ledger = Ledger(
    entered: multiset<EventId>,
    delivered: multiset<EventId>,
    exhausted: multiset<EventId>,
    evicted: multiset<EventId>,
    vanished: multiset<EventId>,
    sends: multiset<EventId>,
    accepted: multiset<(EventId, Sink)>,
    failedAt: map<EventId, real>)

  datatype State = State(queue: seq<Item>, flight: seq<Item>, ledger: Ledger)

  const EMPTY: State := State([], [],
    Ledger(multiset{}, multiset{}, multiset{}, multiset{}, multiset{}, multiset{}, multiset{}, map[]))

  /** The sinks that fail, and how; every other sink accepts. */
  type Fate = map<Sink, Detail>

  // ----- one delivery attempt

  /** The sinks an item is sent to: those its error text names, or all. */
  function Due(sinks: set<Sink>, lastError: string): set<Sink> {
    set s | s in sinks && (NamesOwed(lastError) == {} || s.Name() in NamesOwed(lastError))
  }

  function FailureAt(s: Sink, due: set<Sink>, fate: Fate): seq<Failure> {
    if s in due && s in fate then [Failure(s, fate[s])] else []
  }

  function Failures(due: set<Sink>, fate: Fate): seq<Failure> {
    FailureAt(Webhook, due, fate) + FailureAt(Otlp, due, fate) + FailureAt(Langfuse, due, fate)
  }

  lemma FailuresSinks(due: set<Sink>, fate: Fate)
    ensures (set f | f in Failures(due, fate) :: f.sink) == due * fate.Keys
  {
    forall s | s in due && s in fate ensures exists f :: f in Failures(due, fate) && f.sink == s {
      var f, w, o, l := Failure(s, fate[s]), FailureAt(Webhook, due, fate), FailureAt(Otlp, due, fate), FailureAt(Langfuse, due, fate);
      assert f in FailureAt(s, due, fate);
      match s { case Webhook => assert f in w; case Otlp => assert f in o; case Langfuse => assert f in l; }
      assert f in w || f in o || f in l;
      assert f in w + o + l;
    }
  }

  datatype Outcome = Skipped | Delivered | Retried | Exhausted | Vanished

  function OutcomeOf(settings: Settings, item: Item, force: bool, now: real, fate: Fate): Outcome {
    var due := Due(settings.sinks, item.lastError);
    if !force && item.nextRetryAt > now then Skipped
    else if Failures(due, fate) != [] then
      if item.attempts + 1 >= settings.Attempts() || !settings.workerEnabled then Exhausted else Retried
    else if due - fate.Keys != {} then Delivered
    else Vanished
  }

  /** An item disappears uncounted exactly when it is due and no configured sink is owed
      it any more, as after a change of the configured sinks. */
  lemma VanishesIff(settings: Settings, item: Item, force: bool, now: real, fate: Fate)
    ensures OutcomeOf(settings, item, force, now, fate) == Vanished <==>
      (force || item.nextRetryAt <= now) && Due(settings.sinks, item.lastError) == {}
  {
    FailuresSinks(Due(settings.sinks, item.lastError), fate);
  }

  /** A webhook failure, after which only OTLP is configured. */
  lemma VanishesAfterReconfiguration(settings: Settings, item: Item, now: real, fate: Fate)
    requires settings.sinks == {Otlp}
    requires item.lastError == ErrorText([Failure(Webhook, "timeout")])
    ensures OutcomeOf(settings, item, true, now, fate) == Vanished
  {
    OwedReadsBack([Failure(Webhook, "timeout")]);
    assert Webhook.Name() in NamesOwed(item.lastError);
    assert Otlp.Name() !in NamesOwed(item.lastError);
    VanishesIff(settings, item, true, now, fate);
  }

  // ----- steps

  datatype Step =
    | Enter(event: EventId, now: real)
    | Take(limit: int)
    | Send(index: nat, force: bool, now: real, at: real, fate: Fate)

  function Ids(items: seq<Item>): seq<EventId> {
    seq(|items|, i requires 0 <= i < |items| => items[i].event)
  }

  /** How many items must leave the front of a queue of `n` items. */
  function Excess(n: nat, size: nat): nat {
    if n > size then n - size else 0
  }

  function Append(settings: Settings, st: State, item: Item): State {
    var q := st.queue + [item];
    var drop := Excess(|q|, settings.Size());
    st.(queue := q[drop..], ledger := st.ledger.(evicted := st.ledger.evicted + multiset(Ids(q[..drop]))))
  }

  function Batch(limit: int, n: nat): nat {
    Min(if limit < 1 then 1 else limit, n)
  }

  function TakeStep(st: State, limit: int): State {
    var n := Batch(limit, |st.queue|);
    st.(queue := st.queue[n..], flight := st.flight + st.queue[..n])
  }

  function EnterStep(settings: Settings, st: State, event: EventId, now: real): State {
    if settings.sinks == {} || settings.Size() == 0 then st
    else
      var st' := st.(ledger := st.ledger.(entered := st.ledger.entered + multiset{event}));
      Append(settings, st', Item(event, 0, "", now))
  }

  function RecordSend(ledger: Ledger, event: EventId, ok: set<Sink>): Ledger {
    ledger.(
      sends := ledger.sends + multiset{event},
      accepted := ledger.accepted + multiset(set s | s in ok :: (event, s)))
  }

  /** The ledger after an attempt, before the outcome is counted. */
  function Sent(settings: Settings, l: Ledger, item: Item, fate: Fate): Ledger {
    RecordSend(l, item.event, Due(settings.sinks, item.lastError) - fate.Keys)
  }

  /** The item that goes back after a failed attempt. */
  function Again(settings: Settings, item: Item, at: real, fate: Fate): Item {
    var due, attempts := Due(settings.sinks, item.lastError), item.attempts + 1;
    Item(item.event, attempts, ErrorText(Failures(due, fate)), at + settings.Delay(attempts))
  }

  /** What becomes of an item that has been taken off the queue. */
  function SendItem(settings: Settings, st: State, item: Item, force: bool, now: real, at: real, fate: Fate): State {
    var l := Sent(settings, st.ledger, item, fate);
    match OutcomeOf(settings, item, force, now, fate)
    case Skipped => Requeue(settings, st, item)
    case Exhausted => st.(ledger := l.(exhausted := l.exhausted + multiset{item.event}))
    case Retried =>
      Requeue(settings, st.(ledger := l.(failedAt := l.failedAt[item.event := at])), Again(settings, item, at, fate))
    case Delivered => st.(ledger := l.(delivered := l.delivered + multiset{item.event}))
    case Vanished => st.(ledger := l.(vanished := l.vanished + multiset{item.event}))
  }

  function Requeue(settings: Settings, st: State, item: Item): State {
    if settings.Size() == 0 then st.(ledger := st.ledger.(vanished := st.ledger.vanished + multiset{item.event}))
    else Append(settings, st, item)
  }

  function Without(items: seq<Item>, i: nat): seq<Item>
    requires i < |items|
  {
    items[..i] + items[i + 1..]
  }

  /** One step; a step that is not possible changes nothing. Event ids are fresh. */
  function Next(settings: Settings, st: State, step: Step): State {
    match step
    case Enter(event, now) =>
      if event in st.ledger.entered then st else EnterStep(settings, st, event, now)
    case Take(limit) => TakeStep(st, limit)
    case Send(index, force, now, at, fate) =>
      if index >= |st.flight| then st
      else SendItem(settings, st.(flight := Without(st.flight, index)), st.flight[index], force, now, at, fate)
  }

  function Run(settings: Settings, st: State, steps: seq<Step>): State
    decreases |steps|
  {
    if steps == [] then st else Run(settings, Next(settings, st, steps[0]), steps[1..])
  }

  // ----- the invariant

  ghost function Waiting(st: State): seq<Item> {
    st.queue + st.flight
  }

  /** The configured sinks that have not accepted the event. */
  ghost function Missing(settings: Settings, ledger: Ledger, event: EventId): set<Sink> {
    set s | s in settings.sinks && ledger.accepted[(event, s)] == 0
  }

  /** The next attempt is due a full delay after the failure before it. */
  ghost predicate Spaced(settings: Settings, ledger: Ledger, item: Item) {
    && item.event in ledger.failedAt
    && item.nextRetryAt == ledger.failedAt[item.event] + settings.Delay(item.attempts)
  }

  ghost predicate ItemOk(settings: Settings, ledger: Ledger, item: Item) {
    && item.attempts < settings.Attempts()
    && ledger.sends[item.event] == item.attempts
    && Due(settings.sinks, item.lastError) == Missing(settings, ledger, item.event)
    && Missing(settings, ledger, item.event) != {}
    && (item.attempts > 0 ==> Spaced(settings, ledger, item))
  }

  /** Every event that entered is in exactly one place, `waiting` being those still open. */
  ghost predicate Balanced(l: Ledger, waiting: multiset<EventId>) {
    && l.entered == waiting + l.delivered + l.exhausted + l.evicted
    && l.vanished == multiset{}
    && forall e :: l.entered[e] <= 1
  }

  ghost predicate WaitingOk(settings: Settings, st: State) {
    forall item :: item in Waiting(st) ==> ItemOk(settings, st.ledger, item)
  }

  ghost predicate LedgerOk(settings: Settings, l: Ledger) {
    && (forall e, s :: l.accepted[(e, s)] <= 1 && (l.accepted[(e, s)] > 0 ==> s in settings.sinks && e in l.entered))
    && (forall e :: l.sends[e] <= settings.Attempts() && (l.sends[e] > 0 ==> e in l.entered))
    && (forall e :: e in l.delivered ==> Missing(settings, l, e) == {})
    && (forall e :: e in l.exhausted ==> Missing(settings, l, e) != {})
    && (settings.workerEnabled ==> forall e :: e in l.exhausted ==> l.sends[e] == settings.Attempts())
  }

  ghost predicate Inv(settings: Settings, st: State) {
    && |st.queue| <= settings.Size()
    && (settings.Size() == 0 || settings.sinks == {} ==> Waiting(st) == [])
    && Balanced(st.ledger, multiset(Ids(Waiting(st))))
    && WaitingOk(settings, st)
    && LedgerOk(settings, st.ledger)
  }

  lemma IdsConcat(a: seq<Item>, b: seq<Item>)
    ensures Ids(a + b) == Ids(a) + Ids(b)
  {
  }

  lemma WithoutOne(items: seq<Item>, i: nat)
    requires i < |items|
    ensures multiset(Ids(items)) == multiset(Ids(Without(items, i))) + multiset{items[i].event}
  {
    assert items == items[..i] + [items[i]] + items[i + 1..];
    IdsConcat(items[..i] + [items[i]], items[i + 1..]);
    IdsConcat(items[..i], [items[i]]);
    IdsConcat(items[..i], items[i + 1..]);
  }

  lemma IdOf(items: seq<Item>, item: Item)
    requires item in items
    ensures item.event in multiset(Ids(items))
  {
    var i :| 0 <= i < |items| && items[i] == item;
    assert Ids(items)[i] == item.event;
  }

  // ----- preservation

  /** The invariant while one item is held outside the queue and the batch. */
  ghost predicate Held(settings: Settings, st: State, item: Item) {
    && |st.queue| <= settings.Size() && settings.Size() > 0 && settings.sinks != {}
    && Balanced(st.ledger, multiset(Ids(Waiting(st))) + multiset{item.event})
    && WaitingOk(settings, st)
    && LedgerOk(settings, st.ledger)
  }

  ghost predicate SameHistory(l: Ledger, l': Ledger) {
    && l.entered == l'.entered && l.delivered == l'.delivered && l.exhausted == l'.exhausted
    && l.sends == l'.sends && l.accepted == l'.accepted && l.failedAt == l'.failedAt
  }

  lemma HistoryFrame(settings: Settings, l: Ledger, l': Ledger)
    requires SameHistory(l, l')
    ensures LedgerOk(settings, l) ==> LedgerOk(settings, l')
    ensures forall item :: ItemOk(settings, l, item) ==> ItemOk(settings, l', item)
  {
    assert forall e :: Missing(settings, l, e) == Missing(settings, l', e);
  }

  lemma Regroup(a: multiset<EventId>, b: multiset<EventId>, f: multiset<EventId>, q: multiset<EventId>,
                x: multiset<EventId>, ev: multiset<EventId>)
    requires a + b == q + x
    ensures (b + f) + (ev + a) == (q + f) + x + ev
  {
    forall e ensures ((b + f) + (ev + a))[e] == ((q + f) + x + ev)[e] {
      assert (a + b)[e] == (q + x)[e];
    }
  }

  /** What leaves the queue on an append is counted as evicted. */
  lemma AppendConserves(settings: Settings, st: State, item: Item)
    ensures
      var st' := Append(settings, st, item);
      && multiset(Ids(Waiting(st'))) + st'.ledger.evicted == multiset(Ids(Waiting(st))) + multiset{item.event} + st.ledger.evicted
      && SameHistory(st.ledger, st'.ledger) && st'.ledger.vanished == st.ledger.vanished
      && |st'.queue| <= settings.Size()
      && (forall i :: i in Waiting(st') ==> i == item || i in Waiting(st))
  {
    var q := st.queue + [item];
    var drop := Excess(|q|, settings.Size());
    assert q == q[..drop] + q[drop..];
    IdsConcat(q[..drop], q[drop..]);
    IdsConcat(st.queue, [item]);
    assert Ids([item]) == [item.event];
    IdsConcat(st.queue, st.flight);
    IdsConcat(q[drop..], st.flight);
    assert Append(settings, st, item).ledger.evicted == st.ledger.evicted + multiset(Ids(q[..drop]));
    assert multiset(Ids(q)) == multiset(Ids(q[..drop])) + multiset(Ids(q[drop..]));
    assert multiset(Ids(q)) == multiset(Ids(st.queue)) + multiset{item.event};
    Regroup(multiset(Ids(q[..drop])), multiset(Ids(q[drop..])), multiset(Ids(st.flight)), multiset(Ids(st.queue)),
      multiset{item.event}, st.ledger.evicted);
    forall i | i in q[drop..] + st.flight ensures i == item || i in Waiting(st) {
      assert i in st.queue || i == item || i in st.flight;
    }
  }

  lemma AppendInv(settings: Settings, st: State, item: Item)
    requires Held(settings, st, item) && ItemOk(settings, st.ledger, item)
    ensures Inv(settings, Append(settings, st, item))
  {
    var st' := Append(settings, st, item);
    AppendConserves(settings, st, item);
    HistoryFrame(settings, st.ledger, st'.ledger);
    BalancedEvict(st.ledger, st'.ledger, multiset(Ids(Waiting(st))) + multiset{item.event}, multiset(Ids(Waiting(st'))));
    hide ItemOk, LedgerOk, Append, Balanced, Waiting, Ids;
  }

  lemma BalancedEvict(l: Ledger, l': Ledger, waiting: multiset<EventId>, waiting': multiset<EventId>)
    requires Balanced(l, waiting) && SameHistory(l, l') && l'.vanished == l.vanished
    requires waiting' + l'.evicted == waiting + l.evicted
    ensures Balanced(l', waiting')
  {
    forall e ensures l'.entered[e] == (waiting' + l'.delivered + l'.exhausted + l'.evicted)[e] {
      assert (waiting' + l'.evicted)[e] == (waiting + l.evicted)[e];
    }
    assert l'.entered == waiting' + l'.delivered + l'.exhausted + l'.evicted;
  }

  lemma EnterLedger(settings: Settings, l: Ledger, event: EventId)
    requires LedgerOk(settings, l) && event !in l.entered
    ensures
      var l' := l.(entered := l.entered + multiset{event});
      && LedgerOk(settings, l')
      && (forall i :: ItemOk(settings, l, i) ==> ItemOk(settings, l', i))
      && Missing(settings, l', event) == settings.sinks && l'.sends[event] == 0
  {
    var l' := l.(entered := l.entered + multiset{event});
    assert forall e :: Missing(settings, l', e) == Missing(settings, l, e);
    assert forall s :: l.accepted[(event, s)] == 0;
  }

  lemma NewItemOk(settings: Settings, l: Ledger, item: Item)
    requires Missing(settings, l, item.event) == settings.sinks != {} && l.sends[item.event] == 0
    requires item.attempts == 0 && item.lastError == ""
    ensures ItemOk(settings, l, item)
  {
    OwedReadsBack([]);
  }

  lemma EnterBalanced(l: Ledger, event: EventId, waiting: multiset<EventId>)
    requires Balanced(l, waiting) && event !in l.entered
    ensures Balanced(l.(entered := l.entered + multiset{event}), waiting + multiset{event})
  {
  }

  lemma EnterInv(settings: Settings, st: State, event: EventId, now: real)
    requires Inv(settings, st) && event !in st.ledger.entered
    ensures Inv(settings, EnterStep(settings, st, event, now))
  {
    if settings.sinks != {} && settings.Size() != 0 {
      var item, l' := Item(event, 0, "", now), st.ledger.(entered := st.ledger.entered + multiset{event});
      assert Waiting(st.(ledger := l')) == Waiting(st);
      assert EnterStep(settings, st, event, now) == Append(settings, st.(ledger := l'), item);
      hide ItemOk, LedgerOk, Balanced, Append, Waiting, Ids, EnterStep, Missing;
      EnterLedger(settings, st.ledger, event);
      NewItemOk(settings, l', item);
      EnterBalanced(st.ledger, event, multiset(Ids(Waiting(st))));
      AppendInv(settings, st.(ledger := l'), item);
    }
  }

  lemma TakeInv(settings: Settings, st: State, limit: int)
    requires Inv(settings, st)
    ensures Inv(settings, TakeStep(st, limit))
  {
    var n := Batch(limit, |st.queue|);
    var front, back := st.queue[..n], st.queue[n..];
    assert st.queue == front + back;
    IdsConcat(front, back);
    IdsConcat(st.queue, st.flight);
    IdsConcat(back, st.flight + front);
    IdsConcat(st.flight, front);
    forall i | i in back + (st.flight + front) ensures i in Waiting(st) {
    }
  }

  lemma TakeOut(settings: Settings, st: State, i: nat)
    requires Inv(settings, st) && i < |st.flight|
    ensures Held(settings, st.(flight := Without(st.flight, i)), st.flight[i])
    ensures ItemOk(settings, st.ledger, st.flight[i])
  {
    var rest := Without(st.flight, i);
    WithoutOne(st.flight, i);
    IdsConcat(st.queue, st.flight);
    IdsConcat(st.queue, rest);
    assert st.flight[i] in Waiting(st);
    forall j | j in st.queue + rest ensures j in Waiting(st) {
    }
  }

  /** A held item's event waits nowhere else and has not been settled. */
  lemma HeldAlone(settings: Settings, st: State, item: Item)
    requires Held(settings, st, item)
    ensures forall i :: i in Waiting(st) ==> i.event != item.event
    ensures item.event !in st.ledger.delivered && item.event !in st.ledger.exhausted
  {
    assert st.ledger.entered[item.event] <= 1;
    forall i | i in Waiting(st) ensures i.event != item.event {
      IdOf(Waiting(st), i);
    }
  }

  /** Sending adds to the counts of the sent event alone. */
  lemma RecordCounts(l: Ledger, event: EventId, ok: set<Sink>)
    ensures var l' := RecordSend(l, event, ok);
      && (forall e :: l'.sends[e] == l.sends[e] + if e == event then 1 else 0)
      && (forall e, s :: l'.accepted[(e, s)] == l.accepted[(e, s)] + if e == event && s in ok then 1 else 0)
  {
  }

  lemma MissingAfter(settings: Settings, l: Ledger, event: EventId, ok: set<Sink>)
    requires LedgerOk(settings, l)
    ensures var l' := RecordSend(l, event, ok);
      && Missing(settings, l', event) == Missing(settings, l, event) - ok
      && forall e :: e != event ==> Missing(settings, l', e) == Missing(settings, l, e)
  {
    RecordCounts(l, event, ok);
  }

  /** The ledger stays in order when a due, unsettled event is sent. */
  lemma RecordOk(settings: Settings, l: Ledger, event: EventId, ok: set<Sink>)
    requires LedgerOk(settings, l) && event in l.entered
    requires event !in l.delivered && event !in l.exhausted
    requires ok <= Missing(settings, l, event) && l.sends[event] < settings.Attempts()
    ensures LedgerOk(settings, RecordSend(l, event, ok))
  {
    RecordCounts(l, event, ok);
    MissingAfter(settings, l, event, ok);
  }

  lemma OthersOk(settings: Settings, st: State, item: Item, ok: set<Sink>, failedAt: map<EventId, real>)
    requires Held(settings, st, item)
    requires forall e :: e != item.event && e in st.ledger.failedAt ==> e in failedAt && failedAt[e] == st.ledger.failedAt[e]
    ensures
      forall i :: i in Waiting(st) ==> ItemOk(settings, RecordSend(st.ledger, item.event, ok).(failedAt := failedAt), i)
  {
    HeldAlone(settings, st, item);
    RecordCounts(st.ledger, item.event, ok);
    MissingAfter(settings, st.ledger, item.event, ok);
    var l' := RecordSend(st.ledger, item.event, ok).(failedAt := failedAt);
    forall i | i in Waiting(st) ensures ItemOk(settings, l', i) {
      assert ItemOk(settings, st.ledger, i);
      assert Missing(settings, l', i.event) == Missing(settings, RecordSend(st.ledger, item.event, ok), i.event);
    }
  }

  /** The error text written after a failed attempt names exactly the sinks that failed. */
  lemma DueAfterFailure(sinks: set<Sink>, due: set<Sink>, fate: Fate)
    requires due <= sinks && Failures(due, fate) != []
    ensures Due(sinks, ErrorText(Failures(due, fate))) == due * fate.Keys
  {
    var failures := Failures(due, fate);
    OwedReadsBack(failures);
    FailuresSinks(due, fate);
    var owed := NamesOwed(ErrorText(failures));
    assert failures[0].sink.Name() in owed;
    forall s | s in sinks && s.Name() in owed ensures s in due * fate.Keys {
      var f :| f in failures && f.sink.Name() == s.Name();
      NamesDistinct(f.sink, s);
      assert f.sink in set f | f in failures :: f.sink;
    }
    forall s | s in due * fate.Keys ensures s in sinks && s.Name() in owed {
      assert s in set f | f in failures :: f.sink;
    }
  }

  lemma RetriedOk(settings: Settings, l: Ledger, item: Item, at: real, fate: Fate)
    requires LedgerOk(settings, l) && ItemOk(settings, l, item)
    requires Failures(Due(settings.sinks, item.lastError), fate) != []
    requires item.attempts + 1 < settings.Attempts()
    ensures ItemOk(settings, Sent(settings, l, item, fate).(failedAt := l.failedAt[item.event := at]), Again(settings, item, at, fate))
  {
    var due := Due(settings.sinks, item.lastError);
    var ok := due - fate.Keys;
    var l' := Sent(settings, l, item, fate).(failedAt := l.failedAt[item.event := at]);
    RecordCounts(l, item.event, ok);
    MissingAfter(settings, l, item.event, ok);
    DueAfterFailure(settings.sinks, due, fate);
    FailuresSinks(due, fate);
    assert Failures(due, fate)[0].sink in due * fate.Keys;
    assert Missing(settings, l', item.event) == due - ok == due * fate.Keys;
  }

  lemma SendInv(settings: Settings, st: State, item: Item, force: bool, now: real, at: real, fate: Fate)
    requires Held(settings, st, item) && ItemOk(settings, st.ledger, item)
    ensures Inv(settings, SendItem(settings, st, item, force, now, at, fate))
    ensures OutcomeOf(settings, item, force, now, fate) != Vanished
  {
    VanishesIff(settings, item, force, now, fate);
    match OutcomeOf(settings, item, force, now, fate)
    case Skipped => AppendInv(settings, st, item);
    case Exhausted => ExhaustedInv(settings, st, item, force, now, at, fate);
    case Delivered => DeliveredInv(settings, st, item, force, now, at, fate);
    case Retried => RetriedInv(settings, st, item, force, now, at, fate);
    case Vanished =>
  }

  /** After an attempt everything but the event's own place is in order. */
  lemma SentInv(settings: Settings, st: State, item: Item, fate: Fate)
    requires Held(settings, st, item) && ItemOk(settings, st.ledger, item)
    ensures
      var l' := Sent(settings, st.ledger, item, fate);
      && LedgerOk(settings, l') && WaitingOk(settings, st.(ledger := l'))
      && Missing(settings, l', item.event) == Due(settings.sinks, item.lastError) * fate.Keys
      && l'.sends[item.event] == item.attempts + 1
  {
    var ok := Due(settings.sinks, item.lastError) - fate.Keys;
    HeldAlone(settings, st, item);
    RecordOk(settings, st.ledger, item.event, ok);
    MissingAfter(settings, st.ledger, item.event, ok);
    RecordCounts(st.ledger, item.event, ok);
    OthersOk(settings, st, item, ok, st.ledger.failedAt);
  }

  lemma BalancedSettle(settings: Settings, l: Ledger, waiting: multiset<EventId>, item: Item, fate: Fate)
    requires Balanced(l, waiting + multiset{item.event})
    ensures
      var l' := Sent(settings, l, item, fate);
      && Balanced(Counted(l', multiset{}, multiset{item.event}), waiting)
      && Balanced(Counted(l', multiset{item.event}, multiset{}), waiting)
      && forall failedAt :: Balanced(l'.(failedAt := failedAt), waiting + multiset{item.event})
  {
  }

  /** Counting a sent event as settled restores the invariant. */
  lemma PlaceInv(settings: Settings, st: State, sent: Ledger, delivered: multiset<EventId>, exhausted: multiset<EventId>)
    requires |st.queue| <= settings.Size() && settings.Size() > 0 && settings.sinks != {}
    requires LedgerOk(settings, sent) && WaitingOk(settings, st.(ledger := sent))
    requires forall e :: e in delivered ==> Missing(settings, sent, e) == {}
    requires forall e :: e in exhausted ==> Missing(settings, sent, e) != {}
    requires settings.workerEnabled ==> forall e :: e in exhausted ==> sent.sends[e] == settings.Attempts()
    requires Balanced(Counted(sent, delivered, exhausted), multiset(Ids(Waiting(st))))
    ensures Inv(settings, st.(ledger := Counted(sent, delivered, exhausted)))
  {
    SettledFrame(settings, sent, delivered, exhausted);
    var st' := st.(ledger := Counted(sent, delivered, exhausted));
    hide ItemOk, LedgerOk, Balanced, Missing, Counted;
    assert Waiting(st') == Waiting(st.(ledger := sent)) == Waiting(st);
  }

  function Counted(l: Ledger, delivered: multiset<EventId>, exhausted: multiset<EventId>): Ledger {
    l.(delivered := l.delivered + delivered, exhausted := l.exhausted + exhausted)
  }

  lemma ExhaustedInv(settings: Settings, st: State, item: Item, force: bool, now: real, at: real, fate: Fate)
    requires Held(settings, st, item) && ItemOk(settings, st.ledger, item)
    requires OutcomeOf(settings, item, force, now, fate) == Exhausted
    ensures Inv(settings, SendItem(settings, st, item, force, now, at, fate))
  {
    ExhaustedStep(settings, st, item, force, now, at, fate);
    hide ItemOk, LedgerOk, WaitingOk, Balanced, OutcomeOf, Sent, Due, SendItem;
    SentInv(settings, st, item, fate);
    BalancedSettle(settings, st.ledger, multiset(Ids(Waiting(st))), item, fate);
    PlaceInv(settings, st, Sent(settings, st.ledger, item, fate), multiset{}, multiset{item.event});
  }

  lemma ExhaustedStep(settings: Settings, st: State, item: Item, force: bool, now: real, at: real, fate: Fate)
    requires OutcomeOf(settings, item, force, now, fate) == Exhausted && item.attempts < settings.Attempts()
    ensures Due(settings.sinks, item.lastError) * fate.Keys != {}
    ensures settings.workerEnabled ==> item.attempts + 1 == settings.Attempts()
    ensures SendItem(settings, st, item, force, now, at, fate) ==
      st.(ledger := Counted(Sent(settings, st.ledger, item, fate), multiset{}, multiset{item.event}))
  {
    var due := Due(settings.sinks, item.lastError);
    FailuresSinks(due, fate);
    assert Failures(due, fate)[0].sink in due * fate.Keys;
  }

  lemma DeliveredInv(settings: Settings, st: State, item: Item, force: bool, now: real, at: real, fate: Fate)
    requires Held(settings, st, item) && ItemOk(settings, st.ledger, item)
    requires OutcomeOf(settings, item, force, now, fate) == Delivered
    ensures Inv(settings, SendItem(settings, st, item, force, now, at, fate))
  {
    DeliveredStep(settings, st, item, force, now, at, fate);
    hide ItemOk, LedgerOk, WaitingOk, Balanced, OutcomeOf, Sent, Due, SendItem;
    SentInv(settings, st, item, fate);
    BalancedSettle(settings, st.ledger, multiset(Ids(Waiting(st))), item, fate);
    PlaceInv(settings, st, Sent(settings, st.ledger, item, fate), multiset{item.event}, multiset{});
  }

  lemma DeliveredStep(settings: Settings, st: State, item: Item, force: bool, now: real, at: real, fate: Fate)
    requires OutcomeOf(settings, item, force, now, fate) == Delivered
    ensures Due(settings.sinks, item.lastError) * fate.Keys == {}
    ensures SendItem(settings, st, item, force, now, at, fate) ==
      st.(ledger := Counted(Sent(settings, st.ledger, item, fate), multiset{item.event}, multiset{}))
  {
    FailuresSinks(Due(settings.sinks, item.lastError), fate);
  }

  lemma SettledFrame(settings: Settings, l: Ledger, delivered: multiset<EventId>, exhausted: multiset<EventId>)
    requires LedgerOk(settings, l)
    requires forall e :: e in delivered ==> Missing(settings, l, e) == {}
    requires forall e :: e in exhausted ==> Missing(settings, l, e) != {}
    requires settings.workerEnabled ==> forall e :: e in exhausted ==> l.sends[e] == settings.Attempts()
    ensures
      var l' := Counted(l, delivered, exhausted);
      && LedgerOk(settings, l')
      && forall item :: ItemOk(settings, l, item) ==> ItemOk(settings, l', item)
  {
    var l' := Counted(l, delivered, exhausted);
    assert forall e :: Missing(settings, l, e) == Missing(settings, l', e);
  }

  lemma RetriedInv(settings: Settings, st: State, item: Item, force: bool, now: real, at: real, fate: Fate)
    requires Held(settings, st, item) && ItemOk(settings, st.ledger, item)
    requires OutcomeOf(settings, item, force, now, fate) == Retried
    ensures Inv(settings, SendItem(settings, st, item, force, now, at, fate))
  {
    var sent, again := Sent(settings, st.ledger, item, fate), Again(settings, item, at, fate);
    var st' := st.(ledger := sent.(failedAt := sent.failedAt[item.event := at]));
    assert SendItem(settings, st, item, force, now, at, fate) == Append(settings, st', again);
    assert again.event == item.event;
    RetriedOk(settings, st.ledger, item, at, fate);
    hide ItemOk, Append, Balanced, OutcomeOf, RecordSend, Sent, Again, Due, SendItem, LedgerOk, Failures;
    RetriedWaiting(settings, st, item, at, fate);
    AppendInv(settings, st', again);
  }

  lemma RetriedWaiting(settings: Settings, st: State, item: Item, at: real, fate: Fate)
    requires Held(settings, st, item) && ItemOk(settings, st.ledger, item)
    ensures
      var sent := Sent(settings, st.ledger, item, fate);
      Held(settings, st.(ledger := sent.(failedAt := sent.failedAt[item.event := at])), item)
  {
    var sent, ok := Sent(settings, st.ledger, item, fate), Due(settings.sinks, item.lastError) - fate.Keys;
    var failedAt := sent.failedAt[item.event := at];
    assert sent == RecordSend(st.ledger, item.event, ok) && sent.failedAt == st.ledger.failedAt;
    hide ItemOk, Balanced, RecordSend, Sent, Due, LedgerOk;
    OthersOk(settings, st, item, ok, failedAt);
    SentInv(settings, st, item, fate);
    BalancedSettle(settings, st.ledger, multiset(Ids(Waiting(st))), item, fate);
    assert Waiting(st.(ledger := sent.(failedAt := failedAt))) == Waiting(st);
    FailedAtFrame(settings, sent, failedAt);
  }

  lemma FailedAtFrame(settings: Settings, l: Ledger, failedAt: map<EventId, real>)
    requires LedgerOk(settings, l)
    ensures LedgerOk(settings, l.(failedAt := failedAt))
  {
    var l' := l.(failedAt := failedAt);
    assert forall e :: Missing(settings, l', e) == Missing(settings, l, e);
  }

  lemma NextInv(settings: Settings, st: State, step: Step)
    requires Inv(settings, st)
    ensures Inv(settings, Next(settings, st, step))
  {
    match step
    case Enter(event, now) =>
      if event !in st.ledger.entered { EnterInv(settings, st, event, now); }
    case Take(limit) => TakeInv(settings, st, limit);
    case Send(index, force, now, at, fate) =>
      if index < |st.flight| {
        TakeOut(settings, st, index);
        SendInv(settings, st.(flight := Without(st.flight, index)), st.flight[index], force, now, at, fate);
      }
  }

  lemma {:induction false} RunInv(settings: Settings, st: State, steps: seq<Step>)
    requires Inv(settings, st)
    ensures Inv(settings, Run(settings, st, steps))
    decreases |steps|
  {
    if steps != [] {
      NextInv(settings, st, steps[0]);
      RunInv(settings, Next(settings, st, steps[0]), steps[1..]);
    }
  }

  // ----- what every run guarantees

  ghost function Reached(settings: Settings, steps: seq<Step>): State {
    Run(settings, EMPTY, steps)
  }

  lemma ReachedInv(settings: Settings, steps: seq<Step>)
    ensures Inv(settings, Reached(settings, steps))
  {
    RunInv(settings, EMPTY, steps);
  }

  /** Each sink accepts an event at most once, whatever fails and however steps interleave. */
  lemma AcceptedAtMostOnce(settings: Settings, steps: seq<Step>, event: EventId, sink: Sink)
    ensures Reached(settings, steps).ledger.accepted[(event, sink)] <= 1
  {
    ReachedInv(settings, steps);
  }

  /** An event counted as delivered was accepted exactly once by every configured sink,
      and by no other sink. */
  lemma DeliveredExactlyOnce(settings: Settings, steps: seq<Step>, event: EventId, sink: Sink)
    requires event in Reached(settings, steps).ledger.delivered
    ensures Reached(settings, steps).ledger.accepted[(event, sink)] == if sink in settings.sinks then 1 else 0
  {
    ReachedInv(settings, steps);
    var l := Reached(settings, steps).ledger;
    assert sink !in Missing(settings, l, event);
  }

  /** The sinks read back from a waiting item's text are those that have not accepted it. */
  lemma OwedIsMissing(settings: Settings, steps: seq<Step>, item: Item)
    requires item in Waiting(Reached(settings, steps))
    ensures Due(settings.sinks, item.lastError) == Missing(settings, Reached(settings, steps).ledger, item.event)
    ensures Due(settings.sinks, item.lastError) != {}
  {
    ReachedInv(settings, steps);
  }

  /** Every event that entered is in exactly one place; the queue is bounded, and an
      event is sent at most the configured number of times. */
  lemma EventsConserved(settings: Settings, steps: seq<Step>)
    ensures
      var st := Reached(settings, steps);
      && st.ledger.entered == multiset(Ids(st.queue)) + multiset(Ids(st.flight))
           + st.ledger.delivered + st.ledger.exhausted + st.ledger.evicted
      && (forall e :: st.ledger.entered[e] <= 1)
      && |st.queue| <= settings.Size()
      && forall e :: st.ledger.sends[e] <= settings.Attempts()
  {
    ReachedInv(settings, steps);
    var st := Reached(settings, steps);
    IdsConcat(st.queue, st.flight);
  }

  /** An unforced attempt on a retried item happens at least the delay after its last failure. */
  lemma RetriesSpaced(settings: Settings, steps: seq<Step>, item: Item, now: real, fate: Fate)
    requires item in Waiting(Reached(settings, steps)) && item.attempts > 0
    ensures
      var l := Reached(settings, steps).ledger;
      && item.event in l.failedAt
      && (OutcomeOf(settings, item, false, now, fate) != Skipped <==>
            now >= l.failedAt[item.event] + settings.Delay(item.attempts))
  {
    ReachedInv(settings, steps);
  }
}
