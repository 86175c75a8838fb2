/** The growing delay between attempts, and when its power of two is one that a float holds. */
module RetryDelays {
  import opened RetryQueue
  import opened SinkErrors

  lemma {:induction false} PowerGrows(n: nat, n': nat)
    requires n <= n'
    ensures Power(n) <= Power(n')
  {
    if n < n' { PowerGrows(n, n' - 1); }
  }

  lemma ScaledGrows(base: real, n: nat, n': nat)
    requires base >= 0.0 && n <= n'
    ensures base <= Scaled(base, n) <= Scaled(base, n')
  {
    PowerGrows(n, n');
    ScaleReal(base, 1.0, Power(n));
    ScaleReal(base, Power(n), Power(n'));
  }

  lemma ScaleReal(base: real, x: real, y: real)
    requires base >= 0.0 && x <= y
    ensures base * x <= base * y
  {
  }

  /** The delay grows with the attempts, starts at the base delay, and is capped. */
  lemma {:induction false} DelayGrows(settings: Settings, n: nat, n': nat)
    requires n <= n'
    ensures settings.Delay(0) == settings.Delay(1) == MaxReal(0.0, settings.baseDelay) <= settings.Delay(n)
    ensures settings.Delay(n) <= settings.Delay(n')
    ensures settings.Delay(n') <= MaxReal(MaxReal(0.0, settings.baseDelay), settings.maxDelay)
  {
    var k, k' := if n == 0 then 0 else n - 1, if n' == 0 then 0 else n' - 1;
    assert Scaled(MaxReal(0.0, settings.baseDelay), 0) == MaxReal(0.0, settings.baseDelay);
    hide Scaled;
    ScaledGrows(MaxReal(0.0, settings.baseDelay), k, k');
  }

  /** Each further failure doubles the delay, up to the cap. */
  lemma DelayDoubles(settings: Settings, n: nat)
    requires n > 0
    ensures settings.Delay(n + 1) ==
      MinReal(MaxReal(MaxReal(0.0, settings.baseDelay), settings.maxDelay), 2.0 * settings.Delay(n))
  {
    var base := MaxReal(0.0, settings.baseDelay);
    DoubleScaled(base, n - 1);
    hide Scaled;
  }

  lemma DoubleScaled(base: real, n: nat)
    ensures Scaled(base, n + 1) == 2.0 * Scaled(base, n)
  {
  }

  // ----- how many attempts a waiting item can have

  /** An item that failed waits only where retries are on. */
  ghost predicate OnlyRetried(settings: Settings, st: State) {
    forall item :: item in Waiting(st) && item.attempts > 0 ==> settings.workerEnabled
  }

  lemma AppendOnlyRetried(settings: Settings, st: State, item: Item)
    requires OnlyRetried(settings, st) && (item.attempts > 0 ==> settings.workerEnabled)
    ensures OnlyRetried(settings, Append(settings, st, item))
  {
    AppendConserves(settings, st, item);
    hide Append;
  }

  lemma SendOnlyRetried(settings: Settings, st: State, item: Item, force: bool, now: real, at: real, fate: Fate)
    requires OnlyRetried(settings, st) && (item.attempts > 0 ==> settings.workerEnabled)
    ensures OnlyRetried(settings, SendItem(settings, st, item, force, now, at, fate))
  {
    var l := Sent(settings, st.ledger, item, fate);
    var failed := st.(ledger := l.(failedAt := l.failedAt[item.event := at]));
    assert OnlyRetried(settings, failed);
    hide Append, Due, Failures, Again, Sent;
    match OutcomeOf(settings, item, force, now, fate)
    case Skipped => AppendOnlyRetried(settings, st, item);
    case Retried => AppendOnlyRetried(settings, failed, Again(settings, item, at, fate));
    case _ =>
  }

  lemma NextOnlyRetried(settings: Settings, st: State, step: Step)
    requires OnlyRetried(settings, st)
    ensures OnlyRetried(settings, Next(settings, st, step))
  {
    hide Append, SendItem;
    match step
    case Enter(event, now) =>
      var st' := st.(ledger := st.ledger.(entered := st.ledger.entered + multiset{event}));
      AppendOnlyRetried(settings, st', Item(event, 0, "", now));
    case Take(limit) =>
      var n := Batch(limit, |st.queue|);
      assert forall i :: i in st.queue[n..] + (st.flight + st.queue[..n]) ==> i in Waiting(st);
    case Send(index, force, now, at, fate) =>
      if index < |st.flight| {
        assert st.flight[index] in Waiting(st);
        SendOnlyRetried(settings, st.(flight := Without(st.flight, index)), st.flight[index], force, now, at, fate);
      }
  }

  lemma {:induction false} RunOnlyRetried(settings: Settings, st: State, steps: seq<Step>)
    requires OnlyRetried(settings, st)
    ensures OnlyRetried(settings, Run(settings, st, steps))
    decreases |steps|
  {
    hide OnlyRetried;
    if steps != [] {
      NextOnlyRetried(settings, st, steps[0]);
      RunOnlyRetried(settings, Next(settings, st, steps[0]), steps[1..]);
    }
  }

  /** An item waits alone after `n` attempts. */
  ghost predicate Alone(st: State, n: nat) {
    |st.queue| == 1 && st.flight == [] && st.queue[0].attempts == n
  }

  /** Every configured sink fails. */
  function AllFail(settings: Settings): Fate {
    map s | s in settings.sinks :: "timeout"
  }

  lemma AllFailRetried(settings: Settings, st: State, item: Item)
    requires Inv(settings, st) && item in Waiting(st) && item.attempts + 1 < settings.Attempts() && settings.workerEnabled
    ensures settings.Size() > 0 && OutcomeOf(settings, item, true, 0.0, AllFail(settings)) == Retried
  {
    var fate := AllFail(settings);
    var due := Due(settings.sinks, item.lastError);
    FailuresSinks(due, fate);
    assert ItemOk(settings, st.ledger, item);
    assert due * fate.Keys == due;
    hide Balanced, LedgerOk, Due, Failures;
  }

  lemma TakenAlone(settings: Settings, st: State, item: Item)
    requires st.queue == [item] && st.flight == []
    ensures Next(settings, st, Take(1)) == State([], [item], st.ledger)
  {
    assert Batch(1, 1) == 1;
  }

  lemma SentAlone(settings: Settings, l: Ledger, item: Item, fate: Fate)
    ensures Next(settings, State([], [item], l), Send(0, true, 0.0, 0.0, fate)) ==
      SendItem(settings, State([], [], l), item, true, 0.0, 0.0, fate)
  {
    hide SendItem;
    assert Without([item], 0) == [];
  }

  lemma RetriedAlone(settings: Settings, l: Ledger, item: Item, fate: Fate)
    requires settings.Size() > 0 && OutcomeOf(settings, item, true, 0.0, fate) == Retried
    ensures Alone(SendItem(settings, State([], [], l), item, true, 0.0, 0.0, fate), item.attempts + 1)
  {
    hide OutcomeOf, Sent, Due, Failures;
    assert Excess(1, settings.Size()) == 0;
    assert [] + [Again(settings, item, 0.0, fate)] == [Again(settings, item, 0.0, fate)];
  }

  /** The item is taken and fails once more. */
  lemma FailsAgain(settings: Settings, st: State, n: nat)
    requires Inv(settings, st) && Alone(st, n) && n + 1 < settings.Attempts() && settings.workerEnabled
    ensures
      var taken := Next(settings, st, Take(1));
      Alone(Next(settings, taken, Send(0, true, 0.0, 0.0, AllFail(settings))), n + 1)
  {
    var item, fate := st.queue[0], AllFail(settings);
    assert item in Waiting(st) && st.queue == [item];
    AllFailRetried(settings, st, item);
    TakenAlone(settings, st, item);
    hide Inv, OutcomeOf, AllFail, Next, SendItem;
    SentAlone(settings, st.ledger, item, fate);
    RetriedAlone(settings, st.ledger, item, fate);
  }

  lemma {:induction false} FailsTo(settings: Settings, st: State, n: nat, k: nat) returns (steps: seq<Step>)
    requires Inv(settings, st) && Alone(st, n) && n + k < settings.Attempts() && settings.workerEnabled
    ensures Alone(Run(settings, st, steps), n + k)
    decreases k
  {
    hide Inv, Alone, Next;
    if k == 0 {
      steps := [];
    } else {
      var take, send := Take(1), Send(0, true, 0.0, 0.0, AllFail(settings));
      var taken := Next(settings, st, take);
      FailsAgain(settings, st, n);
      NextInv(settings, st, take);
      NextInv(settings, taken, send);
      var rest := FailsTo(settings, Next(settings, taken, send), n + 1, k - 1);
      steps := [take] + ([send] + rest);
      assert steps[1..] == [send] + rest && ([send] + rest)[1..] == rest;
    }
  }

  /** In some run an item waits after `n` attempts. */
  ghost predicate WaitsAfter(settings: Settings, n: nat) {
    exists steps: seq<Step>, item :: item in Waiting(Reached(settings, steps)) && item.attempts >= n
  }

  lemma Reaches(settings: Settings, n: nat)
    requires 0 < n < settings.Attempts() && settings.workerEnabled && settings.sinks != {} && settings.Size() > 0
    ensures WaitsAfter(settings, n)
  {
    var enter := Enter(0, 0.0);
    var st := Next(settings, EMPTY, enter);
    assert Alone(st, 0);
    ReachedInv(settings, []);
    NextInv(settings, EMPTY, enter);
    hide Inv, Next;
    var rest := FailsTo(settings, st, 0, n);
    var steps := [enter] + rest;
    assert steps[1..] == rest;
    assert Run(settings, EMPTY, steps) == Run(settings, st, rest);
    assert Reached(settings, steps).queue[0] in Waiting(Reached(settings, steps));
  }

  /** An item can wait after `n` failed attempts exactly when events are queued, retries are on and
      more attempts than `n` are allowed. */
  lemma WaitsAfterIff(settings: Settings, n: nat)
    requires n > 0
    ensures WaitsAfter(settings, n) <==>
      n < settings.maxAttempts && settings.workerEnabled && settings.sinks != {} && settings.Size() > 0
  {
    if WaitsAfter(settings, n) {
      var steps, item :| item in Waiting(Reached(settings, steps)) && item.attempts >= n;
      ReachedInv(settings, steps);
      RunOnlyRetried(settings, EMPTY, steps);
    } else if n < settings.Attempts() && settings.workerEnabled && settings.sinks != {} && settings.Size() > 0 {
      Reaches(settings, n);
    }
  }

  /** The delay after this many attempts multiplies the base by 2^1024 or more, which no float holds. */
  predicate Overflows(attempts: nat) {
    attempts >= 1 && attempts - 1 >= 1024
  }

  /** Some run asks for such a delay exactly when more than 1025 attempts are allowed, retries are on
      and events are queued. */
  lemma DelaysOverflowIff(settings: Settings)
    ensures (exists steps: seq<Step>, item :: item in Waiting(Reached(settings, steps)) && Overflows(item.attempts)) <==>
      settings.maxAttempts > 1025 && settings.workerEnabled && settings.sinks != {} && settings.Size() > 0
  {
    hide Waiting, Reached;
    WaitsAfterIff(settings, 1025);
  }

  /** The default settings but for a maximum of 1026 attempts. */
  lemma DelayOverflowExample()
    ensures
      var settings := Settings({Webhook}, 100, 1026, true, 1.0, 60.0);
      exists steps: seq<Step>, item :: item in Waiting(Reached(settings, steps)) && Overflows(item.attempts)
  {
    hide Waiting, Reached;
    DelaysOverflowIff(Settings({Webhook}, 100, 1026, true, 1.0, 60.0));
  }
}
