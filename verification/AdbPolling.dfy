/** How often the waiter calls: with calls that take no time, the clock never moves by more than an
    interval for each state call. */
module AdbPolling {
  import opened Collections
  import opened AdbTrace

  // ----- multiples of the interval

  /** `n` times `x`. */
  function Times(n: nat, x: real): real {
    if n == 0 then 0.0 else Times(n - 1, x) + x
  }

  lemma TimesStep(n: nat, x: real)
    requires n > 0
    ensures Times(n, x) == Times(n - 1, x) + x
  {
  }

  lemma {:induction false} TimesProduct(n: nat, x: real)
    ensures Times(n, x) == n as real * x
  {
    if n > 0 { TimesProduct(n - 1, x); }
  }

  lemma {:induction false} TimesGrows(n: nat, n': nat, x: real)
    requires n <= n' && x >= 0.0
    ensures Times(n, x) <= Times(n', x)
  {
    if n < n' { TimesGrows(n, n' - 1, x); }
  }

  // ----- the pace of a trace

  /** The last reading of the clock in the run, or its start, less an interval for each call before it. */
  ghost function Level(t: seq<Event>, from: nat, start: real, interval: real): real {
    if |t| <= from then start - Times(Gets(t), interval)
    else if t[|t| - 1].Read? then t[|t| - 1].time - Times(Gets(t), interval)
    else Level(t[..|t| - 1], from, start, interval)
  }

  /** From `from` on no reading of the clock is later than the one before it by more than an interval
      for each state call between them, and a state that is found is decided on at once or ends the
      trace. */
  ghost predicate Polls(t: seq<Event>, from: nat, start: real, interval: real) {
    |t| <= from ||
    var before, e := t[..|t| - 1], t[|t| - 1];
    && Polls(before, from, start, interval)
    && (e.Read? ==> e.time - Times(Gets(t), interval) <= Level(before, from, start, interval))
    && (|before| > from && AfterFound(before) ==> e.Read?)
  }

  /** After a sleep, after a call or a reading of the clock, or when a state may just have been found. */
  datatype Stage = Slept | Awake | Fresh

  /** The clock itself keeps the pace, a sleep counting for the call that comes next. */
  ghost predicate Keeps(t: seq<Event>, from: nat, start: real, interval: real, now: real, stage: Stage) {
    && from <= |t| && Polls(t, from, start, interval)
    && now - Times(Gets(t) + (if stage == Slept then 1 else 0), interval) <= Level(t, from, start, interval)
    && (stage != Fresh ==> |t| == from || !AfterFound(t))
  }

  /** What happened between two moments kept the pace. */
  ghost predicate PollsOn(t: seq<Event>, now: real, stage: Stage, t': seq<Event>, now': real, stage': Stage, interval: real) {
    forall from, start :: Keeps(t, from, start, interval, now, stage) ==> Keeps(t', from, start, interval, now', stage')
  }

  lemma PollsTwice(t: seq<Event>, now: real, stage: Stage, t': seq<Event>, now': real, stage': Stage,
                   t'': seq<Event>, now'': real, stage'': Stage, interval: real)
    requires PollsOn(t, now, stage, t', now', stage', interval) && PollsOn(t', now', stage', t'', now'', stage'', interval)
    ensures PollsOn(t, now, stage, t'', now'', stage'', interval)
  {
    hide Keeps;
  }

  lemma PollsSame(t: seq<Event>, now: real, stage: Stage, interval: real)
    ensures PollsOn(t, now, stage, t, now, stage, interval)
    ensures stage == Awake ==> PollsOn(t, now, stage, t, now, Fresh, interval)
  {
    hide Polls, Level, Times, Gets, AfterFound;
  }

  lemma PollsRest(t: seq<Event>, now: real, now': real, interval: real)
    requires now' <= now + interval
    ensures PollsOn(t, now, Awake, t, now', Slept, interval)
  {
    TimesStep(Gets(t) + 1, interval);
    hide Polls, Level, Times, Gets, AfterFound;
  }

  lemma KeepsGet(t: seq<Event>, from: nat, start: real, interval: real, now: real, stage: Stage, answer: Answer)
    requires Keeps(t, from, start, interval, now, stage) && stage != Fresh && interval >= 0.0
    ensures Keeps(t + [Got(answer)], from, start, interval, now, if answer.Found? then Fresh else Awake)
  {
    var t' := t + [Got(answer)];
    assert t'[..|t|] == t;
    TimesStep(Gets(t) + 1, interval);
    assert Gets(t') == Gets(t) + 1;
    assert Level(t', from, start, interval) == Level(t, from, start, interval);
    assert !answer.Found? ==> !AfterFound(t');
    hide Level, Times, Gets, AfterFound;
  }

  lemma KeepsRead(t: seq<Event>, from: nat, start: real, interval: real, now: real, stage: Stage)
    requires Keeps(t, from, start, interval, now, stage) && stage != Slept
    ensures Keeps(t + [Read(now)], from, start, interval, now, Awake)
  {
    var t' := t + [Read(now)];
    assert t'[..|t|] == t;
    assert Gets(t') == Gets(t) && !AfterFound(t');
    hide Times, Gets, AfterFound;
  }

  lemma KeepsStart(t: seq<Event>, from: nat, start: real, interval: real, now: real, failure: Option<Failure>)
    requires Keeps(t, from, start, interval, now, Awake)
    ensures Keeps(t + [Started(failure)], from, start, interval, now, Awake)
  {
    var t' := t + [Started(failure)];
    assert t'[..|t|] == t;
    assert Gets(t') == Gets(t) && !AfterFound(t');
    hide Times, Gets, AfterFound;
  }

  lemma PollsGet(t: seq<Event>, now: real, stage: Stage, answer: Answer, interval: real)
    requires stage != Fresh && interval >= 0.0
    ensures PollsOn(t, now, stage, t + [Got(answer)], now, if answer.Found? then Fresh else Awake, interval)
  {
    hide Keeps;
    forall from, start | Keeps(t, from, start, interval, now, stage)
      ensures Keeps(t + [Got(answer)], from, start, interval, now, if answer.Found? then Fresh else Awake)
    {
      KeepsGet(t, from, start, interval, now, stage, answer);
    }
  }

  lemma PollsRead(t: seq<Event>, now: real, stage: Stage, interval: real)
    requires stage != Slept
    ensures PollsOn(t, now, stage, t + [Read(now)], now, Awake, interval)
  {
    hide Keeps;
    forall from, start | Keeps(t, from, start, interval, now, stage)
      ensures Keeps(t + [Read(now)], from, start, interval, now, Awake)
    {
      KeepsRead(t, from, start, interval, now, stage);
    }
  }

  lemma PollsStart(t: seq<Event>, now: real, failure: Option<Failure>, interval: real)
    ensures PollsOn(t, now, Awake, t + [Started(failure)], now, Awake, interval)
  {
    hide Keeps;
    forall from, start | Keeps(t, from, start, interval, now, Awake)
      ensures Keeps(t + [Started(failure)], from, start, interval, now, Awake)
    {
      KeepsStart(t, from, start, interval, now, failure);
    }
  }

  /** A run that begins keeps the pace. */
  lemma KeepsNothing(t: seq<Event>, start: real, interval: real)
    requires interval >= 0.0
    ensures Keeps(t, |t|, start, interval, start, Slept)
  {
    TimesStep(Gets(t) + 1, interval);
    hide Times, Gets;
  }

  lemma PollsEnd(t: seq<Event>, now: real, stage: Stage, t': seq<Event>, now': real, interval: real)
    requires PollsOn(t, now, stage, t', now', Awake, interval)
    ensures PollsOn(t, now, stage, t', now', Fresh, interval)
  {
    PollsSame(t', now', Awake, interval);
    hide PollsOn;
    PollsTwice(t, now, stage, t', now', Awake, t', now', Fresh, interval);
  }

  lemma KeepsOn(t: seq<Event>, now: real, stage: Stage, t': seq<Event>, now': real, stage': Stage, interval: real, from: nat, start: real)
    requires PollsOn(t, now, stage, t', now', stage', interval) && Keeps(t, from, start, interval, now, stage)
    ensures Keeps(t', from, start, interval, now', stage')
  {
    hide Keeps;
  }
}
