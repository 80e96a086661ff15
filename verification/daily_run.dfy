/**
 * The daily run, `createDailyHabitEvent`: validate the configuration, stop if
 * today already has a tracking event, consume today's RESET and SKIP events,
 * resolve the counter, refuse a counter above the ceiling, then create the
 * `Day N – message` event and store the counter.
 */
module DailyRun {
  import opened Wrappers
  import opened Text
  import opened Sequences
  import opened Config
  import opened Messages
  import opened Counter
  import opened ControlEvents

  /** What the run reads and writes: today's events on the calendar and the stored counter. */
  datatype State = State(events: seq<Event>, stored: Option<nat>)

  /** Why a run stopped with an exception. */
  datatype RunError =
    | ConfigRejected(reason: ConfigError)
    | CounterOverflow(count: nat, limit: nat)

  /** The result object of the run, or the exception it threw. */
  datatype Outcome =
    | Created(dayCount: nat, title: string)
    | AlreadyExists(existingTitle: string)
    | Failed(error: RunError)

  /** The outcome of a run together with the state it leaves behind. */
  datatype Step = Step(outcome: Outcome, state: State)

  /** The duplicate guard: an all-day event whose title contains both "Day" and an en dash. */
  predicate IsTrackingEvent(e: Event) {
    e.allDay && Contains(e.title, "Day") && Contains(e.title, "–")
  }

  function Tracking(): Event -> bool {
    e => IsTrackingEvent(e)
  }

  /** A message as a template literal renders it: `undefined` when there is none. */
  function MessageText(message: Option<string>): string {
    message.GetOr("undefined")
  }

  /** The title of the tracking event for day `count`. */
  function Title(count: nat, message: Option<string>): (t: string)
    ensures IsPrefix("Day " + NatToString(count) + " – ", t)
    ensures t[|"Day " + NatToString(count) + " – "|..] == MessageText(message)
  {
    var head := "Day " + NatToString(count) + " – ";
    assert (head + MessageText(message))[..|head|] == head;
    head + MessageText(message)
  }

  /** The duplicate guard, position by position: "Day" and "–" each start somewhere in the title. */
  lemma {:induction false} TrackingEventIff(e: Event)
    ensures IsTrackingEvent(e) <==>
      e.allDay
      && (exists i | 0 <= i <= |e.title| :: IsPrefix("Day", e.title[i..]))
      && (exists j | 0 <= j <= |e.title| :: IsPrefix("–", e.title[j..]))
  {
    ContainsIff(e.title, "Day");
    ContainsIff(e.title, "–");
  }

  /** Every title the run builds passes the duplicate guard. */
  lemma TitleIsTracking(count: nat, message: Option<string>)
    ensures IsTrackingEvent(Event(Title(count, message), true))
  {
    var digits := NatToString(count);
    var t := Title(count, message);
    assert t[0..3] == "Day";
    ContainsAt(t, "Day", 0);
    var dash := 4 + |digits| + 1;
    assert t[dash..dash + 1] == "–";
    ContainsAt(t, "–", dash);
  }

  /** What the control-event stage of the run produced. */
  datatype ControlStage = ControlStage(events: seq<Event>, reset: bool, skip: bool)

  /**
   * The control-event stage: with event control enabled, both scans run (the
   * SKIP scan even after a RESET was found); otherwise nothing is scanned.
   */
  function ScanControls(enabled: bool, events: seq<Event>): (r: ControlStage)
    ensures !enabled ==> r == ControlStage(events, false, false)
    ensures enabled ==> (r.reset <==> exists i | 0 <= i < |events| :: IsControlEvent(events[i], Reset))
    ensures enabled ==> (r.skip <==> exists i | 0 <= i < |events| :: IsControlEvent(events[i], Skip))
    ensures forall e :: e in r.events <==>
              e in events && !(enabled && (IsControlEvent(e, Reset) || IsControlEvent(e, Skip)))
    ensures forall e :: multiset(r.events)[e] ==
              if enabled && (IsControlEvent(e, Reset) || IsControlEvent(e, Skip)) then 0 else multiset(events)[e]
  {
    if !enabled then ControlStage(events, false, false)
    else
      var resetScan := ProcessResetEvents(events);
      var skipScan := ProcessSkipEvents(resetScan.remaining);
      SkipScanUnaffectedByReset(events);
      ControlStage(skipScan.remaining, resetScan.found, skipScan.found)
  }

  /** The state after a successful run: the new tracking event added, the counter stored. */
  function Record(events: seq<Event>, count: nat, title: string): (s: State)
    ensures s.stored == Some(count)
    ensures |s.events| == |events| + 1
    ensures s.events[..|events|] == events && s.events[|events|] == Event(title, true)
  {
    var added := events + [Event(title, true)];
    assert added[..|events|] == events;
    State(added, Some(count))
  }

  /** No title the run builds is a RESET or SKIP title: it starts with "D". */
  lemma TitleIsNotControl(count: nat, message: Option<string>, m: Marker)
    ensures !IsControlEvent(Event(Title(count, message), true), m)
  {
    var t := Title(count, message);
    assert t[0] == 'D';
    TrimKeepsFirst(t);
    assert Upper(Trim(t))[0] == 'D';
  }

  /**
   * The run with an already validated configuration. The counter is resolved
   * from the configuration's override, the scans' results and the stored
   * value; the overflow check comes after the scans, so the control events
   * are already gone when it fails.
   */
  function Reconcile(c: Config, s: State): (r: Step)
    ensures r.outcome.AlreadyExists? <==> exists i | 0 <= i < |s.events| :: IsTrackingEvent(s.events[i])
    ensures r.outcome.AlreadyExists? ==> r.state == s
    ensures r.outcome.AlreadyExists? ==>
              |Filter(s.events, Tracking())| > 0 && r.outcome.existingTitle == Filter(s.events, Tracking())[0].title
    ensures r.outcome.Failed? ==> r.outcome.error.CounterOverflow?
    ensures r.outcome.Failed? ==> r.state == State(ScanControls(c.enableResetByEvent, s.events).events, s.stored)
    ensures r.outcome.Created? ==> r.outcome.dayCount <= c.maxCounterDays
    ensures r.outcome.Created? ==> r.state.stored == Some(r.outcome.dayCount)
    ensures r.outcome.Created? ==>
              r.outcome.title == Title(r.outcome.dayCount, GetHabitMessage(c.theme, c.customMessages, r.outcome.dayCount))
  {
    var existing := Filter(s.events, Tracking());
    FilterEmpty(s.events, Tracking());
    if |existing| > 0 then
      Step(AlreadyExists(existing[0].title), s)
    else
      var signals := ScanControls(c.enableResetByEvent, s.events);
      var count := DetermineCounter(c.manualCounter, signals.reset, signals.skip, s.stored);
      if count > c.maxCounterDays then
        Step(Failed(CounterOverflow(count, c.maxCounterDays)), State(signals.events, s.stored))
      else
        var title := Title(count, GetHabitMessage(c.theme, c.customMessages, count));
        Step(Created(count, title), Record(signals.events, count, title))
  }

  /** `createDailyHabitEvent`: validation first; a refused configuration touches nothing. */
  function CreateDailyHabitEvent(raw: RawConfig, s: State): (r: Step)
    ensures ValidateConfig(raw).Failure? ==> r == Step(Failed(ConfigRejected(ValidateConfig(raw).error)), s)
    ensures r.outcome.Created? ==> ValidateConfig(raw).Success?
    ensures ValidateConfig(raw).Success? ==> r == Reconcile(ValidateConfig(raw).value, s)
  {
    match ValidateConfig(raw)
    case Failure(e) => Step(Failed(ConfigRejected(e)), s)
    case Success(c) => Reconcile(c, s)
  }

  /** The counter a run resolves when today has no tracking event yet. */
  function ResolvedCount(c: Config, s: State): nat {
    var signals := ScanControls(c.enableResetByEvent, s.events);
    DetermineCounter(c.manualCounter, signals.reset, signals.skip, s.stored)
  }

  /** No tracking event today: a run creates one exactly when the resolved counter is within the ceiling, and fails otherwise. */
  lemma OverflowIff(c: Config, s: State)
    requires forall i | 0 <= i < |s.events| :: !IsTrackingEvent(s.events[i])
    ensures Reconcile(c, s).outcome.Created? <==> ResolvedCount(c, s) <= c.maxCounterDays
    ensures Reconcile(c, s).outcome.Failed? <==> ResolvedCount(c, s) > c.maxCounterDays
    ensures Reconcile(c, s).outcome.Failed? ==>
              Reconcile(c, s).state == State(ScanControls(c.enableResetByEvent, s.events).events, s.stored)
    ensures Reconcile(c, s).outcome.Created? ==>
              && Reconcile(c, s).outcome.dayCount == ResolvedCount(c, s)
              && |Reconcile(c, s).state.events| == |ScanControls(c.enableResetByEvent, s.events).events| + 1
  {
  }

  /** Running again right after a run that created the event does nothing and reports that event. */
  lemma RerunIsNoOp(c: Config, s: State)
    requires Reconcile(c, s).outcome.Created?
    ensures Reconcile(c, Reconcile(c, s).state) == Step(AlreadyExists(Reconcile(c, s).outcome.title), Reconcile(c, s).state)
  {
    var r := Reconcile(c, s);
    CreatedIsOnlyTracking(c, s);
    assert Filter(r.state.events, Tracking())[0].title == r.outcome.title;
  }

  /** After a run that created the event, that event is the day's only tracking event. */
  lemma CreatedIsOnlyTracking(c: Config, s: State)
    requires Reconcile(c, s).outcome.Created?
    ensures Filter(Reconcile(c, s).state.events, Tracking()) == [Event(Reconcile(c, s).outcome.title, true)]
  {
    var r := Reconcile(c, s);
    var kept := ScanControls(c.enableResetByEvent, s.events).events;
    assert forall j | 0 <= j < |s.events| :: !IsTrackingEvent(s.events[j]);
    NoTrackingYet(c, s);
    ScanKeepsNoTracking(c.enableResetByEvent, s.events);
    TitleIsTracking(r.outcome.dayCount, GetHabitMessage(c.theme, c.customMessages, r.outcome.dayCount));
    FilterSnoc(kept, Event(r.outcome.title, true), Tracking());
  }

  /** The scans only delete events, so a day without tracking events keeps having none. */
  lemma ScanKeepsNoTracking(enabled: bool, events: seq<Event>)
    requires forall j | 0 <= j < |events| :: !IsTrackingEvent(events[j])
    ensures Filter(ScanControls(enabled, events).events, Tracking()) == []
  {
    var kept := ScanControls(enabled, events).events;
    forall i | 0 <= i < |kept| ensures !IsTrackingEvent(kept[i]) {
      assert kept[i] in events;
    }
    FilterEmpty(kept, Tracking());
  }

  /** The same for the whole run from the raw configuration. */
  lemma DailyRunIdempotent(raw: RawConfig, s: State)
    requires CreateDailyHabitEvent(raw, s).outcome.Created?
    ensures var r := CreateDailyHabitEvent(raw, s);
            CreateDailyHabitEvent(raw, r.state) == Step(AlreadyExists(r.outcome.title), r.state)
  {
    RerunIsNoOp(ValidateConfig(raw).value, s);
  }

  /** A RESET event today restarts the streak at 1, whatever the stored counter and even beside a SKIP event. */
  lemma ResetRestartsStreak(c: Config, s: State, i: nat)
    requires Valid(c) && c.enableResetByEvent && c.manualCounter.None?
    requires forall j | 0 <= j < |s.events| :: !IsTrackingEvent(s.events[j])
    requires i < |s.events| && IsControlEvent(s.events[i], Reset)
    ensures Reconcile(c, s).outcome.Created? && Reconcile(c, s).outcome.dayCount == 1
    ensures Reconcile(c, s).state.stored == Some(1)
    ensures forall e | e in Reconcile(c, s).state.events :: !IsControlEvent(e, Reset)
  {
    var signals := ScanControls(c.enableResetByEvent, s.events);
    assert signals.reset;
    assert ResolvedCount(c, s) == 1;
    CreatedLeavesNoControl(c, s, Reset);
  }

  /** When a run creates the event, the day is left with what the control stage kept plus the new event. */
  lemma NoTrackingYet(c: Config, s: State)
    requires forall j | 0 <= j < |s.events| :: !IsTrackingEvent(s.events[j])
    ensures Reconcile(c, s).outcome.Created? ==>
              Reconcile(c, s).state.events
                == ScanControls(c.enableResetByEvent, s.events).events + [Event(Reconcile(c, s).outcome.title, true)]
  {
    FilterEmpty(s.events, Tracking());
  }

  /** With event control enabled, a run that creates the event leaves no control event behind. */
  lemma CreatedLeavesNoControl(c: Config, s: State, m: Marker)
    requires c.enableResetByEvent
    requires forall j | 0 <= j < |s.events| :: !IsTrackingEvent(s.events[j])
    requires ResolvedCount(c, s) <= c.maxCounterDays
    ensures Reconcile(c, s).outcome == Created(ResolvedCount(c, s), Reconcile(c, s).outcome.title)
    ensures forall e | e in Reconcile(c, s).state.events :: !IsControlEvent(e, m)
  {
    OverflowIff(c, s);
    NoTrackingYet(c, s);
    var count := ResolvedCount(c, s);
    var signals := ScanControls(c.enableResetByEvent, s.events);
    var r := Reconcile(c, s);
    FilterEmpty(s.events, Tracking());
    assert r.outcome.title == Title(count, GetHabitMessage(c.theme, c.customMessages, count));
    TitleIsNotControl(count, GetHabitMessage(c.theme, c.customMessages, count), m);
    forall e | e in r.state.events ensures !IsControlEvent(e, m) {
      if e in signals.events {
        assert !IsControlEvent(e, Reset) && !IsControlEvent(e, Skip);
      } else {
        assert e == Event(r.outcome.title, true);
      }
    }
  }

  /** A SKIP event without RESET keeps the stored counter (absent reads as 0) and is deleted. */
  lemma SkipKeepsCounter(c: Config, s: State, i: nat)
    requires Valid(c) && c.enableResetByEvent && c.manualCounter.None?
    requires forall j | 0 <= j < |s.events| :: !IsTrackingEvent(s.events[j]) && !IsControlEvent(s.events[j], Reset)
    requires i < |s.events| && IsControlEvent(s.events[i], Skip)
    requires StoredValue(s.stored) <= c.maxCounterDays
    ensures Reconcile(c, s).outcome.Created? && Reconcile(c, s).outcome.dayCount == StoredValue(s.stored)
    ensures forall e | e in Reconcile(c, s).state.events :: !IsControlEvent(e, Skip)
  {
    var signals := ScanControls(c.enableResetByEvent, s.events);
    assert signals.skip;
    assert !signals.reset;
    assert ResolvedCount(c, s) == StoredValue(s.stored);
    CreatedLeavesNoControl(c, s, Skip);
  }

  /** A manual counter within the ceiling is what the run records, whatever the calendar and the stored counter say. */
  lemma ManualCounterWins(c: Config, s: State)
    requires c.manualCounter.Some? && c.manualCounter.value <= c.maxCounterDays
    requires forall j | 0 <= j < |s.events| :: !IsTrackingEvent(s.events[j])
    ensures Reconcile(c, s).outcome.Created? && Reconcile(c, s).outcome.dayCount == c.manualCounter.value
    ensures Reconcile(c, s).state.stored == c.manualCounter
  {
  }

  /**
   * Day 0, reached with a manual counter of 0, gets no message from a pool of
   * more than one entry, and the title reads `Day 0 – undefined`.
   */
  lemma DayZeroTitle(c: Config, s: State)
    requires c.manualCounter == Some(0)
    requires |Pool(c.theme, c.customMessages)| != 1
    requires forall j | 0 <= j < |s.events| :: !IsTrackingEvent(s.events[j])
    ensures Reconcile(c, s).outcome == Created(0, "Day 0 – undefined")
  {
    DayZeroMessage(c.theme, c.customMessages);
    assert ResolvedCount(c, s) == 0;
    OverflowIff(c, s);
    UndefinedDayZeroTitle();
  }

  lemma UndefinedDayZeroTitle()
    ensures Title(0, None) == "Day 0 – undefined"
  {
    assert NatToString(0) == "0";
  }
}
