/**
 * The admin's report generator (src/components/admin/ReportGeneration.tsx):
 * a "Generate" button that starts a delayed generation, the report view the
 * timer reveals, and "Generate New Report" to go back.
 */
module ReportGeneration {

  /** The two state flags and the number of generation timers still to fire. */
  datatype State = State(isGenerating: bool, reportGenerated: bool, pendingTimers: nat)

  const Initial: State := State(false, false, 0)

  /** What the user can do, and the timer firing. */
  datatype Event = ClickGenerate | TimerFires | ClickGenerateNew

  /** The generate card is rendered while no report has been generated. */
  predicate ShowsGenerateCard(s: State)
  {
    !s.reportGenerated
  }

  /** Its button is rendered and enabled only while not generating. */
  predicate GenerateEnabled(s: State)
  {
    ShowsGenerateCard(s) && !s.isGenerating
  }

  /** One event; a click on a button that is hidden or disabled changes nothing. */
  function Step(s: State, e: Event): State
  {
    match e
    case ClickGenerate =>
      if GenerateEnabled(s) then s.(isGenerating := true, pendingTimers := s.pendingTimers + 1) else s
    case TimerFires =>
      if s.pendingTimers > 0 then State(false, true, s.pendingTimers - 1) else s
    case ClickGenerateNew =>
      if s.reportGenerated then s.(reportGenerated := false) else s
  }

  /** A sequence of events, first to last. */
  function Run(s: State, es: seq<Event>): State
    decreases |es|
  {
    if es == [] then s else Run(Step(s, es[0]), es[1..])
  }

  /**
   * At most one timer is ever pending, exactly while generating, and the
   * component never shows a finished report while it is generating.
   */
  predicate Invariant(s: State)
  {
    s.pendingTimers == (if s.isGenerating then 1 else 0) && !(s.isGenerating && s.reportGenerated)
  }

  lemma StepKeepsInvariant(s: State, e: Event)
    requires Invariant(s)
    ensures Invariant(Step(s, e))
  {
  }

  /** Whatever the user clicks and however the timer interleaves, the invariant holds. */
  lemma {:induction false} RunKeepsInvariant(s: State, es: seq<Event>)
    requires Invariant(s)
    ensures Invariant(Run(s, es))
    decreases |es|
  {
    if es != [] {
      StepKeepsInvariant(s, es[0]);
      RunKeepsInvariant(Step(s, es[0]), es[1..]);
    }
  }

  /** Clicks never finish a report: only the timer turns the report view on. */
  lemma OnlyTheTimerFinishes(s: State, e: Event)
    requires Invariant(s) && !s.reportGenerated && Step(s, e).reportGenerated
    ensures e == TimerFires && s.isGenerating
  {
  }

  /** Runs compose: running `a` then `b` is running `a + b`. */
  lemma {:induction false} RunConcat(s: State, a: seq<Event>, b: seq<Event>)
    ensures Run(s, a + b) == Run(Run(s, a), b)
    decreases |a|
  {
    if a != [] {
      assert (a + b)[0] == a[0] && (a + b)[1..] == a[1..] + b;
      RunConcat(Step(s, a[0]), a[1..], b);
    } else {
      assert a + b == b;
    }
  }

  /**
   * A full cycle: the click starts generating and disables the button, a
   * second click schedules nothing more, the timer shows the report, and
   * "Generate New Report" returns to the start.
   */
  lemma Cycle()
    ensures Run(Initial, [ClickGenerate]) == State(true, false, 1)
    ensures !GenerateEnabled(Run(Initial, [ClickGenerate]))
    ensures Run(Initial, [ClickGenerate, ClickGenerate]) == State(true, false, 1)
    ensures Run(Initial, [ClickGenerate, TimerFires]) == State(false, true, 0)
    ensures Run(Initial, [ClickGenerate, TimerFires, ClickGenerateNew]) == Initial
  {
  }

  /** Click, the timer, and "Generate New Report": one generation from start to start. */
  const FullCycle: seq<Event> := [ClickGenerate, TimerFires, ClickGenerateNew]

  /** `es` repeated `n` times. */
  function Repeat(es: seq<Event>, n: nat): (r: seq<Event>)
    ensures |r| == n * |es|
  {
    if n == 0 then [] else es + Repeat(es, n - 1)
  }

  /** The generator can be used any number of times: every full cycle ends where it began. */
  lemma {:induction false} CyclesReturnToStart(n: nat)
    ensures Run(Initial, Repeat(FullCycle, n)) == Initial
  {
    if n > 0 {
      Cycle();
      RunConcat(Initial, FullCycle, Repeat(FullCycle, n - 1));
      CyclesReturnToStart(n - 1);
    }
  }

  /** The component's state. */
  class Panel {
    var isGenerating: bool
    var reportGenerated: bool
    var pendingTimers: nat

    function Snapshot(): State
      reads this
    {
      State(isGenerating, reportGenerated, pendingTimers)
    }

    constructor()
      ensures Snapshot() == Initial
    {
      isGenerating := false;
      reportGenerated := false;
      pendingTimers := 0;
    }

    /** `handleGenerateReport`, from the button that is enabled only while idle. */
    method Generate()
      modifies this
      ensures Snapshot() == Step(old(Snapshot()), ClickGenerate)
    {
      if !reportGenerated && !isGenerating {
        isGenerating := true;
        pendingTimers := pendingTimers + 1;
      }
    }

    /** The two-second timer's callback. */
    method FireTimer()
      modifies this
      ensures Snapshot() == Step(old(Snapshot()), TimerFires)
    {
      if pendingTimers > 0 {
        isGenerating := false;
        reportGenerated := true;
        pendingTimers := pendingTimers - 1;
      }
    }

    /** "Generate New Report", shown with the report. */
    method GenerateNew()
      modifies this
      ensures Snapshot() == Step(old(Snapshot()), ClickGenerateNew)
    {
      if reportGenerated {
        reportGenerated := false;
      }
    }
  }

  /** Clicking twice before the timer fires still yields one report and no leftover timer. */
  method DoubleClick() returns (generating: bool, shown: bool, left: nat)
    ensures !generating && shown && left == 0
  {
    var p := new Panel();
    p.Generate();
    p.Generate();
    p.FireTimer();
    p.FireTimer();
    generating, shown, left := p.isGenerating, p.reportGenerated, p.pendingTimers;
  }
}
