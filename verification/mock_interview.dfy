/** The mock-interview page: three flags `isInterviewActive`, `isRecording`
    and `interviewComplete`, changed by start, toggle-recording, end and
    restart. Which card is rendered decides which buttons the user can press;
    the page itself has no audio capture and no remote calls. */
module MockInterview {

  /** The page's state variables. */
  datatype MockState = MockState(isInterviewActive: bool, isRecording: bool, interviewComplete: bool)

  /** The page's buttons. */
  datatype Action = Start | ToggleRecording | End | Restart

  /** The three cards the page can render. */
  datatype View = StartView | ActiveView | ReportView

  const Initial := MockState(false, false, false)

  /** `startInterview`: active, not complete; recording is left as it was. */
  function StartInterview(s: MockState): (r: MockState)
    ensures r.isInterviewActive && !r.interviewComplete
    ensures r.isRecording == s.isRecording
  {
    s.(isInterviewActive := true, interviewComplete := false)
  }

  /** `endInterview`: not active, not recording, complete. */
  function EndInterview(s: MockState): (r: MockState)
    ensures !r.isInterviewActive && !r.isRecording && r.interviewComplete
  {
    MockState(false, false, true)
  }

  /** `toggleRecording`: flips recording and nothing else. */
  function ToggleRecordingFlag(s: MockState): (r: MockState)
    ensures r.isRecording != s.isRecording
    ensures r.isInterviewActive == s.isInterviewActive
    ensures r.interviewComplete == s.interviewComplete
  {
    s.(isRecording := !s.isRecording)
  }

  /** The restart button: neither active nor complete, back to the start
      card; recording is left as it was. */
  function RestartInterview(s: MockState): (r: MockState)
    ensures !r.isInterviewActive && !r.interviewComplete
    ensures r.isRecording == s.isRecording
    ensures Rendered(r, StartView)
  {
    s.(isInterviewActive := false, interviewComplete := false)
  }

  /** The render condition of each card. */
  predicate Rendered(s: MockState, v: View) {
    match v
    case StartView => !s.isInterviewActive && !s.interviewComplete
    case ActiveView => s.isInterviewActive
    case ReportView => s.interviewComplete
  }

  /** The card that holds each button. */
  function CardOf(a: Action): View {
    match a
    case Start => StartView
    case ToggleRecording => ActiveView
    case End => ActiveView
    case Restart => ReportView
  }

  /** A button can be pressed only while its card is rendered. */
  predicate Offered(s: MockState, a: Action) {
    Rendered(s, CardOf(a))
  }

  /** In each consistent state the buttons on screen are those of its card:
      start on the start card; record/stop and end on the active card;
      restart on the report card. */
  lemma OfferedButtons(s: MockState)
    requires Consistent(s)
    ensures !s.isInterviewActive && !s.interviewComplete ==>
              forall a :: Offered(s, a) <==> a == Start
    ensures s.isInterviewActive ==>
              forall a :: Offered(s, a) <==> a == ToggleRecording || a == End
    ensures s.interviewComplete ==>
              forall a :: Offered(s, a) <==> a == Restart
  {
  }

  /** The flag combinations the page is meant to be in. */
  predicate Consistent(s: MockState) {
    !(s.isInterviewActive && s.interviewComplete)
    && (s.isRecording ==> s.isInterviewActive)
  }

  /** One button press; a press that is offered keeps the flags consistent. */
  function Apply(s: MockState, a: Action): (r: MockState)
    ensures Consistent(s) && Offered(s, a) ==> Consistent(r)
  {
    match a
    case Start => StartInterview(s)
    case ToggleRecording => ToggleRecordingFlag(s)
    case End => EndInterview(s)
    case Restart => RestartInterview(s)
  }

  /** A sequence of presses. */
  function Run(s: MockState, acts: seq<Action>): MockState
    decreases |acts|
  {
    if acts == [] then s else Run(Apply(s, acts[0]), acts[1..])
  }

  /** Every press of the sequence is on a rendered card when it happens. */
  predicate AllOffered(s: MockState, acts: seq<Action>)
    decreases |acts|
  {
    acts == [] || (Offered(s, acts[0]) && AllOffered(Apply(s, acts[0]), acts[1..]))
  }

  /** Pressing only rendered buttons keeps the flags consistent. */
  lemma {:induction false} OfferedRunStaysConsistent(s: MockState, acts: seq<Action>)
    requires Consistent(s) && AllOffered(s, acts)
    ensures Consistent(Run(s, acts))
    decreases |acts|
  {
    if acts != [] {
      OfferedRunStaysConsistent(Apply(s, acts[0]), acts[1..]);
    }
  }

  /** In every state reached from the initial one by pressing rendered
      buttons, the interview is never both active and complete, recording
      implies active, and exactly one card is rendered. */
  lemma ReachableStatesAreConsistent(acts: seq<Action>)
    requires AllOffered(Initial, acts)
    ensures var s := Run(Initial, acts);
            && !(s.isInterviewActive && s.interviewComplete)
            && (s.isRecording ==> s.isInterviewActive)
            && ExactlyOne(Rendered(s, StartView), Rendered(s, ActiveView), Rendered(s, ReportView))
  {
    OfferedRunStaysConsistent(Initial, acts);
  }

  predicate ExactlyOne(a: bool, b: bool, c: bool) {
    (a && !b && !c) || (!a && b && !c) || (!a && !b && c)
  }

  /** Exactly one card is rendered precisely when the interview is not both
      active and complete. */
  lemma ExactlyOneViewIff(s: MockState)
    ensures ExactlyOne(Rendered(s, StartView), Rendered(s, ActiveView), Rendered(s, ReportView))
            <==> !(s.isInterviewActive && s.interviewComplete)
  {
  }

  /** The consistent states are exactly four: idle, active, recording and
      report. */
  lemma ConsistentStates(s: MockState)
    ensures Consistent(s) <==>
              s in {MockState(false, false, false), MockState(true, false, false),
                    MockState(true, true, false), MockState(false, false, true)}
  {
  }

  /** Each consistent state is reached from the initial one by pressing
      rendered buttons, so consistency describes the reachable states exactly. */
  lemma ConsistentStatesAreReachable(s: MockState)
    requires Consistent(s)
    ensures exists acts :: AllOffered(Initial, acts) && Run(Initial, acts) == s
  {
    var idle := [];
    var active := [Start];
    var recording := [Start, ToggleRecording];
    var report := [Start, End];
    if s == Initial {
      assert AllOffered(Initial, idle) && Run(Initial, idle) == s;
    } else if s == MockState(true, false, false) {
      assert AllOffered(Initial, active) && Run(Initial, active) == s;
    } else if s == MockState(true, true, false) {
      assert AllOffered(Initial, recording) && Run(Initial, recording) == s;
    } else {
      assert AllOffered(Initial, report) && Run(Initial, report) == s;
    }
  }

  /** The render guard is what keeps the page consistent: the recording
      handler alone, pressed on the start card, would record with no
      interview running. */
  lemma UnrenderedToggleBreaksConsistency()
    ensures !Offered(Initial, ToggleRecording)
    ensures !Consistent(Apply(Initial, ToggleRecording))
  {
  }
}
