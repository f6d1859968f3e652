/** The question-bank navigator of the interview-preparation page: a question
    list, the index of the question on screen and whether its reference answer
    is shown, changed by generate, next, previous, regenerate and the answer
    toggle. */
module InterviewPrep {
  import opened Wrappers

  /** One question with its reference answer. */
  datatype QA = QA(question: string, answer: string)

  /** The page's state variables `questions`, `currentQuestion`, `showAnswer`. */
  datatype PrepState = PrepState(questions: seq<QA>, currentQuestion: int, showAnswer: bool)

  /** The page's buttons. */
  datatype Action = Generate | Next | Prev | Regenerate | ToggleAnswer

  const Initial := PrepState([], 0, false)

  /** The fixed list the generate button installs. */
  const MockQuestions: seq<QA> := [
    QA("请介绍一下您在前端开发方面的经验？",
       "您可以从技术栈、项目经历、解决的技术难题等方面来回答这个问题。"),
    QA("如何优化网页性能？",
       "可以从代码优化、资源压缩、缓存策略、图片优化等方面来讨论。"),
    QA("遇到技术难题时，您是如何解决的？",
       "可以分享具体的问题解决经历，体现您的技术思维和学习能力。")
  ]

  /** The index is a position of the list, or 0 when the list is empty. */
  predicate Valid(s: PrepState) {
    if |s.questions| == 0 then s.currentQuestion == 0
    else 0 <= s.currentQuestion < |s.questions|
  }

  /** `generateQuestions`: the three fixed questions, the first one on screen,
      its answer hidden, whatever the state before. */
  function GenerateQuestions(s: PrepState): (r: PrepState)
    ensures |r.questions| == 3 && r.questions == MockQuestions
    ensures r.currentQuestion == 0 && !r.showAnswer
    ensures Valid(r)
  {
    PrepState(MockQuestions, 0, false)
  }

  /** `nextQuestion`: moves one forward, hiding the answer, only when the
      index is below the last position; otherwise nothing changes. */
  function NextQuestion(s: PrepState): (r: PrepState)
    ensures r.questions == s.questions
    ensures s.currentQuestion < |s.questions| - 1 ==>
              r.currentQuestion == s.currentQuestion + 1 && !r.showAnswer
    ensures s.currentQuestion >= |s.questions| - 1 ==> r == s
    ensures Valid(s) ==> Valid(r)
  {
    if s.currentQuestion < |s.questions| - 1
    then s.(currentQuestion := s.currentQuestion + 1, showAnswer := false)
    else s
  }

  /** `prevQuestion`: moves one back, hiding the answer, only when the index
      is above 0; otherwise nothing changes. */
  function PrevQuestion(s: PrepState): (r: PrepState)
    ensures r.questions == s.questions
    ensures s.currentQuestion > 0 ==>
              r.currentQuestion == s.currentQuestion - 1 && !r.showAnswer
    ensures s.currentQuestion <= 0 ==> r == s
    ensures Valid(s) ==> Valid(r)
  {
    if s.currentQuestion > 0
    then s.(currentQuestion := s.currentQuestion - 1, showAnswer := false)
    else s
  }

  /** The regenerate button: the list emptied, the index back at 0, the
      answer hidden, so the page returns to its generate card. */
  function RegenerateQuestions(s: PrepState): (r: PrepState)
    ensures r.questions == [] && r.currentQuestion == 0 && !r.showAnswer
    ensures r == Initial
  {
    s.(questions := [], currentQuestion := 0, showAnswer := false)
  }

  /** The answer toggle: flips `showAnswer` and nothing else. */
  function ToggleAnswer(s: PrepState): (r: PrepState)
    ensures r.showAnswer != s.showAnswer
    ensures r.questions == s.questions && r.currentQuestion == s.currentQuestion
  {
    s.(showAnswer := !s.showAnswer)
  }

  /** One button press. Every handler keeps the index valid on its own, so
      no precondition on which button is on screen is needed. */
  function Apply(s: PrepState, a: Action): (r: PrepState)
    ensures Valid(s) ==> Valid(r)
  {
    match a
    case Generate => GenerateQuestions(s)
    case Next => NextQuestion(s)
    case Prev => PrevQuestion(s)
    case Regenerate => RegenerateQuestions(s)
    case ToggleAnswer => ToggleAnswer(s)
  }

  /** A sequence of button presses. */
  function Run(s: PrepState, acts: seq<Action>): PrepState
    decreases |acts|
  {
    if acts == [] then s else Run(Apply(s, acts[0]), acts[1..])
  }

  /** The index stays valid across any sequence of presses. */
  lemma {:induction false} RunPreservesValid(s: PrepState, acts: seq<Action>)
    requires Valid(s)
    ensures Valid(Run(s, acts))
    decreases |acts|
  {
    if acts != [] {
      RunPreservesValid(Apply(s, acts[0]), acts[1..]);
    }
  }

  /** The question the card shows, `questions[currentQuestion]?`. */
  function Shown(s: PrepState): (q: Option<QA>)
    ensures q.Some? <==> 0 <= s.currentQuestion < |s.questions|
    ensures q.Some? ==> q.value == s.questions[s.currentQuestion]
  {
    if 0 <= s.currentQuestion < |s.questions| then Some(s.questions[s.currentQuestion]) else None
  }

  /** In every state reached from the initial one, the question card, when
      it is on screen, shows the question at the current index and its counter
      `currentQuestion + 1 / length` lies between 1 and the length. */
  lemma ReachedCardShowsAQuestion(acts: seq<Action>)
    ensures var s := Run(Initial, acts);
            |s.questions| > 0 ==>
              && 1 <= s.currentQuestion + 1 <= |s.questions|
              && Shown(s) == Some(s.questions[s.currentQuestion])
  {
    RunPreservesValid(Initial, acts);
  }

  /** On the list card of a valid state, the previous button is enabled
      exactly when pressing it moves, and so is the next button. */
  lemma DisabledButtonsMatchGuards(s: PrepState)
    requires Valid(s) && |s.questions| > 0
    ensures !(s.currentQuestion == 0) <==> PrevQuestion(s) != s
    ensures !(s.currentQuestion == |s.questions| - 1) <==> NextQuestion(s) != s
  {
  }

  /** From a valid non-final index, next then previous returns to the same
      index and list with the answer hidden. */
  lemma NextThenPrev(s: PrepState)
    requires Valid(s) && s.currentQuestion < |s.questions| - 1
    ensures PrevQuestion(NextQuestion(s)) == s.(showAnswer := false)
  {
  }

  /** From a valid index above 0, previous then next returns to the same
      index and list with the answer hidden. */
  lemma PrevThenNext(s: PrepState)
    requires Valid(s) && s.currentQuestion > 0
    ensures NextQuestion(PrevQuestion(s)) == s.(showAnswer := false)
  {
  }

  /** Toggling twice restores the state. */
  lemma ToggleTwice(s: PrepState)
    ensures ToggleAnswer(ToggleAnswer(s)) == s
  {
  }
}
