/** The one-question-at-a-time form: splitting the questions into welcome
    screen, end screen and navigable steps, the sign-in gate, step
    navigation, field changes, submission and reset. The session is an
    input to the operations that read it. */
module StepperForm {
  import opened Prelude
  import opened CommonTypes

  const WelcomeTag := "SCREEN_WELCOME"
  const EndTag := "SCREEN_END"

  predicate IsNavigable(q: Question)
  {
    q.qtype != WelcomeTag && q.qtype != EndTag
  }

  /** The steps: every question except welcome and end screens, in the
      original order. */
  function Navigable(all: seq<Question>): (r: seq<Question>)
    ensures forall q :: q in r <==> q in all && IsNavigable(q)
    ensures IsSubsequence(r, all)
    ensures |r| <= |all|
  {
    FilterIsSubsequence(all, IsNavigable);
    Filter(all, IsNavigable)
  }

  predicate IsWelcome(q: Question) { q.qtype == WelcomeTag }
  predicate IsEnd(q: Question) { q.qtype == EndTag }

  /** Sign-in is needed unless the form allows both repeated and
      anonymous submissions. */
  function RequiresAuth(multipleSubmissions: bool, allowAnonymous: bool): (r: bool)
    ensures r <==> !(multipleSubmissions && allowAnonymous)
  {
    !multipleSubmissions || !allowAnonymous
  }

  /** The step `handleNext` moves to: one further, but never past the last
      step; on the last step the index stays. */
  function StepAfterNext(step: int, total: nat): (r: int)
    ensures step == total - 1 ==> r == step
    ensures step != total - 1 && step + 1 <= total - 1 ==> r == step + 1
    ensures 0 <= step < total ==> 0 <= r < total && r >= step
  {
    if step == total - 1 then step else Min(step + 1, total - 1)
  }

  /** The step `handlePrevious` moves to: one back, never below 0; at step
      0 the index stays. */
  function StepAfterPrevious(step: int): (r: int)
    ensures step == 0 ==> r == 0
    ensures step > 0 ==> r == step - 1
    ensures step < 0 ==> r == 0
  {
    if step == 0 then step else Max(step - 1, 0)
  }

  function Min(a: int, b: int): int { if a < b then a else b }
  function Max(a: int, b: int): int { if a > b then a else b }

  /** `handleFieldChange` on the answer map: only `questionId` changes. */
  function WithAnswer(dataSource: map<string, JsValue>, questionId: string, value: JsValue): (r: map<string, JsValue>)
    ensures r.Keys == dataSource.Keys + {questionId} && r[questionId] == value
    ensures forall k :: k in dataSource && k != questionId ==> r[k] == dataSource[k]
  {
    dataSource[questionId := value]
  }

  /** `handleFieldChange` on the error map: an existing entry for the
      question is reset to [], a missing one stays missing, the others are
      untouched. */
  function ClearedError(errors: map<string, seq<string>>, questionId: string): (r: map<string, seq<string>>)
    ensures r.Keys == errors.Keys
    ensures questionId in errors ==> r[questionId] == []
    ensures forall k :: k in errors && k != questionId ==> r[k] == errors[k]
  {
    if questionId in errors then errors[questionId := []] else errors
  }

  /** What the stepper shows, in the order its conditions are tested. */
  datatype Screen =
    | SignInScreen(showBackButton: bool)
    | WelcomeScreen
    | EndScreen(canReset: bool)
    | NoFieldsScreen
    | StepScreen(step: int, showBack: bool, showSubmit: bool)

  class Stepper {
    const questions: seq<Question>
    const welcome: Option<Question>
    const end: Option<Question>
    const multipleSubmissions: bool
    const requiresAuth: bool

    var formStarted: bool
    var formCompleted: bool
    var pendingSubmit: bool
    var currentStep: int
    var direction: int
    var completedSteps: set<int>
    var dataSource: map<string, JsValue>
    var errors: map<string, seq<string>>

    /** The step index addresses a question whenever there is one. */
    predicate Valid()
      reads this
    {
      (|questions| > 0 ==> 0 <= currentStep < |questions|) &&
      (|questions| == 0 ==> currentStep == 0)
    }

    /** The state after the mount effect has split the questions: without
        a welcome screen the form is started at once. */
    constructor (all: seq<Question>, multipleSubmissions: bool, allowAnonymous: bool)
      ensures Valid()
      ensures questions == Navigable(all)
      ensures welcome == Find(all, IsWelcome) && end == Find(all, IsEnd)
      ensures this.multipleSubmissions == multipleSubmissions
      ensures requiresAuth == RequiresAuth(multipleSubmissions, allowAnonymous)
      ensures formStarted <==> welcome.None?
      ensures !formCompleted && !pendingSubmit
      ensures currentStep == 0 && direction == 0 && completedSteps == {}
      ensures dataSource == map[] && errors == map[]
    {
      questions := Navigable(all);
      welcome := Find(all, IsWelcome);
      end := Find(all, IsEnd);
      this.multipleSubmissions := multipleSubmissions;
      requiresAuth := RequiresAuth(multipleSubmissions, allowAnonymous);
      formStarted := Find(all, IsWelcome).None?;
      formCompleted := false;
      pendingSubmit := false;
      currentStep := 0;
      direction := 0;
      completedSteps := {};
      dataSource := map[];
      errors := map[];
    }

    /** The screen rendered for the current state and session. */
    function CurrentScreen(session: bool): (s: Screen)
      reads this
      ensures s.SignInScreen? <==> pendingSubmit && requiresAuth && !session
      ensures s.SignInScreen? ==> (s.showBackButton <==> welcome.Some?)
      ensures s == WelcomeScreen <==> !(pendingSubmit && requiresAuth && !session) && !formStarted && welcome.Some?
      ensures s.EndScreen? <==>
        !(pendingSubmit && requiresAuth && !session) && !(!formStarted && welcome.Some?) &&
        formCompleted && end.Some?
      ensures s.EndScreen? ==> s.canReset == multipleSubmissions
      ensures s == NoFieldsScreen <==>
        !(pendingSubmit && requiresAuth && !session) && !(!formStarted && welcome.Some?) &&
        !(formCompleted && end.Some?) && |questions| == 0
      ensures s.StepScreen? <==>
        !(pendingSubmit && requiresAuth && !session) && !(!formStarted && welcome.Some?) &&
        !(formCompleted && end.Some?) && |questions| > 0
      ensures s.StepScreen? ==>
        s.step == currentStep &&
        (s.showBack <==> currentStep != 0) && (s.showSubmit <==> currentStep == |questions| - 1)
    {
      if pendingSubmit && requiresAuth && !session then SignInScreen(welcome.Some?)
      else if !formStarted && welcome.Some? then WelcomeScreen
      else if formCompleted && end.Some? then EndScreen(multipleSubmissions)
      else if |questions| == 0 then NoFieldsScreen
      else StepScreen(currentStep, currentStep != 0, currentStep == |questions| - 1)
    }

    /** `handleStartForm`: signed out behind the gate, the start is parked
        as pending; otherwise the form starts. */
    method StartForm(session: bool)
      modifies this
      ensures requiresAuth && !session ==> pendingSubmit && formStarted == old(formStarted)
      ensures !(requiresAuth && !session) ==> formStarted && pendingSubmit == old(pendingSubmit)
      ensures formCompleted == old(formCompleted) && currentStep == old(currentStep) && direction == old(direction)
      ensures completedSteps == old(completedSteps) && dataSource == old(dataSource) && errors == old(errors)
    {
      if requiresAuth && !session {
        pendingSubmit := true;
        return;
      }
      formStarted := true;
    }

    /** The effect that resumes a parked start once a session exists. */
    method SessionChanged(session: bool)
      modifies this
      ensures old(pendingSubmit) && session && !old(formStarted) ==> formStarted && !pendingSubmit
      ensures !(old(pendingSubmit) && session && !old(formStarted)) ==>
        formStarted == old(formStarted) && pendingSubmit == old(pendingSubmit)
      ensures formCompleted == old(formCompleted) && currentStep == old(currentStep) && direction == old(direction)
      ensures completedSteps == old(completedSteps) && dataSource == old(dataSource) && errors == old(errors)
    {
      if pendingSubmit && session && !formStarted {
        formStarted := true;
        pendingSubmit := false;
      }
    }

    /** The sign-in screen's back button. */
    method CancelSignIn()
      modifies this
      ensures !pendingSubmit
      ensures formStarted == old(formStarted) && formCompleted == old(formCompleted)
      ensures currentStep == old(currentStep) && direction == old(direction)
      ensures completedSteps == old(completedSteps) && dataSource == old(dataSource) && errors == old(errors)
    {
      pendingSubmit := false;
    }

    /** `handleFieldChange`. */
    method FieldChange(questionId: string, value: JsValue)
      modifies this
      ensures dataSource == WithAnswer(old(dataSource), questionId, value)
      ensures errors == ClearedError(old(errors), questionId)
      ensures formStarted == old(formStarted) && formCompleted == old(formCompleted) && pendingSubmit == old(pendingSubmit)
      ensures currentStep == old(currentStep) && direction == old(direction) && completedSteps == old(completedSteps)
    {
      dataSource := dataSource[questionId := value];
      if questionId in errors {
        errors := errors[questionId := []];
      }
    }

    /** `validateCurrentStep` reads the current question (so a step must
        exist) and accepts every state. */
    function ValidateCurrentStep(): (ok: bool)
      reads this
      requires 0 <= currentStep < |questions|
      ensures ok
    {
      var question := questions[currentStep];
      var _ := if question.id in dataSource then dataSource[question.id] else Undefined;
      true
    }

    /** `handleNext`: never blocked; the step is marked completed and, unless
        it is the last, the form moves one step forward. */
    method Next()
      requires Valid() && 0 <= currentStep < |questions|
      modifies this
      ensures Valid()
      ensures completedSteps == old(completedSteps) + {old(currentStep)}
      ensures currentStep == StepAfterNext(old(currentStep), |questions|)
      ensures old(currentStep) != |questions| - 1 ==> direction == 1
      ensures old(currentStep) == |questions| - 1 ==> direction == old(direction)
      ensures formStarted == old(formStarted) && formCompleted == old(formCompleted) && pendingSubmit == old(pendingSubmit)
      ensures dataSource == old(dataSource) && errors == old(errors)
    {
      if ValidateCurrentStep() {
        completedSteps := completedSteps + {currentStep};
        if currentStep != |questions| - 1 {
          direction := 1;
          currentStep := Min(currentStep + 1, |questions| - 1);
        }
      }
    }

    /** `handlePrevious`: nothing at the first step, else one step back. */
    method Previous()
      requires Valid()
      modifies this
      ensures Valid()
      ensures currentStep == StepAfterPrevious(old(currentStep))
      ensures old(currentStep) != 0 ==> direction == -1
      ensures old(currentStep) == 0 ==> direction == old(direction)
      ensures completedSteps == old(completedSteps)
      ensures formStarted == old(formStarted) && formCompleted == old(formCompleted) && pendingSubmit == old(pendingSubmit)
      ensures dataSource == old(dataSource) && errors == old(errors)
    {
      if currentStep != 0 {
        direction := -1;
        currentStep := Max(currentStep - 1, 0);
      }
    }

    /** `handleSubmit` with `completeSubmission`: the step is marked
        completed, the form is completed and nothing pending remains. No
        answer is sent anywhere. */
    method Submit()
      requires Valid() && 0 <= currentStep < |questions|
      modifies this
      ensures Valid()
      ensures completedSteps == old(completedSteps) + {old(currentStep)}
      ensures formCompleted && !pendingSubmit
      ensures formStarted == old(formStarted) && currentStep == old(currentStep) && direction == old(direction)
      ensures dataSource == old(dataSource) && errors == old(errors)
    {
      if ValidateCurrentStep() {
        completedSteps := completedSteps + {currentStep};
        formCompleted := true;
        pendingSubmit := false;
      }
    }

    /** `handleResetForm`: answers, errors and progress are cleared; the
        welcome screen is shown again only when there is one. */
    method Reset()
      modifies this
      ensures Valid()
      ensures dataSource == map[] && errors == map[] && completedSteps == {}
      ensures currentStep == 0 && direction == 0 && !formCompleted
      ensures welcome.Some? ==> !formStarted
      ensures welcome.None? ==> formStarted == old(formStarted)
      ensures pendingSubmit == old(pendingSubmit)
    {
      dataSource := map[];
      errors := map[];
      currentStep := 0;
      direction := 0;
      completedSteps := {};
      formCompleted := false;
      if welcome.Some? {
        formStarted := false;
      }
    }
  }

  /** Starting while the gate applies and no session exists shows the
      sign-in screen, with a back button when there is a welcome screen;
      once a session appears the form is started, the gate is gone and an
      unfinished form with questions shows its current step. */
  method SignInFlow(s: Stepper) returns (gate: Screen, resumed: Screen)
    requires s.requiresAuth && !s.formStarted && !s.pendingSubmit
    modifies s
    ensures s.formStarted && !s.pendingSubmit
    ensures gate == SignInScreen(s.welcome.Some?)
    ensures !s.formCompleted && |s.questions| > 0 ==> resumed.StepScreen? && resumed.step == s.currentStep
  {
    s.StartForm(false);
    gate := s.CurrentScreen(false);
    assert !s.formStarted;
    s.SessionChanged(true);
    resumed := s.CurrentScreen(true);
  }

  /** Submitting the last answers of a started form shows the end screen,
      offering a reset exactly for forms that take several submissions;
      the reset then brings back the welcome screen. */
  method SubmitThenReset(s: Stepper, session: bool) returns (afterSubmit: Screen, afterReset: Screen)
    requires s.Valid() && 0 <= s.currentStep < |s.questions|
    requires s.formStarted && s.welcome.Some? && s.end.Some?
    modifies s
    ensures afterSubmit == EndScreen(s.multipleSubmissions)
    ensures afterReset == WelcomeScreen
  {
    s.Submit();
    afterSubmit := s.CurrentScreen(session);
    s.Reset();
    afterReset := s.CurrentScreen(session);
  }
}
