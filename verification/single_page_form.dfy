/** The form preview that lists every question on one page and keeps the
    answers and errors by question id. */
module SinglePageForm {
  import opened Prelude
  import opened CommonTypes
  import StepperForm

  /** What the page shows. */
  datatype View = NoFormFields | AllQuestions(questions: seq<Question>)

  class SinglePage {
    const questions: seq<Question>
    var dataSource: map<string, JsValue>
    var errors: map<string, seq<string>>

    /** The state after the mount effect: the form's questions as they are,
        screens included, with empty answer and error maps. */
    constructor (all: seq<Question>)
      ensures questions == all
      ensures dataSource == map[] && errors == map[]
    {
      questions := all;
      dataSource := map[];
      errors := map[];
    }

    /** "No Form Fields" exactly when there is no question; otherwise every
        question is rendered in order. */
    function CurrentView(): (v: View)
      reads this
      ensures v.NoFormFields? <==> |questions| == 0
      ensures v.AllQuestions? ==> v.questions == questions
    {
      if |questions| == 0 then NoFormFields else AllQuestions(questions)
    }

    /** `handleFieldChange`: the answer for `questionId` is set and its
        error entry, if there is one, reset to []. */
    method FieldChange(questionId: string, value: JsValue)
      modifies this
      ensures dataSource == StepperForm.WithAnswer(old(dataSource), questionId, value)
      ensures errors == StepperForm.ClearedError(old(errors), questionId)
    {
      dataSource := dataSource[questionId := value];
      if questionId in errors {
        errors := errors[questionId := []];
      }
    }

    /** Submitting only prevents the browser's default action. */
    method Submit()
      ensures unchanged(this)
    {
    }
  }

  /** A welcome screen the page lists is not a step of the stepper. */
  lemma StepperDropsWelcome(all: seq<Question>, q: Question)
    requires q in all && q.qtype == "SCREEN_WELCOME"
    ensures q !in StepperForm.Navigable(all)
  {
  }
}
