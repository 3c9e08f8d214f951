/** The field registry: the switch from a question's type tag to the
    component that renders it, with a placeholder for every other tag. */
module FieldRegistry {
  import opened Prelude
  import opened CommonTypes

  /** The component chosen for a question. `Placeholder` is the fallback
      that names the unknown type. */
  datatype Renderer =
    | DateField | LegalField | NumberField | TextLongField | TextShortField
    | ChoiceBoolField | ChoiceCheckboxField | ChoiceDropDownField | ChoiceMultipleField
    | ChoicePictureField | ChoiceSingleField | FileAnyField | FileImageOrVideoField
    | InfoEmailField | InfoPhoneField | InfoUrlField | UserAddressField | UserDetailField
    | ScreenWelcomeField | ScreenStatementField | ScreenEndField
    | RatingRankField | RatingStarField | RatingZeroToTenField
    | Placeholder(tag: string)

  /** The question types the switch lists, in its order. */
  const ListedTags: seq<string> := [
    "DATE", "LEAGAL", "NUMBER", "TEXT_LONG", "TEXT_SHORT",
    "CHOICE_BOOL", "CHOICE_CHECKBOX", "CHOICE_DROPDOWN", "CHOICE_MULTIPLE",
    "CHOICE_PICTURE", "CHOICE_SINGLE", "FILE_ANY", "FILE_IMAGE_OR_VIDEO",
    "INFO_EMAIL", "INFO_PHONE", "INFO_URL", "USER_ADDRESS", "USER_DETAIL",
    "SCREEN_WELCOME", "SCREEN_STATEMENT", "SCREEN_END",
    "RATING_RANK", "RATING_STAR", "RATING_ZERO_TO_TEN"]

  /** The switch has a case for the tag. */
  predicate Listed(tag: string)
  {
    Placeholder(tag) != RendererFor(tag)
  }

  /** The tag a renderer is chosen for. */
  function TagOf(r: Renderer): string
  {
    match r
    case DateField => "DATE"
    case LegalField => "LEAGAL"
    case NumberField => "NUMBER"
    case TextLongField => "TEXT_LONG"
    case TextShortField => "TEXT_SHORT"
    case ChoiceBoolField => "CHOICE_BOOL"
    case ChoiceCheckboxField => "CHOICE_CHECKBOX"
    case ChoiceDropDownField => "CHOICE_DROPDOWN"
    case ChoiceMultipleField => "CHOICE_MULTIPLE"
    case ChoicePictureField => "CHOICE_PICTURE"
    case ChoiceSingleField => "CHOICE_SINGLE"
    case FileAnyField => "FILE_ANY"
    case FileImageOrVideoField => "FILE_IMAGE_OR_VIDEO"
    case InfoEmailField => "INFO_EMAIL"
    case InfoPhoneField => "INFO_PHONE"
    case InfoUrlField => "INFO_URL"
    case UserAddressField => "USER_ADDRESS"
    case UserDetailField => "USER_DETAIL"
    case ScreenWelcomeField => "SCREEN_WELCOME"
    case ScreenStatementField => "SCREEN_STATEMENT"
    case ScreenEndField => "SCREEN_END"
    case RatingRankField => "RATING_RANK"
    case RatingStarField => "RATING_STAR"
    case RatingZeroToTenField => "RATING_ZERO_TO_TEN"
    case Placeholder(t) => t
  }

  /** The switch over `question.type`. Every tag is mapped back by `TagOf`,
      so distinct tags get distinct renderers; a listed tag gets its own
      component and any other tag the placeholder naming it. */
  function RendererFor(tag: string): (r: Renderer)
    ensures TagOf(r) == tag
  {
    if tag == "DATE" then DateField
    else if tag == "LEAGAL" then LegalField
    else if tag == "NUMBER" then NumberField
    else if tag == "TEXT_LONG" then TextLongField
    else if tag == "TEXT_SHORT" then TextShortField
    else if tag == "CHOICE_BOOL" then ChoiceBoolField
    else if tag == "CHOICE_CHECKBOX" then ChoiceCheckboxField
    else if tag == "CHOICE_DROPDOWN" then ChoiceDropDownField
    else if tag == "CHOICE_MULTIPLE" then ChoiceMultipleField
    else if tag == "CHOICE_PICTURE" then ChoicePictureField
    else if tag == "CHOICE_SINGLE" then ChoiceSingleField
    else if tag == "FILE_ANY" then FileAnyField
    else if tag == "FILE_IMAGE_OR_VIDEO" then FileImageOrVideoField
    else if tag == "INFO_EMAIL" then InfoEmailField
    else if tag == "INFO_PHONE" then InfoPhoneField
    else if tag == "INFO_URL" then InfoUrlField
    else if tag == "USER_ADDRESS" then UserAddressField
    else if tag == "USER_DETAIL" then UserDetailField
    else if tag == "SCREEN_WELCOME" then ScreenWelcomeField
    else if tag == "SCREEN_STATEMENT" then ScreenStatementField
    else if tag == "SCREEN_END" then ScreenEndField
    else if tag == "RATING_RANK" then RatingRankField
    else if tag == "RATING_STAR" then RatingStarField
    else if tag == "RATING_ZERO_TO_TEN" then RatingZeroToTenField
    else Placeholder(tag)
  }

  /** Distinct tags are rendered by distinct components. */
  lemma DistinctTagsDistinctRenderers(t1: string, t2: string)
    requires t1 != t2
    ensures RendererFor(t1) != RendererFor(t2)
  {
    assert TagOf(RendererFor(t1)) != TagOf(RendererFor(t2));
  }

  /** No tag is listed twice: the first quarter of the list ... */
  lemma ListedTagsDistinctFirst()
    ensures forall i, j :: 0 <= i < 6 && i < j < 24 ==> ListedTags[i] != ListedTags[j]
  {
  }

  /** ... the second quarter ... */
  lemma ListedTagsDistinctSecond()
    ensures forall i, j :: 6 <= i < 12 && i < j < 24 ==> ListedTags[i] != ListedTags[j]
  {
  }

  /** ... and the second half. */
  lemma ListedTagsDistinctLast()
    ensures forall i, j :: 12 <= i < j < 24 ==> ListedTags[i] != ListedTags[j]
  {
  }

  /** Each of the first twelve tags has its own component ... */
  lemma ListedTagsHandledFirst()
    ensures forall i :: 0 <= i < 12 ==> Listed(ListedTags[i])
  {
  }

  /** ... and so has each of the last twelve. */
  lemma ListedTagsHandledLast()
    ensures forall i :: 12 <= i < 24 ==> Listed(ListedTags[i])
  {
  }

  /** The switch lists 24 distinct tags, the screens among them, and
      each of them has its own component. */
  lemma ListedTagsFacts()
    ensures |ListedTags| == 24
    ensures forall i, j :: 0 <= i < j < |ListedTags| ==> ListedTags[i] != ListedTags[j]
    ensures forall t :: t in ListedTags ==> Listed(t)
    ensures "SCREEN_WELCOME" in ListedTags && "SCREEN_STATEMENT" in ListedTags && "SCREEN_END" in ListedTags
  {
    ListedTagsDistinctFirst();
    ListedTagsDistinctSecond();
    ListedTagsDistinctLast();
    ListedTagsHandledFirst();
    ListedTagsHandledLast();
    assert ListedTags[18] == "SCREEN_WELCOME";
    assert ListedTags[19] == "SCREEN_STATEMENT";
    assert ListedTags[20] == "SCREEN_END";
  }

  /** A tag gets its own component exactly when the switch lists it. */
  lemma ListedIffInSwitch(tag: string)
    ensures Listed(tag) <==> tag in ListedTags
  {
    ListedTagsFacts();
    if Listed(tag) {
      assert RendererFor(tag) != Placeholder(tag);
    }
  }

  /** A tag the switch does not list, such as the commented-out
      REDIRECT_TO_URL, gets the placeholder instead of failing. */
  lemma RedirectIsPlaceholder()
    ensures RendererFor("REDIRECT_TO_URL") == Placeholder("REDIRECT_TO_URL")
  {
  }

  /** The props a field receives. `value`, `onChange`, `onReset` and the
      form are opaque here; the error list is carried through. */
  datatype Props<V> = Props(question: Question, value: V, error: Option<seq<string>>)

  /** What `RenderFormField` returns: the chosen component with the props
      spread into it unchanged. */
  datatype Rendered<V> = Rendered(renderer: Renderer, props: Props<V>)

  function RenderFormField<V>(props: Props<V>): (r: Rendered<V>)
    ensures r.props == props
    ensures TagOf(r.renderer) == props.question.qtype
    ensures r.renderer.Placeholder? <==> !Listed(props.question.qtype)
  {
    Rendered(RendererFor(props.question.qtype), props)
  }

  /** The renderer depends on the question's type alone. */
  lemma RendererDependsOnTypeOnly<V>(p1: Props<V>, p2: Props<V>)
    requires p1.question.qtype == p2.question.qtype
    ensures RenderFormField(p1).renderer == RenderFormField(p2).renderer
  {
  }
}
