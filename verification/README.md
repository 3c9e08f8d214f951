# escapeForm-response in Dafny

This project models the logic core of escapeForm's form-filling front end.
It is a Next.js application that shows a published form either one
question at a time (the stepper) or all on one page. Each question type
has a field component that validates its input, keeps a little local
state and reports answers upward through `onChange`. A few reusable
widgets sit beside the fields: a multi-select, a segmented switch, a date
picker and the landing page's mini form builder. On the server there are
envelope builders, a Prisma error mapper and the response and URL-preview
routes.

How the code becomes Dafny:

- **Pure logic** (validators, recognisers for the fixed regular
  expressions, slug and sanitise chains, envelope builders, the field
  registry) becomes functions with named results, plus lemmas.
- **Components that keep state** (the stepper, each field, each widget)
  become classes. Their fields are the component's `useState` variables.
- **Component operations**:
  - Each handler becomes a method with a `modifies` clause.
  - Each value-sync effect becomes a `ValueChanged` method.
  - A callback the component invokes is an `Emit` out-parameter: either
    not called, or called with this argument.
- **JavaScript semantics**:
  - Numbers are `real` and instants are `int` milliseconds.
  - Truthiness, `||` defaults, `Array.from({length})` and `new Date(n)`
    truncation are written out.
- **Parameters for what the code cannot see**:
  - Foreign checks (`new RegExp(metadata.pattern)`, `new URL`) and `fetch`
    become parameters.
  - The clock becomes a `now` parameter, and the session a `session`
    parameter.

Modules:

| file | module | models |
|---|---|---|
| prelude.dfy | Prelude | Option, Emit, JS white space / `trim`, `filter`, `find`, `join`, number text |
| common_types.dfy | CommonTypes | question records, metadata, JSON values, `createSuccessResponse`/`createErrorResponse` |
| constants.dfy | Constants | `COUNTRIES`, `REGEX.uuid`, `REGEX.email` |
| utils.dfy | Utils | `isValidUUID`, `isValidEmail`, `generateSlug`, `sanitizeInput` |
| api_response.dfy | ApiResponse | `lib/api-response.ts` |
| response_route.dfy | ResponseRoute | `app/api/response/route.ts` |
| url_preview.dfy | UrlPreview | `app/api/url-preview/route.ts` |
| field_registry.dfy | FieldRegistry | `RenderFormField` |
| stepper_form.dfy | StepperForm | `StapperForm` |
| single_page_form.dfy | SinglePageForm | `SinglePageForm` |
| text_short.dfy, text_long.dfy, number_field.dfy, date_field.dfy | TextShortField, TextLongField, NumberField, DateField | the basic fields |
| selection.dfy | Selection | what the choice fields share |
| choice_*.dfy | ChoiceMultipleField, ChoiceCheckboxField, ChoiceSingleField, ChoiceDropDownField, ChoicePictureField | the choice fields |
| rating_*.dfy | RatingStarField, RatingZeroToTenField, RatingRankField | the rating fields |
| info_email.dfy, info_phone.dfy, info_url.dfy, user_address.dfy | InfoEmailField, InfoPhoneField, InfoUrlField, UserAddressField | the contact fields |
| multi_select.dfy, switch_button.dfy, date_picker.dfy, playground.dfy | MultiSelectWidget, SwitchButtonWidget, DatePickerWidget, Playground | the widgets |

Three behaviours of the code worth knowing before reading the model:

- The date field's `validateDate(date)` checks `date || selectedDate`. So
  a required date can be cleared when the previously selected date is in
  range. Clearing is refused when nothing was selected before, or when the
  previous selection is itself out of range (the value prop sets the
  selection without validating it).
- The field registry's switch has 24 cases. REDIRECT_TO_URL is commented
  out and falls to the placeholder.
- The stepper never blocks on validation, because `validateCurrentStep`
  returns `true`.

## Model

| member | source | states |
|---|---|---|
| CommonTypes.NumberOf | types/common.ts:77-79 | a bound counts as a number exactly when it is a number (`typeof === 'number'`), zero included |
| CommonTypes.TruthyNumberOf | types/common.ts:77-79 | a bound counts for a truthiness test exactly when it is a non-zero number |
| CommonTypes.CreateSuccessResponse | types/common.ts:28-37 | the result is a success carrying the data and message unchanged |
| CommonTypes.CreateErrorResponse | types/common.ts:39-48 | the result is a failure carrying the error and message unchanged |
| Constants.CountryTable | constants/common.ts:3-24 | 20 countries with distinct codes and `+digits` dial codes without '-'; US comes first and CA second, both "+1" |
| Constants.UuidFromGroups | constants/common.ts:27 | five hex groups of 8-4-4-4-12 with version 1-5 and variant 8/9/a/b, joined by '-', match the UUID pattern |
| Constants.UuidToGroups | constants/common.ts:27 | every UUID match splits back into those five groups (round trip) |
| Constants.EmailFromParts | constants/common.ts:28 | local@host.tail, with each part non-empty and free of white space and '@', matches the email pattern |
| Constants.EmailToParts | constants/common.ts:28 | every match of the email pattern has that shape |
| Utils.IsValidUuid | lib/utils.ts:59-62 | the empty string is rejected; otherwise the result is the UUID match, and a match splits into its groups |
| Utils.IsValidEmail | lib/utils.ts:65-68 | accepted iff the text is local '@' host '.' tail with non-empty parts free of white space and '@' |
| Utils.EmailShapeIff | lib/utils.ts:65-68 | the recogniser and the parts description agree in both directions |
| Utils.Lower | lib/utils.ts:74 | `toLowerCase` keeps the length and lowers each ASCII capital |
| Utils.Collapse | lib/utils.ts:77 | no two dashes are adjacent, the result is no longer than the input, and it starts with '-' iff the input starts with a separator |
| Utils.CollapseKeepsText | lib/utils.ts:77 | the characters outside `[\s_-]` survive unchanged and in order, and the result holds exactly one '-' per maximal run of `[\s_-]` |
| Utils.StripDashes | lib/utils.ts:78 | leading and trailing dashes are removed; the result is an infix of the input |
| Utils.SlugIsSlug | lib/utils.ts:72-79 | the slug holds only lower-case letters, digits and single inner dashes |
| Utils.SlugIdempotent | lib/utils.ts:72-79 | applying `generateSlug` twice equals applying it once |
| Utils.SlugFixed | lib/utils.ts:72-79 | a text that is already a slug is its own slug |
| Utils.Sanitize | lib/utils.ts:83-88 | no '<' or '>', at most 1000 characters, and a prefix of the trimmed text without angle brackets |
| Utils.SanitizeKeepsInnerSpace | lib/utils.ts:84-86 | trimming comes first, so "< a" becomes " a" |
| ApiResponse.SentStatus | lib/api-response.ts:48-71 | an explicit status is sent; otherwise 200 |
| ApiResponse.GetSuccessResponse | lib/api-response.ts:32-43 | status 200, `success` true, data, message and total passed through |
| ApiResponse.GetErrorResponse | lib/api-response.ts:48-71 | `success` false and `totalItems` 0; without options the status is 400 with `isError`; with options `isError` is `!isWarning` and the data are the errors |
| ApiResponse.CreateValidationErrorResponse | lib/api-response.ts:77-88 | status 422, `isError` true, the errors as data, "Validation failed" by default |
| ApiResponse.WarningResponse | lib/api-response.ts:109-175 | the shared shape of the four warning builders: `isWarning` true, `isError` false, the message also as the data |
| ApiResponse.CreateForbiddenResponse | lib/api-response.ts:109-121 | a 403 warning, "Insufficient permissions" by default |
| ApiResponse.CreateNotFoundResponse | lib/api-response.ts:127-139 | a 404 warning, "Resource not found" by default |
| ApiResponse.CreateConflictResponse | lib/api-response.ts:145-157 | a 409 warning, "Resource already exists" by default |
| ApiResponse.CreateDatabaseErrorResponse | lib/api-response.ts:163-175 | a 500 warning, "Database operation failed" by default |
| ApiResponse.HandlePrismaError | lib/api-response.ts:181-213 | P2002 gives 409, P2025 gives 404, P2003 and P2014 give 422, anything else gives 500, each with its message; never a success |
| ApiResponse.Ceil | lib/api-response.ts:224 | `Math.ceil`: the least integer not below x |
| ApiResponse.TotalPages | lib/api-response.ts:224 | a page count exists iff the limit is non-zero; 0/0 is NaN |
| ApiResponse.TotalPagesCover | lib/api-response.ts:224 | with a positive limit the pages cover the total and one page fewer would not |
| ApiResponse.CreatePaginatedResponse | lib/api-response.ts:218-238 | a 200 success holding the items and `{page, limit, total, totalPages}` |
| ApiResponse.ValidateRequiredFields | lib/api-response.ts:243-256 | null iff no listed field is falsy or blank text; otherwise exactly the missing fields, each with "<field> is required" |
| ApiResponse.Classify | lib/api-response.ts:268-284 | each branch as an iff: the catch itself throws exactly for `null`/`undefined` or a truthy non-string code; otherwise a non-empty code starting with 'P' goes to the Prisma mapper; otherwise the name ValidationError decides between the validation and the generic answer |
| ApiResponse.WithErrorHandler | lib/api-response.ts:261-286 | a normal result passes through; a thrown value escapes the catch exactly when it is `null`/`undefined` or has a truthy non-string code; a Prisma error goes to the mapper; a validation error gives 422 carrying its truthy `errors` (else `{}`) and its truthy string `message` (else "Validation failed"); anything else gives a 400 (not 500) "An unexpected error occurred" |
| ApiResponse.ValidationErrorPayload | lib/api-response.ts:277-281 | a ValidationError with errors and a message answers 422 with exactly those errors and that message ("Validation failed" when empty); a bare one answers `{}` and "Validation failed" |
| ApiResponse.PrismaCodeWins | lib/api-response.ts:268-274 | a Prisma code is checked before the error name |
| ResponseRoute.OrElse | app/api/response/route.ts:16-17 | `x \|\| fallback` |
| ResponseRoute.CreateDto | app/api/response/route.ts:13-22 | the create record has exactly formId, notified=false, userId or null, partialSave or false, status, data, and both timestamps set to now |
| ResponseRoute.UpdateFields | app/api/response/route.ts:44-51 | the six columns every update sends, with `userId` and `partialSave` defaulted by `||` |
| ResponseRoute.UpdateDto | app/api/response/route.ts:44-55 | the update record has no formId or startedAt; submittedAt is present iff the status is COMPLETED |
| ResponseRoute.Written | app/api/response/route.ts:57-60 | the columns Prisma writes: exactly the update's keys whose value is not undefined, with those values |
| ResponseRoute.ApplyUpdate | app/api/response/route.ts:57-60 | columns with a value overwrite the stored ones; undefined columns and columns not sent keep their stored value; no column is lost |
| ResponseRoute.UpdateKeepsOrigin | app/api/response/route.ts:44-60 | an update never changes formId or startedAt, keeps the stored status and data when the body omits them, and resets a missing partialSave to false |
| ResponseRoute.Saved | app/api/response/route.ts:24-31 | a falsy store result gives the failure envelope, a truthy one the success envelope, and a throw passes on |
| ResponseRoute.Post | app/api/response/route.ts:9-32 | a body that is not JSON or is `null` throws before anything is sent and gets the generic answer; otherwise sends the create record and answers through the error handler |
| ResponseRoute.Put | app/api/response/route.ts:36-66 | a body that is not JSON or is `null` throws and gets the generic answer; without a truthy id nothing is sent and the answer is "Response ID is required for update"; otherwise the update record is sent for that id |
| ResponseRoute.MalformedBodyRejected | lib/apiHelpers.ts:3-10 | invalid JSON ("Invalid JSON in request body") and a `null` body (a TypeError on `body.formId`) reach neither store and both routes answer the generic 400 |
| ResponseRoute.PutWithoutIdRejected | app/api/response/route.ts:40-42 | a missing id is rejected with a 400 failure and nothing is stored |
| UrlPreview.MatchLength | app/api/url-preview/route.ts:104 | the entity `&[^;]+;` at the front, which ends at the first ';' |
| UrlPreview.Decode | app/api/url-preview/route.ts:94-105 | `decodeHtmlEntities` never lengthens the text |
| UrlPreview.DecodeWithoutAmpersand | app/api/url-preview/route.ts:104 | text without '&' is unchanged |
| UrlPreview.DecodeEntityFirst | app/api/url-preview/route.ts:94-104 | a leading `&…;` run is replaced by its table entry (or kept) and decoding continues after its `;` |
| UrlPreview.DecodeSinglePass | app/api/url-preview/route.ts:104 | one pass only: "&amp;" followed by any name and ";" gives "&" + name + ";", so "&amp;lt;" gives "&lt;" |
| UrlPreview.DecodeSpansToFirstSemicolon | app/api/url-preview/route.ts:104 | an unknown entity swallows the text up to the next ';' and is kept verbatim |
| UrlPreview.DecodeEscape | app/api/url-preview/route.ts:95-104 | decoding undoes escaping with the six known entities (round trip) |
| UrlPreview.Captured | app/api/url-preview/route.ts:47-48 | the attribute-first pattern wins over the content-first pattern |
| UrlPreview.FirstNonEmpty | app/api/url-preview/route.ts:87-89 | `a \|\| b \|\| ''`: the first non-empty candidate, or "" iff there is none |
| UrlPreview.ImageOf | app/api/url-preview/route.ts:57-60 | an image starting with "http" is kept; otherwise it is resolved against the page URL, which can throw |
| UrlPreview.SetIfMatched | app/api/url-preview/route.ts:49 | a match sets that key and nothing else |
| UrlPreview.SetIfUnset | app/api/url-preview/route.ts:65 | a match sets the key only when it is still empty |
| UrlPreview.Preferred | app/api/url-preview/route.ts:65-69 | an Open Graph value beats the Twitter value |
| UrlPreview.PreferredText | app/api/url-preview/route.ts:65-88 | the two-stage preference equals the first non-empty of Open Graph, Twitter, plain |
| UrlPreview.OpenGraphTags | app/api/url-preview/route.ts:44-60 | the Open Graph stage sets the url and og keys, or throws exactly when the og image cannot be resolved |
| UrlPreview.TwitterTags | app/api/url-preview/route.ts:63-76 | Twitter values fill only the og keys still empty |
| UrlPreview.PlainTags | app/api/url-preview/route.ts:78-84 | a matched plain title or description overwrites its key while the og entry is empty; otherwise the key keeps its entry; nothing else changes |
| UrlPreview.FinalEntries | app/api/url-preview/route.ts:86-89 | title and description become og value, else plain value, else ""; image becomes og image or ""; the url is kept |
| UrlPreview.PlainAndFinal | app/api/url-preview/route.ts:78-91 | title, description and image are always set, preferring og values, then plain tags, then "" |
| UrlPreview.ExtractMetadata | app/api/url-preview/route.ts:43-92 | title and description are the first non-empty of og, Twitter and plain; image is the chosen image or ""; the url is kept |
| UrlPreview.Get | app/api/url-preview/route.ts:3-41 | a missing url gives 400; a failed fetch or an unresolvable image gives 500 with the url; otherwise the metadata |
| FieldRegistry.RendererFor | components/form/RenderFormField.tsx:38-91 | the renderer is chosen by the type tag alone |
| FieldRegistry.DistinctTagsDistinctRenderers | components/form/RenderFormField.tsx:38-91 | different tags get different renderers |
| FieldRegistry.ListedTagsFacts | components/form/RenderFormField.tsx:39-86 | 24 distinct tags, the three screens among them |
| FieldRegistry.ListedIffInSwitch | components/form/RenderFormField.tsx:39-86 | a tag has its own component iff it is one of the 24 cases |
| FieldRegistry.RedirectIsPlaceholder | components/form/RenderFormField.tsx:87-91 | REDIRECT_TO_URL falls through to the placeholder |
| FieldRegistry.RenderFormField | components/form/RenderFormField.tsx:36-95 | the props pass through unchanged; the placeholder is shown iff the tag is not listed |
| FieldRegistry.RendererDependsOnTypeOnly | components/form/RenderFormField.tsx:38 | two questions of the same type get the same renderer |
| StepperForm.Navigable | components/form/StapperForm.tsx:76-78 | exactly the questions that are neither welcome nor end screens, in their original order |
| StepperForm.RequiresAuth | components/form/StapperForm.tsx:52 | sign-in is needed iff not both multiple submissions and anonymous answers are allowed |
| StepperForm.StepAfterNext | components/form/StapperForm.tsx:160-168 | the last step stays put; any other step moves forward by one, staying in range |
| StepperForm.StepAfterPrevious | components/form/StapperForm.tsx:170-175 | the first step stays put; any other step moves back by one |
| StepperForm.WithAnswer | components/form/StapperForm.tsx:139-143 | only the answered question's entry changes |
| StepperForm.ClearedError | components/form/StapperForm.tsx:145-150 | that question's errors are emptied and no other entry changes |
| StepperForm.Stepper.constructor | components/form/StapperForm.tsx:69-87 | navigable questions, the first welcome and end screens, and started iff there is no welcome screen |
| StepperForm.Stepper.CurrentScreen | components/form/StapperForm.tsx:267-320 | the sign-in screen iff a submit waits for a required session (back button iff there is a welcome screen); else the welcome screen iff not started; else the end screen iff completed (reset iff multiple submissions); else the empty-form notice iff no questions; else the current question with back iff not first and submit iff last |
| StepperForm.Stepper.StartForm | components/form/StapperForm.tsx:207-215 | without a session when one is required, only `pendingSubmit` is set; otherwise the form starts |
| StepperForm.Stepper.SessionChanged | components/form/StapperForm.tsx:217-222 | a session that arrives while sign-in is pending starts the form and clears the pending flag |
| StepperForm.Stepper.CancelSignIn | components/form/StapperForm.tsx:274 | the back button clears the pending flag |
| StepperForm.Stepper.FieldChange | components/form/StapperForm.tsx:139-151 | the answer is stored and that question's errors are cleared |
| StepperForm.Stepper.ValidateCurrentStep | components/form/StapperForm.tsx:153-158 | always true |
| StepperForm.Stepper.Next | components/form/StapperForm.tsx:160-168 | never blocked; records the step as completed and moves forward with direction 1 unless on the last step |
| StepperForm.Stepper.Previous | components/form/StapperForm.tsx:170-175 | moves back with direction -1 unless on the first step |
| StepperForm.Stepper.Submit | components/form/StapperForm.tsx:177-200 | records the step, completes the form and clears the pending flag |
| StepperForm.Stepper.Reset | components/form/StapperForm.tsx:224-238 | clears answers, errors, steps and completion; goes back to the welcome screen only when there is one |
| StepperForm.SignInFlow | components/form/StapperForm.tsx:207-222 | start without a session, then sign in: the sign-in screen is shown, and afterwards the form is started with nothing pending and an unfinished form shows its current question |
| StepperForm.SubmitThenReset | components/form/StapperForm.tsx:177-238 | submitting a started form shows the end screen (reset iff multiple submissions); resetting it brings back the welcome screen |
| SinglePageForm.SinglePage.constructor | components/form/SinglePageForm.tsx:19-23 | every question is shown, the screens included |
| SinglePageForm.SinglePage.CurrentView | components/form/SinglePageForm.tsx:41-56 | the empty-form notice iff there are no questions |
| SinglePageForm.SinglePage.FieldChange | components/form/SinglePageForm.tsx:25-38 | the same answer-map update as the stepper |
| SinglePageForm.SinglePage.Submit | components/form/SinglePageForm.tsx:64 | submitting only prevents the default and changes nothing |
| SinglePageForm.StepperDropsWelcome | components/form/SinglePageForm.tsx:19-23 | unlike the single page, the stepper never shows the welcome screen as a question |
| TextShortField.RuleErrors | components/form/fields/basic/TextShort.tsx:33-49 | too short iff below a truthy numeric min; too long iff above a truthy numeric max; bad format iff a non-empty pattern fails; in that order |
| TextShortField.FieldErrors | components/form/fields/basic/TextShort.tsx:25-53 | an empty required answer gets only the required message; an empty optional one gets nothing |
| TextShortField.ChangeErrors | components/form/fields/basic/TextShort.tsx:73-97 | typing never produces the required message, and clearing gives no message |
| TextShortField.LengthErrorsExclusive | components/form/fields/basic/TextShort.tsx:36-43 | with min at most max, too short and too long never appear together |
| TextShortField.ZeroBoundsIgnored | components/form/fields/basic/TextShort.tsx:36-43 | bounds of 0 are falsy and impose nothing |
| TextShortField.TextShort.ValidateField | components/form/fields/basic/TextShort.tsx:25-53 | shows `FieldErrors` and reports whether there are any |
| TextShortField.TextShort.NextClick | components/form/fields/basic/TextShort.tsx:55-62 | Next fires iff the answer passes; a failure shakes the field |
| TextShortField.TextShort.SubmitClick | components/form/fields/basic/TextShort.tsx:64-71 | submits iff the answer passes; a failure shakes the field |
| TextShortField.TextShort.ShakeEnded | components/form/fields/basic/TextShort.tsx:58 | the shake timer clears the flag |
| TextShortField.TextShort.InputChange | components/form/fields/basic/TextShort.tsx:73-97 | every edit is reported, then `ChangeErrors` is shown |
| TextShortField.TextShort.KeyDown | components/form/fields/basic/TextShort.tsx:99-105 | Enter without Shift acts as Next; any other key does nothing |
| TextShortField.TextShort.constructor | components/form/fields/basic/TextShort.tsx:20-21 | no messages and no shake |
| TextLongField.TextLong.constructor | components/form/fields/basic/TextLong.tsx:21 | the answer starts as "" whatever the value prop |
| TextLongField.TextLong.InputChange | components/form/fields/basic/TextLong.tsx:25-28 | as written: the new text is shown but the text before the edit is reported |
| TextLongField.TextLong.InputChangeReportingNew | components/form/fields/basic/TextLong.tsx:25-28 | as intended: the reported text is the shown text |
| TextLongField.TypingLagsOneEdit | components/form/fields/basic/TextLong.tsx:25-28 | typing "a" then "ab" reports "" then "a" while "ab" is shown |
| TextLongField.TypingReportsShownText | components/form/fields/basic/TextLong.tsx:25-28 | with the intended handler the last report equals the shown text after any edits |
| TextLongField.TextLong.NextClick | components/form/fields/basic/TextLong.tsx:105 | Next is never gated |
| NumberField.NumberInput.constructor | components/form/fields/basic/Number.tsx:20-21 | the answer is the initial text and there is no message |
| NumberField.DecimalInputFromParts | components/form/fields/basic/Number.tsx:65 | sign, digits, and an optional point with digits pass the `-?\d*\.?\d*` filter |
| NumberField.ParseDecimal | components/form/fields/basic/Number.tsx:38 | `parseFloat` gives NaN iff there are neither whole nor fraction digits; the sign follows the '-' |
| NumberField.NaNIffNoDigit | components/form/fields/basic/Number.tsx:38-41 | on accepted text, NaN exactly when the text holds no digit |
| NumberField.InvalidExactlyWithoutDigit | components/form/fields/basic/Number.tsx:33-41 | "Please enter a valid number" appears exactly for non-empty text without a digit |
| NumberField.ValidateNumber | components/form/fields/basic/Number.tsx:24-59 | empty is fine; numeric bounds count even when 0; each message is given exactly when the value breaks that inclusive bound |
| NumberField.RangeIsInclusive | components/form/fields/basic/Number.tsx:44-57 | no message iff the value lies within the bounds, bounds included |
| NumberField.Reported | components/form/fields/basic/Number.tsx:72-76 | a complete, valid number is reported; the empty text reports undefined; "-", "." and a trailing '.' report nothing |
| NumberField.NumberInput.InputChange | components/form/fields/basic/Number.tsx:61-78 | text the filter rejects changes nothing; accepted text becomes the answer, is validated and is reported as `Reported` says |
| NumberField.NumberInput.Blur | components/form/fields/basic/Number.tsx:80-86 | a non-empty answer is validated again |
| NumberField.NumberInput.NextClick | components/form/fields/basic/Number.tsx:153 | Next is never gated |
| DateField.DateInput.constructor | components/form/fields/basic/Date.tsx:21-25 | the selection is the value's instant, none for a falsy value; no messages and no shake |
| DateField.Trunc | components/form/fields/basic/Date.tsx:28-29 | `new Date(n)` truncates a valid time value toward zero |
| DateField.DateOf | components/form/fields/basic/Date.tsx:28-29 | a falsy bound (absent or 0) imposes nothing |
| DateField.RangeErrors | components/form/fields/basic/Date.tsx:47-61 | at most one message, none iff the date is within the inclusive bounds, worded by which bounds exist |
| DateField.DateErrors | components/form/fields/basic/Date.tsx:38-63 | as written: the date checked is `date \|\| selectedDate` |
| DateField.ChangeErrors | components/form/fields/basic/Date.tsx:38-63 | as intended: the new date alone is checked, so clearing a required date is refused |
| DateField.ClearingFallsBackToSelection | components/form/fields/basic/Date.tsx:40 | with an in-range selection, clearing a required date passes as written and fails as intended |
| DateField.DateInput.ValidateDate | components/form/fields/basic/Date.tsx:38-63 | shows `DateErrors` and reports whether there are any |
| DateField.DateInput.DateChange | components/form/fields/basic/Date.tsx:65-69 | a failing date leaves the selection and reports nothing; otherwise it is selected and reported |
| DateField.DateInput.DateChangeCheckingNewDate | components/form/fields/basic/Date.tsx:65-69 | the same with `ChangeErrors`: clearing a required date is never reported |
| DateField.DateInput.NextClick | components/form/fields/basic/Date.tsx:71-78 | Next fires iff the selection passes; a failure shakes the field |
| DateField.DateInput.SubmitClick | components/form/fields/basic/Date.tsx:80-87 | submits iff the selection passes |
| DateField.DateInput.ValueChanged | components/form/fields/basic/Date.tsx:31-36 | a truthy value becomes the selection, validated against the old one |
| Selection.LabelledOptions | components/form/fields/choice/ChoiceMultiple.tsx:34 | exactly the options with a non-blank label, in order |
| Selection.Without | components/form/fields/choice/ChoiceMultiple.tsx:52 | every occurrence of the value is removed and nothing else |
| Selection.WithoutKeepsDistinct | components/form/fields/choice/ChoiceMultiple.tsx:52 | removing keeps a duplicate-free selection duplicate-free |
| Selection.Cap | components/form/fields/choice/ChoiceMultiple.tsx:30 | the cap is a truthy numeric max |
| Selection.Toggle | components/form/fields/choice/ChoiceMultiple.tsx:47-64 | a selected value is removed; an unselected one is appended unless the cap is reached, in which case the toggle is refused |
| Selection.ToggleKeepsDistinct | components/form/fields/choice/ChoiceMultiple.tsx:47-64 | toggling keeps the selection duplicate-free |
| Selection.ToggleKeepsWithinCap | components/form/fields/choice/ChoiceMultiple.tsx:55-58 | a selection within an integral cap stays within it |
| Selection.NoCapNeverRefuses | components/form/fields/choice/ChoiceMultiple.tsx:55 | without a truthy numeric max nothing is refused |
| Selection.ToggleTwiceRestores | components/form/fields/choice/ChoiceMultiple.tsx:47-64 | toggling an absent value on and off restores the selection |
| Selection.Synced | components/form/fields/choice/ChoiceSingle.tsx:25-29 | a falsy value never overwrites the local selection |
| ChoiceMultipleField.ChoiceErrors | components/form/fields/choice/ChoiceMultiple.tsx:66-84 | required iff required and empty; too few and too many iff the truthy bounds are broken; in that order |
| ChoiceMultipleField.RequiredDoesNotStopMinimum | components/form/fields/choice/ChoiceMultiple.tsx:70-77 | an empty required selection with min 2 gets both the required and the minimum message |
| ChoiceMultipleField.ChoiceMultiple.constructor | components/form/fields/choice/ChoiceMultiple.tsx:23-38 | the selection is the array value or empty; the options are the labelled ones |
| ChoiceMultipleField.ChoiceMultiple.HandleToggle | components/form/fields/choice/ChoiceMultiple.tsx:47-64 | applies `Toggle`; a refused toggle changes and reports nothing |
| ChoiceMultipleField.ChoiceMultiple.ValidateField | components/form/fields/choice/ChoiceMultiple.tsx:66-84 | shows `ChoiceErrors` |
| ChoiceMultipleField.ChoiceMultiple.NextClick | components/form/fields/choice/ChoiceMultiple.tsx:86-93 | Next fires iff the selection passes |
| ChoiceMultipleField.ChoiceMultiple.SubmitClick | components/form/fields/choice/ChoiceMultiple.tsx:95-102 | submits iff the selection passes |
| ChoiceMultipleField.ChoiceMultiple.ValueChanged | components/form/fields/choice/ChoiceMultiple.tsx:41-45 | an array value replaces the selection |
| ChoiceMultipleField.ToggleSequence | components/form/fields/choice/ChoiceMultiple.tsx:47-64 | any sequence of toggles keeps the selection duplicate-free and within the cap |
| ChoiceCheckboxField.ChoiceCheckbox.constructor | components/form/fields/choice/ChoiceCheckbox.tsx:24-34 | the selection is the array value or empty |
| ChoiceCheckboxField.ChoiceCheckbox.HandleToggle | components/form/fields/choice/ChoiceCheckbox.tsx:42-59 | the same capped toggle as the multiple-choice field |
| ChoiceCheckboxField.ChoiceCheckbox.IsChecked | components/form/fields/choice/ChoiceCheckbox.tsx:108 | a box is checked iff its id is among the selected values |
| ChoiceCheckboxField.ChoiceCheckbox.ValueChanged | components/form/fields/choice/ChoiceCheckbox.tsx:36-40 | an array value replaces the selection |
| ChoiceCheckboxField.ChoiceCheckbox.NextClick | components/form/fields/choice/ChoiceCheckbox.tsx:133 | Next is never gated |
| ChoiceCheckboxField.ClickFlipsChecked | components/form/fields/choice/ChoiceCheckbox.tsx:42-59 | a click unchecks a checked box and checks an unchecked one unless the cap is reached |
| ChoiceCheckboxField.ClickFlipsIsChecked | components/form/fields/choice/ChoiceCheckbox.tsx:42-59 | through `HandleToggle`: a checked box shows unchecked and the click is reported; an unchecked one shows checked iff reported, and stays unchecked only at the cap; other boxes keep their state |
| ChoiceSingleField.ChoiceSingle.constructor | components/form/fields/choice/ChoiceSingle.tsx:20-23 | the selection starts as the value |
| ChoiceSingleField.ChoiceSingle.HandleSelect | components/form/fields/choice/ChoiceSingle.tsx:31-34 | the choice is selected and reported |
| ChoiceSingleField.ChoiceSingle.IsSelected | components/form/fields/choice/ChoiceSingle.tsx:69 | an option is highlighted iff its value is the selection |
| ChoiceSingleField.SelectHighlightsChoice | components/form/fields/choice/ChoiceSingle.tsx:31-34 | after choosing, exactly the options whose value is the choice are highlighted |
| ChoiceSingleField.ChoiceSingle.ValueChanged | components/form/fields/choice/ChoiceSingle.tsx:25-29 | follows `Synced` |
| ChoiceSingleField.ChoiceSingle.NextClick | components/form/fields/choice/ChoiceSingle.tsx:150 | Next is never gated |
| ChoiceSingleField.SelectThenEmptySync | components/form/fields/choice/ChoiceSingle.tsx:25-34 | a selection survives a later empty value |
| ChoiceDropDownField.ChoiceDropDown.constructor | components/form/fields/choice/ChoiceDropDown.tsx:20-22 | the selection starts as the value |
| ChoiceDropDownField.ChoiceDropDown.HandleValueChange | components/form/fields/choice/ChoiceDropDown.tsx:30-33 | the value is selected and reported |
| ChoiceDropDownField.ChoiceDropDown.ValueChanged | components/form/fields/choice/ChoiceDropDown.tsx:24-28 | a truthy value replaces the selection |
| ChoiceDropDownField.ChoiceDropDown.NextClick | components/form/fields/choice/ChoiceDropDown.tsx:98 | Next is never gated |
| ChoiceDropDownField.ListedItems | components/form/fields/choice/ChoiceDropDown.tsx:22 | an option is listed iff it has a label that is not blank |
| ChoicePictureField.PictureErrors | components/form/fields/choice/ChoicePicture.tsx:43-52 | only the required message, exactly when required and nothing is selected |
| ChoicePictureField.ChoicePicture.constructor | components/form/fields/choice/ChoicePicture.tsx:21-26 | every option is offered, unfiltered, and no image is broken |
| ChoicePictureField.ChoicePicture.SelectedIndices | components/form/fields/choice/ChoicePicture.tsx:96 | the highlighted tiles are those whose value is the selection |
| ChoicePictureField.ChoicePicture.HandleSelect | components/form/fields/choice/ChoicePicture.tsx:34-37 | the tile's value is selected and reported |
| ChoicePictureField.ChoicePicture.HandleImageError | components/form/fields/choice/ChoicePicture.tsx:39-41 | the index joins the broken images |
| ChoicePictureField.ChoicePicture.ValidateField | components/form/fields/choice/ChoicePicture.tsx:43-52 | shows `PictureErrors` |
| ChoicePictureField.ChoicePicture.NextClick | components/form/fields/choice/ChoicePicture.tsx:54-61 | Next fires iff the selection passes |
| ChoicePictureField.ChoicePicture.SubmitClick | components/form/fields/choice/ChoicePicture.tsx:63-70 | submits iff the selection passes |
| ChoicePictureField.ChoicePicture.ValueChanged | components/form/fields/choice/ChoicePicture.tsx:28-32 | a truthy value replaces the selection |
| ChoicePictureField.ImageErrorsOnlyGrow | components/form/fields/choice/ChoicePicture.tsx:39-41 | after any reports the broken set is exactly the reported indices |
| RatingStarField.StarCount | components/form/fields/rating/RatingStar.tsx:22 | a numeric star count, else 5 |
| RatingStarField.Stars | components/form/fields/rating/RatingStar.tsx:25 | the stars are 1..n for the integer part n of the count |
| RatingStarField.StarsAscending | components/form/fields/rating/RatingStar.tsx:22-25 | the stars ascend, and by default are 1 to 5 |
| RatingStarField.IsFilled | components/form/fields/rating/RatingStar.tsx:66 | a hover decides when present, else the selection |
| RatingStarField.NothingFilledAtRest | components/form/fields/rating/RatingStar.tsx:66 | without hover or selection no star is filled |
| RatingStarField.FilledStarsArePrefix | components/form/fields/rating/RatingStar.tsx:66 | filled stars form a prefix |
| RatingStarField.RatingStar.constructor | components/form/fields/rating/RatingStar.tsx:16-19 | the selection is the value and nothing is hovered |
| RatingStarField.RatingStar.HandleSelect | components/form/fields/rating/RatingStar.tsx:33-36 | the star is selected and reported |
| RatingStarField.RatingStar.Clear | components/form/fields/rating/RatingStar.tsx:96-100 | the selection is cleared and undefined is reported |
| RatingStarField.RatingStar.MouseEnter | components/form/fields/rating/RatingStar.tsx:74 | the star is hovered |
| RatingStarField.RatingStar.MouseLeave | components/form/fields/rating/RatingStar.tsx:63 | the hover is cleared |
| RatingStarField.RatingStar.ValueChanged | components/form/fields/rating/RatingStar.tsx:27-31 | a numeric value replaces the selection |
| RatingZeroToTenField.RangeOf | components/form/fields/rating/RatingZeroToTen.tsx:24-25 | numeric bounds, else 0 and 10 |
| RatingZeroToTenField.Ratings | components/form/fields/rating/RatingZeroToTen.tsx:28 | `max - min + 1` consecutive ratings from min |
| RatingZeroToTenField.RatingsShape | components/form/fields/rating/RatingZeroToTen.tsx:28 | empty iff max < min; starts at min; consecutive; integral ranges have max-min+1 entries |
| RatingZeroToTenField.DefaultRatings | components/form/fields/rating/RatingZeroToTen.tsx:24-28 | the default scale is 0 to 10 |
| RatingZeroToTenField.RatingZeroToTen.constructor | components/form/fields/rating/RatingZeroToTen.tsx:19-21 | the selection is the value |
| RatingZeroToTenField.RatingZeroToTen.HandleSelect | components/form/fields/rating/RatingZeroToTen.tsx:36-39 | the rating is selected and reported |
| RatingZeroToTenField.RatingZeroToTen.IsSelected | components/form/fields/rating/RatingZeroToTen.tsx:65 | a button is highlighted iff it is the selection |
| RatingZeroToTenField.RatingZeroToTen.ValueChanged | components/form/fields/rating/RatingZeroToTen.tsx:30-34 | a numeric value replaces the selection |
| RatingZeroToTenField.RatingZeroToTen.NextClick | components/form/fields/rating/RatingZeroToTen.tsx:103 | Next is never gated |
| RatingZeroToTenField.SelectHighlightsOne | components/form/fields/rating/RatingZeroToTen.tsx:36-65 | after a selection exactly one button is highlighted |
| RatingRankField.RankOptions | components/form/fields/rating/RatingRank.tsx:23 | ten options, the decimal texts of 1 to 10 |
| RatingRankField.OptionsText | components/form/fields/rating/RatingRank.tsx:23 | the option texts are "1" through "10" |
| RatingRankField.OptionsParseBack | components/form/fields/rating/RatingRank.tsx:23-33 | the options are "1".."10" and `parseInt` reads each back as its rank |
| RatingRankField.RatingRank.constructor | components/form/fields/rating/RatingRank.tsx:20 | nothing is selected |
| RatingRankField.RatingRank.HandleValueChange | components/form/fields/rating/RatingRank.tsx:31-34 | the option is selected and its number reported |
| RatingRankField.RatingRank.ValueChanged | components/form/fields/rating/RatingRank.tsx:25-29 | a truthy number shows as its text; 0 changes nothing |
| RatingRankField.RatingRank.NextClick | components/form/fields/rating/RatingRank.tsx:85 | Next is never gated |
| RatingRankField.ChooseThenSync | components/form/fields/rating/RatingRank.tsx:23-34 | choosing rank k reports k, and syncing k back shows the same option |
| InfoEmailField.LastIndexOf | components/form/fields/userInfo/InfoEmail.tsx:32 | the last occurrence, where the backtracking match places the final '.' |
| InfoEmailField.PatternFromParts | components/form/fields/userInfo/InfoEmail.tsx:32 | local@domain.tld with those character classes and a tld of two or more letters matches |
| InfoEmailField.PatternToParts | components/form/fields/userInfo/InfoEmail.tsx:32 | every match splits back into those parts (round trip) |
| InfoEmailField.ExactlyOneAt | components/form/fields/userInfo/InfoEmail.tsx:32 | every match has exactly one '@' |
| InfoEmailField.ValidateEmail | components/form/fields/userInfo/InfoEmail.tsx:25-39 | empty is fine; otherwise no message iff the pattern matches |
| InfoEmailField.InfoEmail.constructor | components/form/fields/userInfo/InfoEmail.tsx:16-17 | the answer is the value or "" |
| InfoEmailField.InfoEmail.InputChange | components/form/fields/userInfo/InfoEmail.tsx:41-52 | the text is shown and validated, and reported only when it is valid or empty |
| InfoEmailField.InfoEmail.ValueChanged | components/form/fields/userInfo/InfoEmail.tsx:19-23 | a truthy value replaces the answer |
| InfoEmailField.TypingReportsOnlyAddresses | components/form/fields/userInfo/InfoEmail.tsx:41-52 | whatever is typed, the form receives only "" or matching addresses |
| InfoPhoneField.DigitCount | components/form/fields/userInfo/InfoPhone.tsx:64 | the number of digits left by `replace(/\D/g, '')` |
| InfoPhoneField.ValidatePhone | components/form/fields/userInfo/InfoPhone.tsx:50-70 | empty is fine; characters are checked first, then at least 6 digits |
| InfoPhoneField.CharactersCheckedFirst | components/form/fields/userInfo/InfoPhone.tsx:57-66 | "12a" gets the invalid message, not the too-short one |
| InfoPhoneField.AvailableCountries | components/form/fields/userInfo/InfoPhone.tsx:22-28 | all countries unless `allowAnyCountry` is false; then the allowed ones, in table order |
| InfoPhoneField.AllowedFilter | components/form/fields/userInfo/InfoPhone.tsx:22-28 | filtering a table by the allowed codes keeps exactly its allowed rows, in order |
| InfoPhoneField.InitialCountry | components/form/fields/userInfo/InfoPhone.tsx:30 | the first available code, else "US" |
| InfoPhoneField.StoredValue | components/form/fields/userInfo/InfoPhone.tsx:89-101 | no number reports undefined; a known country reports "<dial>-<number>"; an unknown one reports nothing |
| InfoPhoneField.ParseStored | components/form/fields/userInfo/InfoPhone.tsx:34-48 | a value is restored only when it has exactly one '-' |
| InfoPhoneField.StoredParsesBack | components/form/fields/userInfo/InfoPhone.tsx:34-48 | a stored number without '-' restores to the first country with that dial code and the same number |
| InfoPhoneField.DashedNumberNotRestored | components/form/fields/userInfo/InfoPhone.tsx:37-38 | a number containing '-' is not restored |
| InfoPhoneField.CanadaComesBackAsUS | components/form/fields/userInfo/InfoPhone.tsx:41 | a Canadian number comes back as US, since both use "+1" |
| InfoPhoneField.InfoPhone.constructor | components/form/fields/userInfo/InfoPhone.tsx:21-32 | the available countries and the initial country, with no number |
| InfoPhoneField.InfoPhone.CountryChange | components/form/fields/userInfo/InfoPhone.tsx:72-75 | the country changes and the stored value is reported without validating the number |
| InfoPhoneField.InfoPhone.PhoneChange | components/form/fields/userInfo/InfoPhone.tsx:77-87 | the number is shown and validated, and the stored value is reported only when it is valid |
| InfoPhoneField.InfoPhone.ValueChanged | components/form/fields/userInfo/InfoPhone.tsx:34-48 | a restorable value sets country and number; anything else changes nothing |
| InfoPhoneField.TypeThenRestore | components/form/fields/userInfo/InfoPhone.tsx:34-101 | a valid number typed and stored comes back unchanged |
| InfoUrlField.TwoLabels | components/form/fields/userInfo/InfoUrl.tsx:48 | two labels joined by a dot are a host |
| InfoUrlField.HostSplits | components/form/fields/userInfo/InfoUrl.tsx:48 | a host splits at its first dot into a label and a rest |
| InfoUrlField.StripProtocol | components/form/fields/userInfo/InfoUrl.tsx:48 | the optional `https?://` is removed, ignoring case |
| InfoUrlField.HostAndPathMatch | components/form/fields/userInfo/InfoUrl.tsx:48 | a host with a path matches, with or without "https://" |
| InfoUrlField.Normalise | components/form/fields/userInfo/InfoUrl.tsx:57-59 | the result starts with a protocol; a URL with one is kept |
| InfoUrlField.NormaliseIdempotent | components/form/fields/userInfo/InfoUrl.tsx:57-59 | normalising twice equals normalising once |
| InfoUrlField.ValidateUrl | components/form/fields/userInfo/InfoUrl.tsx:41-66 | empty is fine; otherwise no message iff the pattern matches and the normalised URL parses |
| InfoUrlField.Or | components/form/fields/userInfo/InfoUrl.tsx:87-90 | `a \|\| b` on optional text |
| InfoUrlField.InfoUrl.constructor | components/form/fields/userInfo/InfoUrl.tsx:27-31 | the answer is the value or "", with no preview |
| InfoUrlField.InfoUrl.InputChange | components/form/fields/userInfo/InfoUrl.tsx:105-127 | invalid or empty input clears the preview; valid input is reported, and a non-empty one starts a preview fetch |
| InfoUrlField.InfoUrl.FetchFinished | components/form/fields/userInfo/InfoUrl.tsx:68-103 | success stores title, description and image; failure sets the error and keeps only the URL |
| InfoUrlField.InfoUrl.ClearPreview | components/form/fields/userInfo/InfoUrl.tsx:129-132 | the preview and its error are cleared |
| InfoUrlField.InfoUrl.ValueChanged | components/form/fields/userInfo/InfoUrl.tsx:35-39 | a truthy value replaces the answer |
| UserAddressField.AddressFrom | components/form/fields/userInfo/UserAddress.tsx:32-40 | every part is present: the given text when non-empty, else "" (the country "US") |
| UserAddressField.EmptyAddress | components/form/fields/userInfo/UserAddress.tsx:32-40 | an empty value gives "US" and empty parts |
| UserAddressField.AddressFromIdempotent | components/form/fields/userInfo/UserAddress.tsx:42-54 | syncing the field's own data changes nothing |
| UserAddressField.Shown | components/form/fields/userInfo/UserAddress.tsx:68-113 | address, city, state and country are shown unless false; address2, zip and postal code only when true |
| UserAddressField.Required | components/form/fields/userInfo/UserAddress.tsx:68-114 | a part is required only when its `…Required` flag is true |
| UserAddressField.DefaultLayout | components/form/fields/userInfo/UserAddress.tsx:68-114 | without metadata four parts are shown and none is required |
| UserAddressField.UserAddress.constructor | components/form/fields/userInfo/UserAddress.tsx:32-40 | the data are `AddressFrom(value)` |
| UserAddressField.UserAddress.FieldChange | components/form/fields/userInfo/UserAddress.tsx:56-63 | only that part changes and the whole address is reported |
| UserAddressField.UserAddress.ValueChanged | components/form/fields/userInfo/UserAddress.tsx:42-54 | a truthy value replaces the data with `AddressFrom(value)` |
| MultiSelectWidget.SelectedOptions | components/ui/multiSelect.tsx:87-90 | exactly the options whose value is selected, in options order |
| MultiSelectWidget.TriggerSummary | components/ui/multiSelect.tsx:110-118 | the placeholder ("Select options" by default) for none, else the custom renderer, else "N items selected" above three, else the labels joined by ", " |
| MultiSelectWidget.CountSummaryReadsBack | components/ui/multiSelect.tsx:114-115 | the count summary starts with digits that read back as the number selected |
| MultiSelectWidget.LabelSummaryNamesEach | components/ui/multiSelect.tsx:116-117 | a summary of one to three options contains each label |
| MultiSelectWidget.MultiSelect.constructor | components/ui/multiSelect.tsx:51 | the dropdown starts closed |
| MultiSelectWidget.MultiSelect.HandleSelect | components/ui/multiSelect.tsx:73-85 | an included value is dropped (every occurrence), an absent one appended, nothing else changes, and the dropdown is open |
| MultiSelectWidget.MultiSelect.TriggerClick | components/ui/multiSelect.tsx:104 | flips the dropdown unless disabled |
| MultiSelectWidget.MultiSelect.MouseDown | components/ui/multiSelect.tsx:54-71 | a press outside both the trigger and the list closes an open dropdown; any other press leaves it as it was |
| MultiSelectWidget.ChooseKeepsOpen | components/ui/multiSelect.tsx:142-144 | a press on a list option does not close the dropdown, so the click then toggles that value and the dropdown stays open |
| MultiSelectWidget.SelectTwice | components/ui/multiSelect.tsx:78-84 | selecting an absent value twice reports the original list, and the dropdown stays open |
| MultiSelectWidget.DisabledStaysClosed | components/ui/multiSelect.tsx:104 | a disabled widget never opens, however often it is clicked |
| SwitchButtonWidget.InitialSelection | components/ui/switchButton.tsx:32-37 | `{defaultSelected}` when given and non-empty, else empty |
| SwitchButtonWidget.SwitchButton.constructor | components/ui/switchButton.tsx:32-37 | starts with `InitialSelection` |
| SwitchButtonWidget.SwitchButton.ButtonClick | components/ui/switchButton.tsx:39-65 | a disabled option changes and calls nothing; multiple mode flips only the clicked id; single mode selects exactly it and reports it; `onClick` runs on every enabled click |
| SwitchButtonWidget.ClickTwiceRestores | components/ui/switchButton.tsx:44-50 | in multiple mode two clicks restore the selection |
| SwitchButtonWidget.SingleModeHoldsAtMostOne | components/ui/switchButton.tsx:51-54 | in single mode the selection never holds more than one id |
| DatePickerWidget.DayDisabled | components/ui/datePicker.tsx:92-97 | a disabled picker disables every day; otherwise a day is disabled iff it lies outside the inclusive range the date field checks |
| DatePickerWidget.BoundsSelectable | components/ui/datePicker.tsx:94-95 | the bounds themselves can be picked |
| DatePickerWidget.DisplayDate | components/ui/datePicker.tsx:56-63 | no date shows the placeholder ("Select Date" by default) |
| DatePickerWidget.DatePicker.constructor | components/ui/datePicker.tsx:42-43 | closed, holding the value |
| DatePickerWidget.DatePicker.DateSelect | components/ui/datePicker.tsx:50-54 | the date is held and reported, and the popover closes |
| DatePickerWidget.DatePicker.ValueChanged | components/ui/datePicker.tsx:46-48 | the held date follows the value |
| DatePickerWidget.DatePicker.OpenChange | components/ui/datePicker.tsx:67 | the popover's open state follows its trigger |
| DatePickerWidget.DatePicker.Display | components/ui/datePicker.tsx:56-57 | the placeholder is shown iff no date is held |
| DatePickerWidget.PickThenClear | components/ui/datePicker.tsx:46-57 | picking and then clearing the value shows the placeholder with the popover closed |
| Playground.InitialFields | components/PlaygroundSection.tsx:9-12 | the list starts with ids 1 and 2 |
| Playground.MaxId | components/PlaygroundSection.tsx:18 | the largest id, attained by some field |
| Playground.RemoveId | components/PlaygroundSection.tsx:25 | exactly the fields with other ids remain |
| Playground.RemoveIdKeepsUnique | components/PlaygroundSection.tsx:25 | removing keeps the ids distinct |
| Playground.RemoveIdLength | components/PlaygroundSection.tsx:25 | with distinct ids, exactly one field goes when the id exists and none otherwise |
| Playground.GenerateCode | components/PlaygroundSection.tsx:41-53 | the code opens the form and ends with the submit button |
| Playground.CodeHasEveryField | components/PlaygroundSection.tsx:43-50 | every field's block occurs in the code |
| Playground.CodeAfterAppend | components/PlaygroundSection.tsx:43-50 | appending a field adds exactly its block, after a newline, before the button |
| Playground.PlaygroundSection.constructor | components/PlaygroundSection.tsx:9-12 | the initial list, non-empty with distinct ids |
| Playground.PlaygroundSection.AddField | components/PlaygroundSection.tsx:17-21 | appends a default field with id max+1, larger than every existing id, so ids stay distinct |
| Playground.PlaygroundSection.RemoveField | components/PlaygroundSection.tsx:23-28 | removes the fields with that id only when more than one exists; the list never empties |
| Playground.PlaygroundSection.EditLabel | components/PlaygroundSection.tsx:114-118 | only the label of the field at that index changes |
| Playground.PlaygroundSection.EditPlaceholder | components/PlaygroundSection.tsx:129-133 | only the placeholder of the field at that index changes |
| Playground.PlaygroundSection.EditType | components/PlaygroundSection.tsx:144-148 | only the type of the field at that index changes |
| Playground.PlaygroundSection.Code | components/PlaygroundSection.tsx:41-53 | the current list's generated code |
| Playground.AddThenRemove | components/PlaygroundSection.tsx:17-28 | adding a field and removing its id gives back the list |

## Left out

- I/O is left out: `fetch`, Prisma, `NextResponse.json`, `signIn`/`useSession`, toasts, the clipboard, `console.log` and the document theme. The stored record, the fetched page, the session and the clock are parameters.
- Timers and animation are left out: the progress animation, the 500 ms shake reset (modelled as a separate `ShakeEnded` call), the keyboard listener and the framer-motion slides.
- Floating point is left out: numbers are exact reals, and NaN or Infinity inputs are not modelled. `formatFileSize` and `getRandomString` are not part of this model.
- DateField.DateOf: a bound that `new Date` turns into an Invalid Date (an unparsable string, or a time value beyond ±8.64e15 ms) is modelled as a valid instant. In the code such a bound is truthy but every comparison with it is false, so it never produces a range message.
- Message texts that embed numbers or dates (`${min}`, `toLocaleDateString`, `date-fns` formatting) are error values carrying the bound, not strings.
- Strings are sequences of characters. UTF-16 surrogates, emoji flags, Unicode case mapping (only ASCII `toLowerCase`) and `encodeURIComponent` are not modelled.
- A user-supplied `metadata.pattern` and `new URL` are Boolean parameters, not regex engines. The HTML tag regexes of the URL preview are a scanned `PageTags` record.
- React batching, and the closures that see stale state, are modelled only where they change the outcome (TextLong, Date). Loose `==` is modelled as string equality.
- NumberField.NumberInput.constructor: requires the initial text to pass the decimal filter. The value-to-text sync effect (Number.tsx:27-31) is not modelled.
- ApiResponse.WithErrorHandler: a truthy ValidationError `message` that is not a string is answered with "Validation failed", because response messages are strings here; the code would pass the value through.
- RatingStarField.Stars: `Array.from` with a huge length throws a RangeError, which is not modelled.
- RatingRankField.RatingRank.ValueChanged: negative ranks are not modelled (the value is a `nat`).
- InfoUrlField.InfoUrl.InputChange: the protocol test is modelled case-sensitively as written (`startsWith`), while the pattern ignores case.
- The choice-letter helper `getChoiceItemAlphaInd` (ChoiceItem.tsx) is not part of this model. Nor are the file fields, the legal and boolean choices, or the screen components, which have no logic beyond rendering.
- The calendar component itself is not modelled. `DatePicker.DateSelect` accepts any date; the calendar library is trusted not to offer the days `DayDisabled` marks.
- The playground's edits mutate the shared field objects of the previous list (`updated[index].label = …` on a shallow copy). The model replaces the list by value, so that aliasing is not captured.
- The custom renderers of the multi-select (`renderOption`, `renderTriggerValue`) are represented only by whether one is given.

## Findings

| source | as written | input that shows it | evidently intended | confidence | as-written member | corrected member |
|---|---|---|---|---|---|---|
| components/form/fields/basic/TextLong.tsx:25-28 | `setAnswer(e.target.value); onChange?.(answer)` reports the answer from before the edit | typing "a" then "ab" reports "" then "a" while "ab" is shown | report `e.target.value` | high, not executed | TextLongField.TypingLagsOneEdit | TextLongField.TypingReportsShownText |
| components/form/fields/basic/Date.tsx:38-69 | `handleDateChange(undefined)` validates `undefined \|\| selectedDate`, so clearing a required date passes when the old date is in range | required question, selected date within its bounds, date cleared | a cleared required date is refused | medium, not executed | DateField.ClearingFallsBackToSelection | DateField.DateInput.DateChangeCheckingNewDate |
