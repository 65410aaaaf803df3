# Udyam registration form: validator builder and step controller

A model of the deterministic logic in the registration page `src/app/page.tsx`. The page is a two-step
form ("Aadhaar Validation", then "PAN Validation"). It renders fields from a schema document. It validates
the fields with rules built from that document. On the last step it posts the form data to a backend.

The model has three modules:

- `Wrappers` (`wrappers.dfy`): `Option` (a value or JavaScript's `undefined`) and `Result`.
- `ValidatorBuilder` (`validator_builder.dfy`): `getZodSchema`, the loop that turns the field
  descriptions of one step into a map from field name to a string rule. Also what such a rule accepts,
  how the whole form is parsed against the map, and the length cap of the rendered text input.
  A rule is the ordered list of checks the builder adds (`Required`, `MaxLen(n)`, `Pattern(p)`), made
  optional. The regular-expression engine is the parameter `RegexEngine(compiles, matches)`.
  `compiles` says whether `new RegExp(p)` succeeds; `matches` says whether the pattern accepts a string.
- `StepFlow` (`step_controller.dfy`): the step key chosen from the active index, and the
  button classification (submit when the action contains `"validate"`, plain otherwise; a click handler
  only for `"sendOTP"`). Also the class `StepController`, whose `activeStep` field the methods `OnSubmit`
  and `Activate` update. The backend's answer is the input `SubmitOutcome`.

Properties proved:

- The built map has one entry per field name, and the last field with a name wins.
- Building fails exactly when some field's pattern does not compile, and reports the first such pattern.
- A present string passes a field's rule exactly when it meets every truthy setting. Each check is
  reported exactly when it fails, with its message ("Required", "Invalid format").
- An absent value passes every rule.
- `maxlength: 0` adds no check.
- The text input caps what it holds at `maxlength` when that is present and not negative, so text
  entered through it never fails a non-negative length limit; `maxlength: 0` gives an input that holds nothing.
- A validated submit advances from step 0 to exactly 1. On the last step it sends the payload and
  leaves the index unchanged, whatever the outcome. For submits handled one at a time, the index therefore
  stays in `0 .. |Steps| - 1`.
- The OTP button never submits and never changes the index.
- When the current step's rules cannot be built, no button has any other effect.

Behaviour of `page.tsx` worth noting:

- After a send on the last step the page stays on that step, whatever the backend answers, and the
  submit button can send again.
- `required: true` does not reject an untouched field. The rule is optional, so an absent value passes;
  only the empty string fails with "Required".
- `maxlength` and `pattern` are tested for truthiness, so `maxlength: 0` and `pattern: ""` add no check.
  The text input still receives `maxLength={0}` and so accepts no text.
- The rules are rebuilt on every render, so a pattern that does not compile stops the page from
  rendering the step at all.

## Model

| member | source | states |
|---|---|---|
| `ValidatorBuilder.Checks` | src/app/page.tsx:14-17 | a field's checks include `Required` iff `required` is truthy |
| `ValidatorBuilder.ChecksContents` | src/app/page.tsx:14-17 | a field's checks include `MaxLen(n)` iff `maxlength` is truthy and equals n, and `Pattern(p)` iff `pattern` is truthy and equals p; the checks come in the fixed order required, length, pattern |
| `ValidatorBuilder.BuildRule` | src/app/page.tsx:14-18 | building a field's rule fails exactly when its truthy pattern does not compile, with that pattern as the error; otherwise the rule holds the field's checks |
| `ValidatorBuilder.Run` | src/app/page.tsx:15-17 | every reported issue belongs to a check of the rule that the string fails, with the check's message; no more issues than checks |
| `ValidatorBuilder.Validate` | src/app/page.tsx:18 | an absent value yields no issue (every rule is optional); issues only come from the rule's checks |
| `ValidatorBuilder.RequiredTruthy` | src/app/page.tsx:15 | definition: `required` is truthy only when it is `true` |
| `ValidatorBuilder.TruthyMaxLength` | src/app/page.tsx:16 | definition: `maxlength` counts only when present and not 0 |
| `ValidatorBuilder.TruthyPattern` | src/app/page.tsx:17 | definition: `pattern` counts only when present and not the empty string |
| `ValidatorBuilder.Fails` | src/app/page.tsx:15-17 | definition: `Required` fails below one character, `MaxLen(n)` above n characters, `Pattern(p)` when p does not match |
| `ValidatorBuilder.Message` | src/app/page.tsx:15-17 | definition: "Required" for the non-empty check, "Invalid format" for the pattern, the library default for the length check |
| `ValidatorBuilder.RunPassesIff` | src/app/page.tsx:15-18 | a string passes the checks iff it fails none of them |
| `ValidatorBuilder.RunReports` | src/app/page.tsx:15-18 | a check's issue is reported iff the check is in the rule and the string fails it |
| `ValidatorBuilder.FieldRuleAcceptsIff` | src/app/page.tsx:14-18 | a present string passes a field's rule iff it is non-empty when required, within `maxlength`, and matched by `pattern`, each only when truthy |
| `ValidatorBuilder.RequiredSemantics` | src/app/page.tsx:15 | "Required" is reported iff `required` is truthy and the value is the empty string; without `required` no issue is a `Required` one |
| `ValidatorBuilder.MaxLengthSemantics` | src/app/page.tsx:16 | with truthy `maxlength` L, the length issue is reported iff the string is longer than L |
| `ValidatorBuilder.PatternSemantics` | src/app/page.tsx:17 | with truthy `pattern` P, "Invalid format" is reported iff P does not match the string |
| `ValidatorBuilder.NoValidationsAcceptEverything` | src/app/page.tsx:14-18 | a field with no truthy setting (no `validations`, an empty one, or only falsy entries) gets a rule with no checks, and the built rule accepts every string |
| `ValidatorBuilder.ZeroMaxLengthAddsNoCheck` | src/app/page.tsx:16 | `maxlength: 0` is falsy, so no string gets a length issue |
| `ValidatorBuilder.TwelveDigitFieldScenario` | src/app/page.tsx:14-18 | for a required, 12-long, twelve-digit-pattern field, "123" gets exactly the "Invalid format" issue and "123456789012" passes |
| `ValidatorBuilder.InputCap` | src/app/page.tsx:89 | the input is capped exactly when it is a text input whose `maxlength` is present and not negative, and the cap is that `maxlength` as written |
| `ValidatorBuilder.InputValue` | src/app/page.tsx:89 | the input holds a prefix of what is entered: all of it when within the cap or uncapped, exactly cap characters otherwise |
| `ValidatorBuilder.ZeroMaxLengthInputHoldsNothing` | src/app/page.tsx:89 | with `maxlength: 0` the text input holds the empty string, while the rule gets no length check |
| `ValidatorBuilder.CappedInputMeetsMaxLength` | src/app/page.tsx:89 | text entered through the capped input gets a length issue iff the limit is negative (no cap applies) |
| `ValidatorBuilder.FieldValidator` | src/app/page.tsx:13-18 | the `forEach` callback builds exactly `BuildRule(field)`: the field's checks in order, or the pattern whose `new RegExp` throws |
| `ValidatorBuilder.SchemaExtends` | src/app/page.tsx:13-18 | after a prefix of the fields has built, the next field either adds its rule under its name or aborts with its pattern |
| `ValidatorBuilder.GetZodSchema` | src/app/page.tsx:11-21 | the builder loop returns exactly `SchemaOf(fields)`: the shape map, or the first pattern that does not compile |
| `ValidatorBuilder.SchemaFailurePersists` | src/app/page.tsx:13-17 | a compilation failure on some field aborts the whole build with that pattern |
| `ValidatorBuilder.SchemaOf` | src/app/page.tsx:11-21 | definition: the builder's result, adding the last field's rule to the result for the others, or the first pattern that fails to compile |
| `ValidatorBuilder.SchemaKeys` | src/app/page.tsx:12-20 | a built shape's keys are exactly the field names |
| `ValidatorBuilder.SchemaLastWins` | src/app/page.tsx:18 | a name's entry is the rule of the last field with that name |
| `ValidatorBuilder.SchemaFailsOnFirstBadPattern` | src/app/page.tsx:13-17 | building fails iff some field's truthy pattern does not compile, and the error is the first such pattern |
| `ValidatorBuilder.Lookup` | src/app/page.tsx:18 | a field's value is present iff the form data has the key, and is then that entry; a missing key is `undefined` |
| `ValidatorBuilder.ParseForm` | src/app/page.tsx:30-33 | the form parses iff every shape key validates; the payload is the data restricted to the shape's keys; on failure the errors name exactly the failing fields with their issues |
| `StepFlow.StepKey` | src/app/page.tsx:28 | the key is "step1" iff the index is 0, and is always one of the document's two step keys |
| `StepFlow.StepKeyFollowsTracker` | src/app/page.tsx:24-29 | each tracker index selects the document step in the same position |
| `StepFlow.OccursPastHead` | src/app/page.tsx:119 | when the substring does not start at index 0, it occurs in the string iff it occurs in the string without its first character |
| `StepFlow.Includes` | src/app/page.tsx:119 | `includes` is true iff the substring occurs at some index |
| `StepFlow.TypeOf` | src/app/page.tsx:119 | a button is a submit button iff "validate" occurs in its action, otherwise a plain button |
| `StepFlow.HasOtpHandler` | src/app/page.tsx:119-122 | only the action "sendOTP" gets the click handler, and such a button is a plain button, never a submit button |
| `StepFlow.NoticeFor` | src/app/page.tsx:45-53 | the user is told of success iff the response was ok |
| `StepFlow.StepAfterSubmit` | src/app/page.tsx:37-57 | a submit keeps the index in range, leaves it unchanged iff it is the last step, and otherwise adds exactly 1 |
| `StepFlow.StepController.constructor` | src/app/page.tsx:27 | the page starts on step 0 |
| `StepFlow.StepController.OnSubmit` | src/app/page.tsx:36-58 | on the last step the data is sent and the index is unchanged; otherwise the index grows by 1 and nothing is sent |
| `StepFlow.StepController.Activate` | src/app/page.tsx:28-122 | when the current step's rules cannot be built every button reports that and changes nothing; otherwise a plain button never changes the index (the OTP one raises its notice), and a submit button validates the data, and only data that passes reaches `OnSubmit`, with the stripped payload |

## Left out

- The `fetch` POST, its URL and headers, and the texts of the `alert` notices. The backend's answer is the input `SubmitOutcome`, and the notice is `Notice`.
- React and MUI rendering, the `Controller`/`useForm` wiring, the stepper display and the radio group. These are composition over libraries the model cannot see. The only rendering fact kept is the text input's length cap.
- The library's internals beyond the semantics above: the default text of the length message (modelled as `None`), and issue codes. The model reports every failing check in check order.
- The regular-expression engine. `RegexEngine.compiles` and `RegexEngine.matches` are parameters.
- Lengths are counted in Dafny characters, not in UTF-16 code units as JavaScript counts them.
- Values that are not strings (for example `null`): the form data is a map from field name to string, and an absent key is `undefined`.
- The contents of the schema document. It is a parameter (`map<string, StepSpec>`).
- The form state and whether values survive a step change. The page keeps one form object across steps, which the model does not represent.
- Asynchronous behaviour: the submit handler awaits the network, and a second submit can start before the first ends. The model handles one submit at a time. In the page, two validated submits on step 0 before a re-render both apply `prev => prev + 1` and reach index 2; the last-step test then never holds again, and nothing is ever sent. The model's bound on the index does not cover that case.
- `StepFlow.StepController.Activate`: a pattern that does not compile makes the page fail while rendering the step, before any button exists. The model instead reports `SchemaError` when any button of that step is activated. It also lets a submit advance into such a step, where the page would fail on its next render.
- `InputValue`: the browser's maxlength cap is modelled as truncation of the entered text, which is how pasted text is treated.
