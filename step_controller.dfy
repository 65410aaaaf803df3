/**
 * The step controller of the registration form: the index of the active step,
 * the choice of the schema document's step from that index, the way a button
 * of the schema is turned into a submit button or a plain one, and what a
 * validated submission does (advance, or hand the payload to the backend on
 * the last step). The backend's answer is the input `outcome`.
 */
module StepFlow {
  import opened Wrappers
  import opened ValidatorBuilder

  /** The labels of the progress tracker; their number is the number of steps. */
  const Steps: seq<string> := ["Step 1: Aadhaar Validation", "Step 2: PAN Validation"]

  /** The keys of the schema document's steps, in the tracker's order. */
  const StepKeys: seq<string> := ["step1", "step2"]

  /** The key of the schema document's step shown at index `activeStep`. */
  function StepKey(activeStep: int): (key: string)
    ensures key == "step1" <==> activeStep == 0
    ensures key in StepKeys
  {
    if activeStep == 0 then "step1" else "step2"
  }

  /** Every index of the tracker selects the step of the document in the same position. */
  lemma StepKeyFollowsTracker(i: int)
    requires 0 <= i < |Steps|
    ensures |StepKeys| == |Steps| && StepKey(i) == StepKeys[i]
  {
  }

  datatype ButtonSpec = ButtonSpec(text: string, action: string)

  /** One step of the schema document. */
  datatype StepSpec = StepSpec(description: string, fields: seq<FieldSpec>, buttons: seq<ButtonSpec>)

  /** `sub` occurs in `s` starting at index `i`. */
  predicate OccursAt(s: string, sub: string, i: int) {
    0 <= i && i + |sub| <= |s| && s[i..i + |sub|] == sub
  }

  /** Past a non-matching first position, `sub` occurs in `s` iff it occurs in `s[1..]`. */
  lemma {:induction false} OccursPastHead(s: string, sub: string)
    requires |sub| <= |s| && s[..|sub|] != sub
    ensures (exists i :: OccursAt(s, sub, i)) <==> exists j :: OccursAt(s[1..], sub, j)
  {
    if exists i :: OccursAt(s, sub, i) {
      var i :| OccursAt(s, sub, i);
      assert i != 0;
      assert s[1..][i - 1..i - 1 + |sub|] == s[i..i + |sub|];
      assert OccursAt(s[1..], sub, i - 1);
    }
    if exists j :: OccursAt(s[1..], sub, j) {
      var j :| OccursAt(s[1..], sub, j);
      assert s[j + 1..j + 1 + |sub|] == s[1..][j..j + |sub|];
      assert OccursAt(s, sub, j + 1);
    }
  }

  /** JavaScript's `s.includes(sub)`, by scanning the start positions from the left. */
  function Includes(s: string, sub: string): (r: bool)
    ensures r <==> exists i :: OccursAt(s, sub, i)
    decreases |s|
  {
    if |sub| > |s| then false
    else if s[..|sub|] == sub then assert OccursAt(s, sub, 0); true
    else
      var rest := Includes(s[1..], sub);
      OccursPastHead(s, sub);
      rest
  }

  datatype ButtonType = SubmitButton | PlainButton

  /** A button submits the form when its action mentions "validate"; otherwise it is a plain button. */
  function TypeOf(b: ButtonSpec): (t: ButtonType)
    ensures t == SubmitButton <==> exists i :: OccursAt(b.action, "validate", i)
  {
    if Includes(b.action, "validate") then SubmitButton else PlainButton
  }

  /** Only a button whose action is exactly "sendOTP" has a click handler: the mock OTP notice. */
  predicate HasOtpHandler(b: ButtonSpec): (r: bool)
    ensures r ==> TypeOf(b) == PlainButton
  {
    b.action == "sendOTP"
  }

  /** What the backend did with a submission. */
  datatype SubmitOutcome = ResponseOk | ResponseNotOk | Thrown(message: string)

  /** What the user is told after a submission. */
  datatype Notice = SubmittedOk | SubmissionFailed | SubmissionError(message: string)

  function NoticeFor(outcome: SubmitOutcome): (n: Notice)
    ensures n == SubmittedOk <==> outcome == ResponseOk
  {
    match outcome
    case ResponseOk => SubmittedOk
    case ResponseNotOk => SubmissionFailed
    case Thrown(m) => SubmissionError(m)
  }

  /** What activating a button led to. */
  datatype Effect =
    | Advanced                                           // moved to the next step
    | Sent(payload: map<string, string>, notice: Notice) // last step: payload handed to the backend
    | Rejected(errors: map<string, seq<Issue>>)          // validation failed; errors shown per field
    | SchemaError(pattern: string)                       // the step's rules could not be built
    | OtpRequested                                       // the mock OTP notice
    | NoEffect

  /** The step index after one validated submission. */
  function StepAfterSubmit(step: int): (next: int)
    ensures 0 <= step < |Steps| ==> 0 <= next < |Steps|
    ensures next == step <==> step == |Steps| - 1
    ensures next != step ==> next == step + 1
  {
    if step == |Steps| - 1 then step else step + 1
  }

  /** The page's step state. */
  class StepController {
    var activeStep: int

    ghost predicate Valid()
      reads this
    {
      0 <= activeStep < |Steps|
    }

    constructor ()
      ensures Valid() && activeStep == 0
    {
      activeStep := 0;
    }

    /** The submit handler, called with data that passed validation. */
    method OnSubmit(data: map<string, string>, outcome: SubmitOutcome) returns (effect: Effect)
      requires Valid()
      modifies this
      ensures Valid()
      ensures activeStep == StepAfterSubmit(old(activeStep))
      ensures effect == if old(activeStep) == |Steps| - 1 then Sent(data, NoticeFor(outcome)) else Advanced
    {
      if activeStep == |Steps| - 1 {
        effect := Sent(data, NoticeFor(outcome));
      } else {
        activeStep := activeStep + 1;
        effect := Advanced;
      }
    }

    /**
     * Activating button `b` of the current step with form data `data`. The
     * step's rules are built first, as the page does on every render; when
     * they cannot be built no button does anything else. Otherwise a submit
     * button validates the data and calls the submit handler only when it
     * passes, and the OTP button raises its notice.
     */
    method Activate(b: ButtonSpec, doc: map<string, StepSpec>, data: map<string, string>,
                    re: RegexEngine, outcome: SubmitOutcome) returns (effect: Effect)
      requires Valid()
      requires StepKey(activeStep) in doc
      modifies this
      ensures Valid()
      ensures match SchemaOf(doc[StepKey(old(activeStep))].fields, re)
        case Failure(p) => effect == SchemaError(p) && activeStep == old(activeStep)
        case Success(shape) =>
          if TypeOf(b) == PlainButton then
            activeStep == old(activeStep) && effect == (if HasOtpHandler(b) then OtpRequested else NoEffect)
          else
            match ParseForm(shape, data, re)
            case Failure(errors) => effect == Rejected(errors) && activeStep == old(activeStep)
            case Success(payload) =>
              && activeStep == StepAfterSubmit(old(activeStep))
              && effect == if old(activeStep) == |Steps| - 1 then Sent(payload, NoticeFor(outcome)) else Advanced
    {
      var step := doc[StepKey(activeStep)];
      var schema := GetZodSchema(step.fields, re);
      match schema
      case Failure(p) =>
        effect := SchemaError(p);
      case Success(shape) =>
        if TypeOf(b) == SubmitButton {
          match ParseForm(shape, data, re)
          case Failure(errors) =>
            effect := Rejected(errors);
          case Success(payload) =>
            effect := OnSubmit(payload, outcome);
        } else if HasOtpHandler(b) {
          effect := OtpRequested;
        } else {
          effect := NoEffect;
        }
    }
  }
}
