/**
 * The validator builder of the registration form: `getZodSchema` turns the
 * field descriptions of one step of the schema document into a map from field
 * name to a string rule, and zod then checks the form's values against it.
 *
 * A rule is an ordered list of checks on a string (non-empty, at most n
 * characters, matches a pattern), wrapped so that an absent value always
 * passes. The host's regular-expression engine is not modelled: it is the
 * parameter `re`, which says which pattern sources compile and which strings
 * a compiled pattern matches.
 */
module ValidatorBuilder {
  import opened Wrappers

  /** The regular-expression engine, seen from outside. */
  datatype RegexEngine = RegexEngine(
    compiles: string -> bool,          // `new RegExp(p)` does not throw
    matches: (string, string) -> bool  // the regex built from the first string accepts the second
  )

  /** The `validations` object of a field; every entry may be missing from the document. */
  datatype Validations = Validations(required: Option<bool>, maxlength: Option<int>, pattern: Option<string>)

  datatype FieldType = Text | Radio

  /** One field description of a step; `validations` may be missing as a whole. */
  datatype FieldSpec = FieldSpec(
    name: string,
    labelText: string,
    placeholder: Option<string>,
    kind: FieldType,
    options: seq<string>,
    validations: Option<Validations>)

  // The builder tests each setting for JavaScript truthiness: `false`, `0` and
  // the empty string count as absent.

  predicate RequiredTruthy(f: FieldSpec) {
    f.validations.Some? && f.validations.value.required == Some(true)
  }

  function TruthyMaxLength(f: FieldSpec): Option<int> {
    if f.validations.Some? && f.validations.value.maxlength.Some? && f.validations.value.maxlength.value != 0
    then f.validations.value.maxlength
    else None
  }

  function TruthyPattern(f: FieldSpec): Option<string> {
    if f.validations.Some? && f.validations.value.pattern.Some? && f.validations.value.pattern.value != ""
    then f.validations.value.pattern
    else None
  }

  /** A check that a string rule applies, in the order the builder adds them. */
  datatype Check = Required | MaxLen(limit: int) | Pattern(source: string)

  /** A string rule made optional: its checks apply only to a present value. */
  datatype Rule = Optional(checks: seq<Check>)

  /** A failed check with the message the builder attached to it (None: the library's default text). */
  datatype Issue = Issue(check: Check, message: Option<string>)

  function Message(c: Check): Option<string> {
    match c
    case Required => Some("Required")
    case MaxLen(_) => None
    case Pattern(_) => Some("Invalid format")
  }

  /** Whether string `s` fails check `c`. */
  predicate Fails(c: Check, s: string, re: RegexEngine) {
    match c
    case Required => |s| < 1
    case MaxLen(n) => |s| > n
    case Pattern(p) => !re.matches(p, s)
  }

  /** The position of a check kind in the builder's fixed order. */
  function Rank(c: Check): nat {
    match c
    case Required => 0
    case MaxLen(_) => 1
    case Pattern(_) => 2
  }

  /** The checks the builder puts on field `f`: one per truthy setting, in the fixed order. */
  function Checks(f: FieldSpec): (checks: seq<Check>)
    ensures Required in checks <==> RequiredTruthy(f)
  {
    (if RequiredTruthy(f) then [Required] else [])
    + (if TruthyMaxLength(f).Some? then [MaxLen(TruthyMaxLength(f).value)] else [])
    + (if TruthyPattern(f).Some? then [Pattern(TruthyPattern(f).value)] else [])
  }

  /** A field has a length check exactly for its truthy `maxlength`, a pattern check exactly for its truthy `pattern`, in rank order. */
  lemma ChecksContents(f: FieldSpec)
    ensures forall n :: MaxLen(n) in Checks(f) <==> TruthyMaxLength(f) == Some(n)
    ensures forall p :: Pattern(p) in Checks(f) <==> TruthyPattern(f) == Some(p)
    ensures forall i, j :: 0 <= i < j < |Checks(f)| ==> Rank(Checks(f)[i]) < Rank(Checks(f)[j])
  {
  }

  /** A field whose truthy pattern does not compile: building its rule throws. */
  predicate BadPattern(f: FieldSpec, re: RegexEngine) {
    TruthyPattern(f).Some? && !re.compiles(TruthyPattern(f).value)
  }

  /** The rule built for one field, or the pattern source whose compilation failed. */
  function BuildRule(f: FieldSpec, re: RegexEngine): (r: Result<Rule, string>)
    ensures r.Failure? <==> BadPattern(f, re)
    ensures r.Failure? ==> Some(r.error) == TruthyPattern(f)
    ensures r.Success? ==> r.value.checks == Checks(f)
  {
    if BadPattern(f, re) then Failure(TruthyPattern(f).value) else Success(Optional(Checks(f)))
  }

  /** Runs every check on `s` and reports each one that fails, in check order. */
  function Run(checks: seq<Check>, s: string, re: RegexEngine): (issues: seq<Issue>)
    ensures |issues| <= |checks|
    ensures forall k :: 0 <= k < |issues| ==>
      issues[k].check in checks && Fails(issues[k].check, s, re) && issues[k].message == Message(issues[k].check)
  {
    if checks == [] then []
    else
      (if Fails(checks[0], s, re) then [Issue(checks[0], Message(checks[0]))] else [])
      + Run(checks[1..], s, re)
  }

  /** Validates a value that may be absent against a rule; an empty result means it passes. */
  function Validate(rule: Rule, value: Option<string>, re: RegexEngine): (issues: seq<Issue>)
    ensures value.None? ==> issues == []
    ensures forall k :: 0 <= k < |issues| ==> issues[k].check in rule.checks
  {
    match value
    case None => []
    case Some(s) => Run(rule.checks, s, re)
  }

  lemma {:induction false} RunPassesIff(checks: seq<Check>, s: string, re: RegexEngine)
    ensures Run(checks, s, re) == [] <==> forall c :: c in checks ==> !Fails(c, s, re)
  {
    if checks != [] {
      RunPassesIff(checks[1..], s, re);
      assert forall c :: c in checks <==> c == checks[0] || c in checks[1..];
    }
  }

  lemma {:induction false} RunReports(checks: seq<Check>, s: string, re: RegexEngine, c: Check)
    ensures Issue(c, Message(c)) in Run(checks, s, re) <==> c in checks && Fails(c, s, re)
  {
    if checks != [] {
      RunReports(checks[1..], s, re, c);
      assert c in checks <==> c == checks[0] || c in checks[1..];
    }
  }

  /** What a field's settings ask of a present string, stated on the field itself. */
  predicate Accepts(f: FieldSpec, s: string, re: RegexEngine) {
    && (RequiredTruthy(f) ==> |s| >= 1)
    && (TruthyMaxLength(f).Some? ==> |s| <= TruthyMaxLength(f).value)
    && (TruthyPattern(f).Some? ==> re.matches(TruthyPattern(f).value, s))
  }

  /** A present string passes the built rule exactly when it meets every truthy setting. */
  lemma FieldRuleAcceptsIff(f: FieldSpec, re: RegexEngine, rule: Rule, s: string)
    requires BuildRule(f, re) == Success(rule)
    ensures Validate(rule, Some(s), re) == [] <==> Accepts(f, s, re)
  {
    RunPassesIff(rule.checks, s, re);
    if TruthyMaxLength(f).Some? {
      assert MaxLen(TruthyMaxLength(f).value) in rule.checks;
    }
    if TruthyPattern(f).Some? {
      assert Pattern(TruthyPattern(f).value) in rule.checks;
    }
  }

  /** "Required" is reported exactly for the empty string on a field with `required` truthy. */
  lemma RequiredSemantics(f: FieldSpec, re: RegexEngine, rule: Rule, value: Option<string>)
    requires BuildRule(f, re) == Success(rule)
    ensures Issue(Required, Some("Required")) in Validate(rule, value, re) <==> RequiredTruthy(f) && value == Some("")
    ensures !RequiredTruthy(f) ==> forall k :: 0 <= k < |Validate(rule, value, re)| ==> Validate(rule, value, re)[k].check != Required
  {
  }

  /** With `maxlength` L truthy, the length check fails exactly for strings longer than L. */
  lemma MaxLengthSemantics(f: FieldSpec, re: RegexEngine, rule: Rule, s: string, limit: int)
    requires BuildRule(f, re) == Success(rule)
    requires TruthyMaxLength(f) == Some(limit)
    ensures Issue(MaxLen(limit), None) in Validate(rule, Some(s), re) <==> |s| > limit
  {
    RunReports(rule.checks, s, re, MaxLen(limit));
  }

  /** With `pattern` P truthy, "Invalid format" is reported exactly when P does not match. */
  lemma PatternSemantics(f: FieldSpec, re: RegexEngine, rule: Rule, s: string, p: string)
    requires BuildRule(f, re) == Success(rule)
    requires TruthyPattern(f) == Some(p)
    ensures Issue(Pattern(p), Some("Invalid format")) in Validate(rule, Some(s), re) <==> !re.matches(p, s)
  {
    RunReports(rule.checks, s, re, Pattern(p));
  }

  /**
   * A field with no truthy setting (no `validations` object, an empty one, or
   * only falsy entries) gets a rule with no checks, which accepts every string.
   */
  lemma NoValidationsAcceptEverything(f: FieldSpec, re: RegexEngine, s: string)
    requires !RequiredTruthy(f) && TruthyMaxLength(f).None? && TruthyPattern(f).None?
    ensures BuildRule(f, re) == Success(Optional([]))
    ensures Validate(BuildRule(f, re).value, Some(s), re) == []
  {
  }

  /** `maxlength: 0` is falsy: it adds no length check, so no string fails one. */
  lemma ZeroMaxLengthAddsNoCheck(f: FieldSpec, re: RegexEngine, rule: Rule, s: string)
    requires f.validations.Some? && f.validations.value.maxlength == Some(0)
    requires BuildRule(f, re) == Success(rule)
    ensures forall k :: 0 <= k < |Validate(rule, Some(s), re)| ==> !Validate(rule, Some(s), re)[k].check.MaxLen?
  {
  }

  /**
   * A twelve-digit identity-number field (required, at most 12 characters, a
   * twelve-digit pattern): "123" is reported only for its format, and a
   * twelve-digit entry passes, for any engine that reads the pattern that way.
   */
  lemma TwelveDigitFieldScenario(re: RegexEngine)
    requires re.compiles("^[0-9]{12}$")
    requires !re.matches("^[0-9]{12}$", "123") && re.matches("^[0-9]{12}$", "123456789012")
    ensures var f := FieldSpec("aadhaar", "Aadhaar Number", None, Text, [],
                               Some(Validations(Some(true), Some(12), Some("^[0-9]{12}$"))));
      && BuildRule(f, re) == Success(Optional([Required, MaxLen(12), Pattern("^[0-9]{12}$")]))
      && Validate(BuildRule(f, re).value, Some("123"), re) == [Issue(Pattern("^[0-9]{12}$"), Some("Invalid format"))]
      && Validate(BuildRule(f, re).value, Some("123456789012"), re) == []
  {
    var p := "^[0-9]{12}$";
    var f := FieldSpec("aadhaar", "Aadhaar Number", None, Text, [], Some(Validations(Some(true), Some(12), Some(p))));
    var checks := [Required, MaxLen(12), Pattern(p)];
    assert TruthyPattern(f) == Some(p) && TruthyMaxLength(f) == Some(12);
    assert Checks(f) == [Required] + [MaxLen(12)] + [Pattern(p)] == checks;
    assert checks[1..] == [MaxLen(12), Pattern(p)] && checks[1..][1..] == [Pattern(p)];
    assert checks[1..][1..][1..] == [];
    assert Run(checks[1..][1..], "123", re) == [Issue(Pattern(p), Some("Invalid format"))];
    assert Run(checks, "123", re) == [Issue(Pattern(p), Some("Invalid format"))];
    assert Run(checks[1..][1..], "123456789012", re) == [];
    assert Run(checks, "123456789012", re) == [];
  }

  /**
   * The length cap a rendered text input enforces: its `maxLength` attribute is
   * `maxlength` as written (not its truthiness), and the browser applies it when
   * it is present and not negative.
   */
  function InputCap(f: FieldSpec): (cap: Option<nat>)
    ensures cap.Some? <==> f.kind == Text && f.validations.Some? && f.validations.value.maxlength.Some?
                           && f.validations.value.maxlength.value >= 0
    ensures cap.Some? ==> cap.value == f.validations.value.maxlength.value
  {
    if f.kind == Text && f.validations.Some? && f.validations.value.maxlength.Some?
       && f.validations.value.maxlength.value >= 0
    then Some(f.validations.value.maxlength.value)
    else None
  }

  /** The text a rendered input holds after the user enters `typed`. */
  function InputValue(f: FieldSpec, typed: string): (held: string)
    ensures |held| <= |typed| && held == typed[..|held|]
    ensures InputCap(f).Some? ==> |held| == if |typed| <= InputCap(f).value then |typed| else InputCap(f).value
    ensures InputCap(f).None? ==> held == typed
  {
    if InputCap(f).Some? && InputCap(f).value < |typed| then typed[..InputCap(f).value] else typed
  }

  /** `maxlength: 0` adds no check, yet the text input it renders holds nothing. */
  lemma ZeroMaxLengthInputHoldsNothing(f: FieldSpec, typed: string)
    requires f.kind == Text && f.validations.Some? && f.validations.value.maxlength == Some(0)
    ensures InputValue(f, typed) == ""
    ensures TruthyMaxLength(f).None?
  {
  }

  /** Text entered through a capped input fails the length check only when the limit is negative (no cap). */
  lemma CappedInputMeetsMaxLength(f: FieldSpec, re: RegexEngine, rule: Rule, typed: string, limit: int)
    requires f.kind == Text
    requires BuildRule(f, re) == Success(rule)
    requires TruthyMaxLength(f) == Some(limit)
    ensures Issue(MaxLen(limit), None) in Validate(rule, Some(InputValue(f, typed)), re) <==> limit < 0
  {
    MaxLengthSemantics(f, re, rule, InputValue(f, typed), limit);
  }

  /**
   * The result of `getZodSchema` on a list of fields, defined by adding the
   * last field to the result for the others: the shape map, or the first
   * pattern source that does not compile.
   */
  function SchemaOf(fields: seq<FieldSpec>, re: RegexEngine): Result<map<string, Rule>, string>
    decreases |fields|
  {
    if fields == [] then Success(map[])
    else
      var init, last := fields[..|fields| - 1], fields[|fields| - 1];
      match SchemaOf(init, re)
      case Failure(p) => Failure(p)
      case Success(shape) =>
        match BuildRule(last, re)
        case Failure(p) => Failure(p)
        case Success(rule) => Success(shape[last.name := rule])
  }

  function Names(fields: seq<FieldSpec>): set<string> {
    set f | f in fields :: f.name
  }

  /** Once a prefix of the fields fails, so do the whole fields, with the same pattern. */
  lemma {:induction false} SchemaFailurePersists(fields: seq<FieldSpec>, re: RegexEngine, n: nat)
    requires n <= |fields|
    requires SchemaOf(fields[..n], re).Failure?
    ensures SchemaOf(fields, re) == SchemaOf(fields[..n], re)
    decreases |fields|
  {
    if n == |fields| {
      assert fields[..n] == fields;
    } else {
      var init := fields[..|fields| - 1];
      assert init[..n] == fields[..n];
      SchemaFailurePersists(init, re, n);
    }
  }

  /** Adding field `i` to a prefix that built: its rule joins the shape, or its pattern is the error. */
  lemma SchemaExtends(fields: seq<FieldSpec>, re: RegexEngine, i: nat)
    requires i < |fields|
    requires SchemaOf(fields[..i], re).Success?
    ensures BadPattern(fields[i], re) ==> SchemaOf(fields[..i + 1], re) == Failure(TruthyPattern(fields[i]).value)
    ensures !BadPattern(fields[i], re) ==>
      SchemaOf(fields[..i + 1], re) == Success(SchemaOf(fields[..i], re).value[fields[i].name := Optional(Checks(fields[i]))])
  {
    assert fields[..i + 1][..i] == fields[..i];
    assert fields[..i + 1][i] == fields[i];
  }

  /** The `forEach` callback: one field's validator, built check by check, or the pattern that throws. */
  method FieldValidator(field: FieldSpec, re: RegexEngine) returns (r: Result<Rule, string>)
    ensures r == BuildRule(field, re)
  {
    var checks: seq<Check> := [];
    if RequiredTruthy(field) {
      checks := checks + [Required];
    }
    var maxlength := TruthyMaxLength(field);
    if maxlength.Some? {
      checks := checks + [MaxLen(maxlength.value)];
    }
    var pattern := TruthyPattern(field);
    if pattern.Some? {
      if !re.compiles(pattern.value) {
        return Failure(pattern.value);
      }
      checks := checks + [Pattern(pattern.value)];
    }
    assert checks == Checks(field);
    return Success(Optional(checks));
  }

  /** The builder loop: one rule per field, a later field with the same name replacing an earlier one. */
  method GetZodSchema(fields: seq<FieldSpec>, re: RegexEngine) returns (r: Result<map<string, Rule>, string>)
    ensures r == SchemaOf(fields, re)
  {
    var shape: map<string, Rule> := map[];
    for i := 0 to |fields|
      invariant SchemaOf(fields[..i], re) == Success(shape)
    {
      var rule := FieldValidator(fields[i], re);
      SchemaExtends(fields, re, i);
      if rule.Failure? {
        SchemaFailurePersists(fields, re, i + 1);
        return Failure(rule.error);
      }
      shape := shape[fields[i].name := rule.value];
    }
    assert fields[..|fields|] == fields;
    return Success(shape);
  }

  /** A built shape has exactly one entry per field name. */
  lemma {:induction false} SchemaKeys(fields: seq<FieldSpec>, re: RegexEngine)
    requires SchemaOf(fields, re).Success?
    ensures SchemaOf(fields, re).value.Keys == Names(fields)
    decreases |fields|
  {
    if fields != [] {
      var init, last := fields[..|fields| - 1], fields[|fields| - 1];
      SchemaKeys(init, re);
      assert fields == init + [last];
      assert Names(fields) == Names(init) + {last.name};
    }
  }

  /** The entry for a name is the rule of the last field carrying that name. */
  lemma {:induction false} SchemaLastWins(fields: seq<FieldSpec>, re: RegexEngine, i: nat)
    requires i < |fields|
    requires SchemaOf(fields, re).Success?
    requires forall j :: i < j < |fields| ==> fields[j].name != fields[i].name
    ensures fields[i].name in SchemaOf(fields, re).value
    ensures SchemaOf(fields, re).value[fields[i].name] == Optional(Checks(fields[i]))
    decreases |fields|
  {
    var init, last := fields[..|fields| - 1], fields[|fields| - 1];
    assert SchemaOf(init, re).Success? && BuildRule(last, re).Success?;
    assert SchemaOf(fields, re).value == SchemaOf(init, re).value[last.name := BuildRule(last, re).value];
    if i < |fields| - 1 {
      assert init[i] == fields[i];
      SchemaLastWins(init, re, i);
    }
  }

  /** No field before index `n` has a bad pattern. */
  predicate NoBadBefore(fields: seq<FieldSpec>, re: RegexEngine, n: nat)
    requires n <= |fields|
  {
    forall j :: 0 <= j < n ==> !BadPattern(fields[j], re)
  }

  /** Building fails exactly when some field has a bad pattern, and reports the first one. */
  lemma {:induction false} SchemaFailsOnFirstBadPattern(fields: seq<FieldSpec>, re: RegexEngine)
    ensures SchemaOf(fields, re).Failure? <==> exists i :: 0 <= i < |fields| && BadPattern(fields[i], re)
    ensures SchemaOf(fields, re).Failure? ==>
      exists i :: 0 <= i < |fields| && BadPattern(fields[i], re) && NoBadBefore(fields, re, i)
        && SchemaOf(fields, re).error == TruthyPattern(fields[i]).value
    decreases |fields|
  {
    if fields != [] {
      var n := |fields| - 1;
      var init, last := fields[..n], fields[n];
      SchemaFailsOnFirstBadPattern(init, re);
      if SchemaOf(init, re).Failure? {
        SchemaFailurePersists(fields, re, n);
        var i :| 0 <= i < |init| && BadPattern(init[i], re) && NoBadBefore(init, re, i)
          && SchemaOf(init, re).error == TruthyPattern(init[i]).value;
        assert fields[i] == init[i];
        assert NoBadBefore(fields, re, i) by {
          forall j | 0 <= j < i ensures !BadPattern(fields[j], re) {
            assert fields[j] == init[j];
          }
        }
      } else {
        SchemaExtends(fields, re, n);
        assert fields[..n + 1] == fields;
        assert NoBadBefore(fields, re, n) by {
          forall j | 0 <= j < n ensures !BadPattern(fields[j], re) {
            assert fields[j] == init[j];
          }
        }
      }
    }
  }

  /** The form's value for a key: absent when the data has no entry for it. */
  function Lookup(data: map<string, string>, key: string): (value: Option<string>)
    ensures value.Some? <==> key in data
    ensures value.Some? ==> value.value == data[key]
  {
    if key in data then Some(data[key]) else None
  }

  /**
   * Parses the form data against an object shape: every key of the shape is
   * validated, keys the shape does not know are dropped, and the result is
   * either the parsed payload or the issues of every failing field.
   */
  function ParseForm(shape: map<string, Rule>, data: map<string, string>, re: RegexEngine)
    : (r: Result<map<string, string>, map<string, seq<Issue>>>)
    ensures r.Success? <==> forall k :: k in shape ==> Validate(shape[k], Lookup(data, k), re) == []
    ensures r.Success? ==> r.value.Keys == shape.Keys * data.Keys && forall k :: k in r.value ==> r.value[k] == data[k]
    ensures r.Failure? ==> forall k :: k in r.error <==> k in shape && Validate(shape[k], Lookup(data, k), re) != []
    ensures r.Failure? ==> forall k :: k in r.error ==> r.error[k] == Validate(shape[k], Lookup(data, k), re)
  {
    var errors := map k | k in shape && Validate(shape[k], Lookup(data, k), re) != [] :: Validate(shape[k], Lookup(data, k), re);
    if errors == map[] then
      assert forall k :: k in shape ==> k !in errors;
      Success(map k | k in shape && k in data :: data[k])
    else
      assert exists k :: k in errors;
      Failure(errors)
  }
}
