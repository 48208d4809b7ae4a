/** The form-field validator: a value checked against a set of optional constraints. */
module Validation {
  import opened Wrappers
  import opened Text

  /** The validated value, `string | number`; numbers are integers in this model. */
  datatype Value = Str(s: string) | Num(n: int)

  /** `Validatable`: the value plus its optional constraints. An absent `required` is
      falsy, so it is a plain flag; the four bounds are present or absent. */
  datatype Validatable = Validatable(
    value: Value,
    required: bool,
    minLength: Option<int>,
    maxLength: Option<int>,
    min: Option<int>,
    max: Option<int>)

  /** A value with no constraints at all. */
  function Unconstrained(value: Value): Validatable {
    Validatable(value, false, None, None, None, None)
  }

  /** `value.toString()`. */
  function AsText(value: Value): string {
    match value
    case Str(s) => s
    case Num(n) => IntToString(n)
  }

  /** True when the value's text is empty after trimming. */
  predicate IsBlank(value: Value) {
    |Trim(AsText(value))| == 0
  }

  /** `validate`: starts from `true` and, constraint by constraint in the order the
      code checks them, conjoins each constraint that is present and applicable to
      the value's type. */
  function Validate(v: Validatable): (r: bool)
    ensures v.required && IsBlank(v.value) ==> !r
    ensures v.value.Str? && v.minLength.Some? && Utf16Length(v.value.s) < v.minLength.value ==> !r
    ensures v.value.Str? && v.maxLength.Some? && Utf16Length(v.value.s) > v.maxLength.value ==> !r
    ensures v.value.Num? && v.min.Some? && v.value.n < v.min.value ==> !r
    ensures v.value.Num? && v.max.Some? && v.value.n > v.max.value ==> !r
  {
    var isValid := true;
    var isValid := if v.required then isValid && !IsBlank(v.value) else isValid;
    var isValid :=
      if v.minLength.Some? && v.value.Str? then isValid && Utf16Length(v.value.s) >= v.minLength.value
      else isValid;
    var isValid :=
      if v.maxLength.Some? && v.value.Str? then isValid && Utf16Length(v.value.s) <= v.maxLength.value
      else isValid;
    var isValid :=
      if v.min.Some? && v.value.Num? then isValid && v.value.n >= v.min.value else isValid;
    var isValid :=
      if v.max.Some? && v.value.Num? then isValid && v.value.n <= v.max.value else isValid;
    isValid
  }

  /** One constraint of a `Validatable`, as a value in its own right. */
  datatype Constraint = Required | MinLength(n: int) | MaxLength(n: int) | Min(n: int) | Max(n: int)

  /** The constraints present in `v`. */
  function Constraints(v: Validatable): set<Constraint> {
    (if v.required then {Required} else {}) +
    (if v.minLength.Some? then {MinLength(v.minLength.value)} else {}) +
    (if v.maxLength.Some? then {MaxLength(v.maxLength.value)} else {}) +
    (if v.min.Some? then {Min(v.min.value)} else {}) +
    (if v.max.Some? then {Max(v.max.value)} else {})
  }

  /** Length bounds apply to text only, numeric bounds to numbers only. */
  predicate Applies(c: Constraint, value: Value) {
    match c
    case Required => true
    case MinLength(_) => value.Str?
    case MaxLength(_) => value.Str?
    case Min(_) => value.Num?
    case Max(_) => value.Num?
  }

  /** What each constraint demands of a value it applies to. */
  predicate Holds(c: Constraint, value: Value) {
    match c
    case Required => !IsBlank(value)
    case MinLength(n) => value.Str? && Utf16Length(value.s) >= n
    case MaxLength(n) => value.Str? && Utf16Length(value.s) <= n
    case Min(n) => value.Num? && value.n >= n
    case Max(n) => value.Num? && value.n <= n
  }

  /** True when constraint `c`'s field is absent from `v`. */
  predicate Lacks(v: Validatable, c: Constraint) {
    match c
    case Required => !v.required
    case MinLength(_) => v.minLength.None?
    case MaxLength(_) => v.maxLength.None?
    case Min(_) => v.min.None?
    case Max(_) => v.max.None?
  }

  /** `v` with the field of constraint `c` set. */
  function With(v: Validatable, c: Constraint): (r: Validatable)
    ensures r.value == v.value
  {
    match c
    case Required => v.(required := true)
    case MinLength(n) => v.(minLength := Some(n))
    case MaxLength(n) => v.(maxLength := Some(n))
    case Min(n) => v.(min := Some(n))
    case Max(n) => v.(max := Some(n))
  }

  /** Every present constraint that applies to the value's type. */
  ghost predicate AllApplicableHold(v: Validatable) {
    forall c :: c in Constraints(v) && Applies(c, v.value) ==> Holds(c, v.value)
  }

  /** True when `v` carries constraint `c`, with the same bound. */
  predicate Present(v: Validatable, c: Constraint) {
    match c
    case Required => v.required
    case MinLength(n) => v.minLength == Some(n)
    case MaxLength(n) => v.maxLength == Some(n)
    case Min(n) => v.min == Some(n)
    case Max(n) => v.max == Some(n)
  }

  /** The constraints of `v` are exactly those it carries. */
  lemma ConstraintsArePresent(v: Validatable, c: Constraint)
    ensures c in Constraints(v) <==> Present(v, c)
  {
  }

  /** An accepted value satisfies a constraint it carries, if the constraint applies. */
  lemma AcceptedSatisfiesOne(v: Validatable, c: Constraint)
    requires Validate(v) && Present(v, c) && Applies(c, v.value)
    ensures Holds(c, v.value)
  {
  }

  /** An accepted value satisfies every present constraint that applies to it. */
  lemma AcceptedSatisfiesAll(v: Validatable)
    requires Validate(v)
    ensures AllApplicableHold(v)
  {
    forall c | c in Constraints(v) && Applies(c, v.value)
      ensures Holds(c, v.value)
    {
      ConstraintsArePresent(v, c);
      AcceptedSatisfiesOne(v, c);
    }
  }

  /** A rejected value violates some present constraint that applies to it. */
  lemma RejectedViolatesOne(v: Validatable)
    requires !Validate(v)
    ensures !AllApplicableHold(v)
  {
    var cs := Constraints(v);
    if v.required && IsBlank(v.value) {
      assert Required in cs;
    } else if v.minLength.Some? && v.value.Str? && Utf16Length(v.value.s) < v.minLength.value {
      assert MinLength(v.minLength.value) in cs;
    } else if v.maxLength.Some? && v.value.Str? && Utf16Length(v.value.s) > v.maxLength.value {
      assert MaxLength(v.maxLength.value) in cs;
    } else if v.min.Some? && v.value.Num? && v.value.n < v.min.value {
      assert Min(v.min.value) in cs;
    } else {
      assert Max(v.max.value) in cs;
    }
  }

  /** The verdict is the conjunction of the checks of every present constraint that
      applies to the value's type. */
  lemma ValidateIsConjunction(v: Validatable)
    ensures Validate(v) <==> AllApplicableHold(v)
  {
    if Validate(v) {
      AcceptedSatisfiesAll(v);
    } else {
      RejectedViolatesOne(v);
    }
  }

  /** With no constraint present, every value is valid. */
  lemma UnconstrainedIsValid(value: Value)
    ensures Validate(Unconstrained(value))
  {
  }

  /** Adding a constraint that was absent never turns a rejection into an acceptance;
      the new verdict is the old one conjoined with the new constraint's check. */
  lemma AddingConstraintOnlyRestricts(v: Validatable, c: Constraint)
    requires Lacks(v, c)
    ensures Validate(With(v, c)) <==> Validate(v) && (Applies(c, v.value) ==> Holds(c, v.value))
    ensures !Validate(v) ==> !Validate(With(v, c))
  {
    var w := With(v, c);
    assert Constraints(w) == Constraints(v) + {c};
    ValidateIsConjunction(v);
    ValidateIsConjunction(w);
  }

  /** `minLength` and `maxLength` are ignored for numbers. */
  lemma LengthBoundsIgnoredForNumbers(v: Validatable, lo: Option<int>, hi: Option<int>)
    requires v.value.Num?
    ensures Validate(v.(minLength := lo, maxLength := hi)) == Validate(v)
  {
  }

  /** `min` and `max` are ignored for strings. */
  lemma NumericBoundsIgnoredForStrings(v: Validatable, lo: Option<int>, hi: Option<int>)
    requires v.value.Str?
    ensures Validate(v.(min := lo, max := hi)) == Validate(v)
  {
  }

  /** `required` never rejects a number: its decimal text is never blank. */
  lemma RequiredAcceptsEveryNumber(v: Validatable)
    requires v.value.Num?
    ensures Validate(v) == Validate(v.(required := false))
  {
    IntToStringNotBlank(v.value.n);
    assert !IsBlank(v.value);
    RequiredIrrelevantWhenNotBlank(v);
  }

  /** `required` decides nothing for a value that is not blank. */
  lemma RequiredIrrelevantWhenNotBlank(v: Validatable)
    requires !IsBlank(v.value)
    ensures Validate(v) == Validate(v.(required := false))
  {
  }

  /** `required` rejects exactly the strings made only of whitespace. */
  lemma RequiredRejectsOnlyBlankText(s: string)
    ensures Validate(Unconstrained(Str(s)).(required := true)) <==> !AllSpace(s)
  {
    TrimEmptyIffAllSpace(s);
  }

  /** The description rule of the input form, required with a minimum length of 5,
      rejects "test" and accepts "Build a website". */
  lemma DescriptionRuleExamples()
    ensures !Validate(Validatable(Str("test"), true, Some(5), None, None, None))
    ensures Validate(Validatable(Str("Build a website"), true, Some(5), None, None, None))
  {
    Utf16LengthOfBmp("test");
    LongTextAccepted("Build a website", 5);
  }

  /** A text starting with a non-whitespace character and at least `n` characters
      long passes a required rule with minimum length `n` (its UTF-16 length is at
      least its number of characters). */
  lemma LongTextAccepted(s: string, n: int)
    requires |s| >= n && |s| > 0 && !IsSpace(s[0])
    ensures Validate(Validatable(Str(s), true, Some(n), None, None, None))
  {
    Utf16LengthBounds(s);
    TrimEmptyIffAllSpace(s);
  }
}
