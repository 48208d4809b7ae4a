/** The input form (`ProjectInput`): three fields, validated together, submitted to
    the store only when all three pass. */
module ProjectInput {
  import opened Wrappers
  import opened Text
  import opened Models
  import opened Validation
  import opened ProjectState

  /** The entered title and description and the people field read as a number. */
  datatype FormInput = FormInput(title: string, description: string, people: int)

  /** The title's rule: required. */
  function TitleRule(title: string): Validatable {
    Validatable(Str(title), true, None, None, None, None)
  }

  /** The description's rule: required, `length` at least 5 (UTF-16 code units). */
  function DescriptionRule(description: string): Validatable {
    Validatable(Str(description), true, Some(5), None, None, None)
  }

  /** The people field's rule: required, between 1 and 5. */
  function PeopleRule(people: int): Validatable {
    Validatable(Num(people), true, None, None, Some(1), Some(5))
  }

  /** The title passes exactly when it is not all whitespace. */
  lemma TitleRuleMeaning(title: string)
    ensures Validate(TitleRule(title)) <==> !AllSpace(title)
  {
    TrimEmptyIffAllSpace(title);
  }

  /** The description passes exactly when it is not all whitespace and is at least
      5 UTF-16 code units long. */
  lemma DescriptionRuleMeaning(description: string)
    ensures Validate(DescriptionRule(description))
        <==> !AllSpace(description) && Utf16Length(description) >= 5
  {
    TrimEmptyIffAllSpace(description);
  }

  /** The people count passes exactly when it is between 1 and 5. */
  lemma PeopleRuleMeaning(people: int)
    ensures Validate(PeopleRule(people)) <==> 1 <= people <= 5
  {
    RequiredAcceptsEveryNumber(PeopleRule(people));
  }

  /** What the three rules together accept: a title that is not all whitespace, a
      description that is not all whitespace and at least 5 UTF-16 code units long,
      and 1 to 5 people. */
  predicate Acceptable(input: FormInput) {
    && !AllSpace(input.title)
    && !AllSpace(input.description) && Utf16Length(input.description) >= 5
    && 1 <= input.people <= 5
  }

  /** `gatherUserInput`: the three values when all three rules pass, nothing
      otherwise. */
  function GatherUserInput(input: FormInput): (r: Option<FormInput>)
    ensures r.Some? <==> Acceptable(input)
    ensures r.Some? ==> r.value == input
  {
    TitleRuleMeaning(input.title);
    DescriptionRuleMeaning(input.description);
    PeopleRuleMeaning(input.people);
    if !Validate(TitleRule(input.title)) || !Validate(DescriptionRule(input.description))
       || !Validate(PeopleRule(input.people))
    then None
    else Some(input)
  }

  /** What a submit leaves behind: the store, the notifications, and whether the
      form's fields were cleared. */
  datatype Submission<L> = Submission(store: Store<L>, trace: seq<Delivery<L>>, cleared: bool)

  /** `submitHandler`: on valid input, `addProject` with the entered values (`id`
      stands for the generated identifier) and the fields are cleared; on invalid
      input the store, the listeners and the fields are left alone. */
  function SubmitHandler<L>(s: Store<L>, id: string, input: FormInput): (r: Submission<L>)
    ensures r.cleared <==> Acceptable(input)
    ensures !r.cleared ==> r.store == s && r.trace == []
    ensures r.cleared ==>
      Step(r.store, r.trace) == AddProject(s, id, input.title, input.description, input.people)
  {
    match GatherUserInput(input)
    case None => Submission(s, [], false)
    case Some(FormInput(title, description, people)) =>
      var step := AddProject(s, id, title, description, people);
      Submission(step.store, step.trace, true)
  }

  /** A successful submit appends exactly one `ToDo` project carrying the entered
      values; a failed one changes nothing. */
  lemma SubmitAllOrNothing<L>(s: Store<L>, id: string, input: FormInput)
    ensures var r := SubmitHandler(s, id, input);
      if Acceptable(input) then
        r.store.projects
          == s.projects + [Project(id, input.title, input.description, input.people, ToDo)]
      else r.store == s && r.trace == [] && !r.cleared
  {
    var r := SubmitHandler(s, id, input);
    if Acceptable(input) {
      assert r.store.projects == s.projects + [r.store.projects[|s.projects|]];
    }
  }

  /** A description shorter than 5 UTF-16 code units is refused, and the store, the
      listeners and the fields are left as they were. */
  lemma ShortDescriptionRejected<L>(s: Store<L>, id: string, input: FormInput)
    requires Utf16Length(input.description) < 5
    ensures SubmitHandler(s, id, input) == Submission(s, [], false)
  {
  }

  /** "test" is such a description: 4 characters, 4 code units. */
  lemma TestIsTooShort()
    ensures Utf16Length("test") == 4
  {
    Utf16LengthOfBmp("test");
  }

  /** Three U+1F600 characters make a description of 6 UTF-16 code units, so it
      passes the minimum length of 5 although it has only 3 characters. */
  lemma AstralDescriptionAccepted()
    ensures |"\U{1F600}\U{1F600}\U{1F600}"| == 3
    ensures Acceptable(FormInput("Website", "\U{1F600}\U{1F600}\U{1F600}", 3))
  {
    var e := "\U{1F600}";
    Utf16LengthAppend(e, e);
    Utf16LengthAppend(e + e, e);
    assert e + e + e == "\U{1F600}\U{1F600}\U{1F600}";
    assert !IsSpace(e[0]);
    assert !IsSpace("Website"[0]);
  }

  /** Two typical inputs, "Website" / "Build a website" / 3 and "Solo task" /
      "Just me here" / 1, both pass the form's rules. */
  lemma ScenarioInputsAccepted()
    ensures Acceptable(FormInput("Website", "Build a website", 3))
    ensures Acceptable(FormInput("Solo task", "Just me here", 1))
  {
    assert !IsSpace("Website"[0]) && !IsSpace("Build a website"[0]);
    assert !IsSpace("Solo task"[0]) && !IsSpace("Just me here"[0]);
  }

  /** Input whose title and description start with a non-whitespace character, with
      a long enough description and 1 to 5 people, is accepted. */
  lemma StartsWithNonSpaceAccepted(input: FormInput)
    requires |input.title| > 0 && !IsSpace(input.title[0])
    requires |input.description| >= 5 && !IsSpace(input.description[0])
    requires 1 <= input.people <= 5
    ensures GatherUserInput(input).Some?
  {
    Utf16LengthBounds(input.description);
  }
}
