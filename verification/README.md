# Project board: verified model of the state layer

This project models the client-side core of a small project board written in
TypeScript. Users create projects through a form. The board shows them in four
status lanes (To Do, Active, QA, Finished). Dragging a project onto a lane moves it
to that lane's status.

The model covers:

- the project store (`ProjectState`): an ordered sequence of projects and an ordered
  list of listeners. `addProject` appends a `ToDo` project. `moveProject` changes the
  status of the first project with a given id. Every successful mutation calls every
  listener, in registration order, with a copy of the projects array.
- the lanes (`ProjectList`): the drop handler's lane-to-status mapping, and the
  listener that replaces the lane's `assignedProjects` with the snapshot filtered to
  the lane's status.
- the validator (`validate`): a conjunction of optional constraints over a
  `string | number` value.
- the item view's `persons` label and drag payload (`ProjectItem`).
- the form's all-or-nothing submit rule (`gatherUserInput` / `submitHandler`).
- the page: one store shared by the form and four lanes, wired as the bootstrap wires
  them.

Everything is written as immutable datatypes and pure functions. A mutation returns
a `Step`: the new store plus the trace of listener calls it made, one `Delivery`
(listener, snapshot) per call. "Every listener is notified once, in order, with the
current projects" is then the predicate `Broadcast` on that trace. The `Page` module
connects the trace to the lanes and proves the property the subscription mechanism
exists for: after every submit and every drop, each lane shows exactly the store's
projects of its status, in store order (`Consistent`).

Modules, one per source component:

| file | module | models |
|---|---|---|
| wrappers.dfy | `Wrappers` | `Option`, for optional fields and lookups that may miss |
| text.dfy | `Text` | `String.prototype.trim` and the decimal rendering of an integer |
| models.dfy | `Models` | `ProjectStatus`, `Project` |
| validation.dfy | `Validation` | `Validatable`, `validate` |
| project_state.dfy | `ProjectState` | `State<T>`, `ProjectState` |
| project_list.dfy | `ProjectList` | `ProjectList` (lane) |
| project_item.dfy | `ProjectItem` | `ProjectItem` (item view) |
| project_input.dfy | `ProjectInput` | `ProjectInput` (form) |
| page.dfy | `Page` | the bootstrap and the wiring between store and lanes |

The code's actual behaviour, which the model follows, differs from what one might assume in these places:

- A project's id comes from `Math.random().toString()`. Nothing guarantees it is
  unique. `AddProject` takes the id as a parameter and does not require it to be
  fresh. `MutationsPreserveUniqueIds` shows that uniqueness is kept when the caller
  supplies a fresh id.
- The title rule is "not blank after trimming", not "non-empty". The description
  must be at least 5 long and also not blank.
- Lengths are JavaScript's `length`: UTF-16 code units, not characters. A character
  outside the Basic Multilingual Plane (an emoji, say) counts twice, so a
  description of three such characters passes the minimum length of 5
  (`AstralDescriptionAccepted`).
- A `moveProject` whose id matches nothing notifies nobody. The notification call
  sits inside the `if (project)` branch.
- A move to the status a project already has still notifies every listener.
- The drop handler and the listener filter decide the status by two different
  `if` chains. The drop handler falls back to `ToDo` and the filter falls back to
  `Finished`. The lane type admits only the four lane names, so both fallbacks are
  reached only by their own lane. `DropStatus` proves that the two agree on every
  lane.
- A lane's constructor sets `assignedProjects` to empty and does not read the store.
  A lane mounted while the store holds projects of its status would show nothing
  until the next mutation. `MountConsistentIff` states exactly when mounting keeps
  the page consistent. The bootstrap mounts all four lanes before any project
  exists, so the page starts consistent (`Startup`).

## Model

| member | source | states |
|---|---|---|
| Text.TrimEmptyIffAllSpace | src/util/validation.ts:14 | `trim()` yields the empty string exactly when the text consists only of whitespace |
| Text.TrimIsSlice | src/util/validation.ts:14 | `trim()` returns a contiguous slice of its input, and everything cut off on either side is whitespace |
| Text.Trim | src/util/validation.ts:14 | `trim()` never lengthens its input, and a non-empty result neither starts nor ends with whitespace |
| Text.NatRoundTrip | src/app.ts:182 | reading back the decimal rendering of a count gives the count |
| Text.IntToString | src/app.ts:182 | the rendering is non-empty, starts with '-' exactly for negative numbers, and otherwise consists of digits, with no leading zero; reading the digits back gives the number's magnitude |
| Text.IntToStringInjective | src/app.ts:182 | two different integers never render to the same text |
| Text.Utf16LengthBounds | src/util/validation.ts:18 | a text's `length` is at least its number of characters and at most twice that |
| Text.Utf16LengthOfBmp | src/util/validation.ts:18 | a text of Basic Multilingual Plane characters has `length` equal to its number of characters |
| Text.Utf16LengthAppend | src/util/validation.ts:18 | the `length` of a concatenation is the sum of the lengths |
| Text.AstralCharLength | src/util/validation.ts:18 | the single character U+1F600 has `length` 2 |
| Text.IntToStringNotBlank | src/util/validation.ts:14 | a number's text is never blank after trimming |
| Validation.Validate | src/util/validation.ts:11-34 | each present and applicable constraint that the value violates makes the result false: blank text under `required`, text with too few or too many UTF-16 code units under `minLength`/`maxLength`, a number below `min` or above `max` |
| Validation.ValidateIsConjunction | src/util/validation.ts:12-33 | the result is true exactly when every present constraint that applies to the value's type holds |
| Validation.ConstraintsArePresent | src/util/validation.ts:2-9 | a constraint is among a `Validatable`'s constraints exactly when its field is set to that bound |
| Validation.AcceptedSatisfiesOne | src/util/validation.ts:12-33 | an accepted value satisfies each constraint it carries that applies to its type |
| Validation.AcceptedSatisfiesAll | src/util/validation.ts:12-33 | an accepted value satisfies every present, applicable constraint |
| Validation.RejectedViolatesOne | src/util/validation.ts:12-33 | a rejected value violates at least one present, applicable constraint |
| Validation.UnconstrainedIsValid | src/util/validation.ts:12-33 | with no constraint present, every value is valid |
| Validation.AddingConstraintOnlyRestricts | src/util/validation.ts:12-33 | adding an absent constraint conjoins its check with the old verdict, so it never turns a rejection into an acceptance |
| Validation.LengthBoundsIgnoredForNumbers | src/util/validation.ts:17-23 | `minLength` and `maxLength` have no effect on a numeric value |
| Validation.NumericBoundsIgnoredForStrings | src/util/validation.ts:25-31 | `min` and `max` have no effect on a text value |
| Validation.RequiredAcceptsEveryNumber | src/util/validation.ts:13-15 | `required` never rejects a number |
| Validation.RequiredIrrelevantWhenNotBlank | src/util/validation.ts:13-15 | for a value that is not blank, `required` does not change the verdict |
| Validation.RequiredRejectsOnlyBlankText | src/util/validation.ts:13-15 | `required` alone rejects a text exactly when it is all whitespace |
| Validation.DescriptionRuleExamples | src/util/validation.ts:17-19 | required with minimum length 5 rejects "test" and accepts "Build a website" |
| Validation.LongTextAccepted | src/util/validation.ts:13-19 | a text that starts with a non-whitespace character and reaches the minimum length passes a required, minimum-length rule |
| ProjectState.NewStore | src/app.ts:34-47 | a new store has no projects and no listeners |
| ProjectState.Notify | src/app.ts:80-84 | `updateListeners` calls each listener exactly once, in registration order, each time with the same snapshot |
| ProjectState.AddListener | src/app.ts:36-38 | the listener is appended at the end; earlier listeners keep their order, the projects are untouched |
| ProjectState.FindIndex | src/app.ts:72 | `find` reports a miss exactly when no project has the id, and otherwise the first position holding it |
| ProjectState.AddProject | src/app.ts:58-69 | the sequence grows by one, the old sequence is an unchanged prefix, the new last project carries the arguments and status `ToDo`, and every listener is called once in order with the new sequence |
| ProjectState.MoveProject | src/app.ts:71-78 | with no matching id the store is unchanged and nobody is called; otherwise only the first matching project gets the new status and every listener is called once in order with the new sequence |
| ProjectState.MoveChangesOnlyThatStatus | src/app.ts:71-78 | a move keeps the length, the order, every other project, the moved project's other fields, and every id |
| ProjectState.MoveToSameStatusStillNotifies | src/app.ts:74-77 | a move to the current status leaves the store as it was but still calls every listener |
| ProjectState.AddKeepsIdsUnique | src/app.ts:58-69 | an add with an id no stored project has keeps all ids distinct |
| ProjectState.MoveKeepsIdsUnique | src/app.ts:71-78 | a move keeps every id in its place, so distinct ids stay distinct |
| ProjectState.MutationsPreserveUniqueIds | src/app.ts:58-78 | a move never introduces a duplicate id; an add with a fresh id never does either |
| ProjectState.AddAllGrowsByCount | src/app.ts:58-69 | after N adds the store holds N more projects, the old ones first, the i-th new one built from the i-th call with status `ToDo` |
| ProjectList.DropStatus | src/components/project-list.ts:38-55 | a drop onto a lane requests exactly the status that the same lane's listener filters on, and different lanes request different statuses |
| ProjectList.ListenStatus | src/components/project-list.ts:64-72 | each lane's filter keeps a status of its own: the lane for that status is the lane itself, so no two lanes keep the same status |
| ProjectList.EveryStatusHasALane | src/components/project-list.ts:64-72 | every status is kept by some lane's filter |
| ProjectList.NewLane | src/components/project-list.ts:13-16 | a lane starts with no assigned projects |
| ProjectList.Filter | src/components/project-list.ts:63-73 | the filtered snapshot is never longer than the snapshot |
| ProjectList.FilterMembers | src/components/project-list.ts:63-73 | the filtered snapshot holds exactly the snapshot's projects of the given status |
| ProjectList.OnNotify | src/components/project-list.ts:62-76 | after a notification the lane holds exactly the snapshot's projects of its status |
| ProjectList.OnNotifyForgetsEarlierCache | src/components/project-list.ts:74 | the cache after a notification does not depend on what was cached before |
| ProjectList.FilterAppend | src/components/project-list.ts:63-73 | filtering distributes over concatenation, so it keeps snapshot order |
| ProjectList.FilterSingleton | src/components/project-list.ts:63-73 | a one-project snapshot is kept exactly when its status matches |
| ProjectList.FilterCount | src/components/project-list.ts:63-73 | filtering keeps every copy of a matching project and drops every copy of another |
| ProjectList.CountAcrossLanes | src/components/project-list.ts:63-73 | each project occurs in the four lanes together as often as in the snapshot |
| ProjectList.LanesPartition | src/components/project-list.ts:63-73 | the four lanes' subsets together form exactly the snapshot, as a multiset |
| ProjectList.LaneSizesSumToLength | src/components/project-list.ts:63-73 | the four lanes' sizes add up to the snapshot's length |
| ProjectList.InExactlyOneLane | src/components/project-list.ts:63-73 | a project of the snapshot is in a lane's subset exactly when the lane is the one for its status |
| ProjectItem.Persons | src/app.ts:178-184 | the label is "1 person" exactly when there is one person; otherwise it ends in " persons" and the text before that is the count in decimal with no leading zero (a minus sign, then the digits of its magnitude, for a negative count) |
| ProjectItem.PersonsInjective | src/app.ts:178-184 | different person counts never produce the same label |
| ProjectItem.PersonsExamples | src/app.ts:178-184 | three people read "3 persons", one reads "1 person" |
| ProjectItem.DragStart | src/app.ts:195-198 | a drag carries the project's id under `text/plain`, offered as a move |
| ProjectInput.TitleRuleMeaning | src/app.ts:336-339 | the title passes exactly when it is not all whitespace |
| ProjectInput.DescriptionRuleMeaning | src/app.ts:341-345 | the description passes exactly when it is not all whitespace and is at least 5 UTF-16 code units long |
| ProjectInput.PeopleRuleMeaning | src/app.ts:347-352 | the people count passes exactly when it is between 1 and 5 |
| ProjectInput.GatherUserInput | src/app.ts:331-364 | the input is returned unchanged exactly when the title is not all whitespace, the description is not all whitespace and is at least 5 UTF-16 code units long, and there are 1 to 5 people; otherwise nothing is returned |
| ProjectInput.SubmitHandler | src/app.ts:366-376 | the fields are cleared exactly when the input passes; a refused submit leaves the store alone and calls nobody; an accepted one is `addProject` with the entered values |
| ProjectInput.SubmitAllOrNothing | src/app.ts:354-376 | an accepted submit appends exactly one `ToDo` project with the entered title, description and people; a refused one changes nothing |
| ProjectInput.ShortDescriptionRejected | src/app.ts:341-376 | a description shorter than 5 UTF-16 code units is refused: nothing is cleared, the store stays as it was and no listener is called |
| ProjectInput.TestIsTooShort | src/app.ts:341-345 | "test" is 4 code units long, so it is such a description |
| ProjectInput.AstralDescriptionAccepted | src/app.ts:341-345 | a description of three U+1F600 characters (6 code units) passes the minimum length of 5 |
| ProjectInput.StartsWithNonSpaceAccepted | src/app.ts:331-364 | title and description starting with a non-whitespace character, a description of at least 5 characters and 1 to 5 people are accepted |
| ProjectInput.ScenarioInputsAccepted | src/app.ts:331-364 | "Website" / "Build a website" / 3 and "Solo task" / "Just me here" / 1 both satisfy all three rules |
| Page.Deliver | src/components/project-list.ts:62-76 | running a trace through the lanes' callbacks keeps the number and the types of the lanes, and an empty trace leaves them untouched |
| Page.Mount | src/components/project-list.ts:13-20 | constructing a lane appends an empty lane of the given type after the existing ones and its listener after the existing listeners, leaving the projects alone |
| Page.Submit | src/app.ts:366-376 | a refused submit leaves the page as it was; an accepted one appends the entered `ToDo` project; lanes stay wired to their listeners |
| Page.Drop | src/components/project-list.ts:38-55 | a drop asks the store to move the payload's project to the status the target lane's filter keeps; a payload naming no project leaves the page as it was; lanes stay wired |
| Page.Startup | src/app.ts:379-382 | the bootstrap yields an empty store, four empty lanes in the order todo, active, qa, finished, each wired to its listener, and a consistent page |
| Page.BroadcastMakesConsistent | src/app.ts:270-284 | once every lane's listener has received the current projects, every lane shows exactly the projects of its status |
| Page.MountConsistentIff | src/components/project-list.ts:13-20 | mounting a lane keeps the page consistent exactly when the store has no project of that lane's status |
| Page.SubmitKeepsConsistent | src/app.ts:367-376 | a submit, accepted or refused, leaves every lane consistent with the store |
| Page.DropKeepsConsistent | src/components/project-list.ts:38-76 | a drop, whether or not its payload names a project, leaves every lane consistent with the store |
| Page.DropOfUnknownIdChangesNothing | src/components/project-list.ts:39-54 | a drop whose payload names no project changes nothing on the page |
| Page.DragAndDropShowsProjectOnlyInTarget | src/components/project-list.ts:38-76 | dragging a stored project onto a lane changes only that project's status, and the moved project is then shown by the lanes of the target's type and by no other lane |
| Page.LanesShowEveryProjectOnce | src/app.ts:379-382 | on the bootstrapped page the four lanes together show every stored project exactly as often as the store holds it |
| Page.ValidSubmitShows | src/app.ts:367-376 | an accepted submit on the bootstrapped page appends the entered project and keeps every lane consistent |
| Page.ShowsLane | src/app.ts:270-284 | on the bootstrapped page the i-th lane shows the store filtered to the i-th lane's status |
| Page.DropShows | src/components/project-list.ts:38-55 | dropping the id of the first project with that id onto a lane sets that project's status to the lane's status and keeps the page consistent |
| Page.TwoSubmitsShow | src/app.ts:58-69 | two accepted submits on the fresh page store the two projects in submission order |
| Page.DropScenarioStep | src/components/project-list.ts:38-76 | with two `ToDo` projects, dropping the second onto the Active lane leaves it alone in Active and the first alone in To Do, with QA and Finished empty |
| Page.TwoProjectsScenario | src/app.ts:246-284 | adding two projects through the form and dropping the second onto the Active lane leaves the Active lane showing only the second and the To Do lane only the first |
| Page.TodoActiveLanes | src/app.ts:270-284 | with a `ToDo` project followed by an `Active` one, the To Do lane shows only the first, the Active lane only the second, QA and Finished nothing |
| Page.PairLanes | src/app.ts:270-284 | on the bootstrapped page with two projects, each lane shows those of its status, in order |
| Page.FilterPair | src/app.ts:271-281 | filtering a two-project snapshot keeps the matching ones, in order |

## Left out

- The `Component` base class, template cloning and `insertAdjacentElement`: DOM I/O.
  A missing template or host element is not modelled.
- `renderContent`, `renderProjects` and the item's `renderContent`: they rebuild DOM
  nodes from `assignedProjects` and the project fields. Only the data they read is
  modelled.
- `dragOverHandler` and `dragLeaveHandler`: they toggle a CSS class and decide
  whether the browser offers the drop. They change no data. A drop is modelled as
  happening.
- `dragEndHandler` (`console.log`) and `alert`: output only.
- `clearInputs`: the form's fields are not modelled. `SubmitHandler` reports whether
  they were cleared.
- The `autobind` decorator: JavaScript `this`-binding, no data semantics.
- `Math.random().toString()`: the id is a parameter of `AddProject`.
- JavaScript numbers: people and numeric values are integers. The `+enteredPeople`
  coercion (empty text to 0, NaN, fractions) is not modelled; the form receives the
  already-converted number.
- Listeners are arbitrary callbacks in the code. The store never inspects them, so
  here a listener is an identity of type `L`. On the page, the listener is the lane
  that registered it.
- The `getInstance` singleton: the page holds exactly one store by construction.
- dist/bundle.js, dist/util/validation.js and dist/models/project.js: compiled copies
  of the TypeScript sources.
- Text.IsSpace: covers space, tab, line feed, carriage return, vertical tab, form
  feed, no-break space and the byte-order mark. JavaScript's `trim` also removes the
  other Unicode space separators and line terminators.
- Text.IntToString: renders integers in plain decimal. JavaScript switches to
  exponent notation for magnitudes of 1e21 and above.
- Strings are sequences of Unicode scalar values. A JavaScript string holding an
  unpaired surrogate (a lone UTF-16 code unit such as U+D800) has no counterpart
  here, so such titles and descriptions are outside the model.
- Shared `Project` objects: `updateListeners` hands each listener a copy of the
  projects array, but the `Project` objects in it are the store's own, and
  `moveProject` changes `status` in place. In the code a lane's cached array thus
  sees a new status before its own callback runs. The model uses values and
  states the lanes only after a whole broadcast, where the two agree.
