/** An item (`ProjectItem`): the rendered summary of one project inside a lane and
    the origin of a drag. It only reads its project. */
module ProjectItem {
  import opened Models
  import opened Text

  /** An item holds the project it renders. */
  datatype ItemView = ItemView(project: Project)

  /** The `persons` getter: "1 person" for exactly one person, otherwise the number
      in decimal followed by " persons". */
  function Persons(people: int): (r: string)
    ensures r == "1 person" <==> people == 1
    ensures people != 1 ==> |r| > |" persons"| && r[|r| - |" persons"|..] == " persons"
    ensures people >= 0 && people != 1 ==>
      var count := r[..|r| - |" persons"|];
      (forall i :: 0 <= i < |count| ==> IsDigit(count[i])) && ParseNat(count) == people
    ensures people < 0 ==>
      var count := r[..|r| - |" persons"|];
      count[0] == '-' && (forall i :: 1 <= i < |count| ==> IsDigit(count[i]))
      && ParseNat(count[1..]) == -people
    ensures people != 1 ==>
      var count := r[..|r| - |" persons"|];
      (count[0] == '0' ==> |count| == 1) && (count[0] == '-' ==> count[1] != '0')
  {
    if people == 1 then "1 person"
    else
      var count := IntToString(people);
      assert (count + " persons")[..|count|] == count;
      count + " persons"
  }

  /** The label determines the count: different counts never share a label. */
  lemma PersonsInjective(a: int, b: int)
    requires Persons(a) == Persons(b)
    ensures a == b
  {
    if a != 1 && b != 1 {
      var la, lb := IntToString(a), IntToString(b);
      assert la == Persons(a)[..|la|];
      assert |la| == |lb|;
      assert lb == Persons(b)[..|lb|];
      IntToStringInjective(a, b);
    }
  }

  /** The data a drag started on an item carries. */
  datatype DragData = DragData(format: string, data: string, effectAllowed: string)

  /** `dragStartHandler`: the project's id, under `text/plain`, offered as a move. */
  function DragStart(item: ItemView): (d: DragData)
    ensures d.data == item.project.id
    ensures d.format == "text/plain" && d.effectAllowed == "move"
  {
    DragData("text/plain", item.project.id, "move")
  }

  /** The label for three people reads "3 persons"; for one, "1 person". */
  lemma PersonsExamples()
    ensures Persons(3) == "3 persons"
    ensures Persons(1) == "1 person"
  {
  }
}
