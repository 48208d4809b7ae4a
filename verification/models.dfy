/** The board's data model: the four project statuses and the project record. */
module Models {

  /** `ProjectStatus`: exactly four values, with no ordering or transition rule between
      them. */
  datatype Status = ToDo | Active | Qa | Finished

  /** `Project`: the constructor stores its five arguments unchanged. `id` is opaque
      text chosen by the caller; only `status` is ever changed after construction,
      and only by the project store. */
  datatype Project = Project(
    id: string,
    title: string,
    description: string,
    people: int,
    status: Status)

  /** The ids of a sequence of projects, in order. */
  function Ids(ps: seq<Project>): (r: seq<string>)
    ensures |r| == |ps|
    ensures forall i :: 0 <= i < |ps| ==> r[i] == ps[i].id
  {
    if |ps| == 0 then [] else Ids(ps[..|ps| - 1]) + [ps[|ps| - 1].id]
  }

  /** No two projects of `ps` share an id. */
  predicate UniqueIds(ps: seq<Project>) {
    forall i, j :: 0 <= i < |ps| && 0 <= j < |ps| && ps[i].id == ps[j].id ==> i == j
  }

  /** No project of `ps` has the id `id`. */
  predicate FreshId(ps: seq<Project>, id: string) {
    forall i :: 0 <= i < |ps| ==> ps[i].id != id
  }
}
