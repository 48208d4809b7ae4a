/** The project store (`ProjectState` with its `State<T>` base): the ordered
    sequence of projects and the ordered list of listeners, with the two mutations
    that change the sequence and broadcast it. Mutations are pure functions returning
    the new store together with the notifications they delivered. */
module ProjectState {
  import opened Wrappers
  import opened Models

  /** The store. `L` identifies a registered listener callback; the code keeps the
      callbacks in an array and invokes them in array order. */
  datatype Store<L> = Store(projects: seq<Project>, listeners: seq<L>)

  /** One listener invocation: the listener called and the snapshot it received. */
  datatype Delivery<L> = Delivery(listener: L, snapshot: seq<Project>)

  /** The result of a mutation: the new store and the invocations made, in order. */
  datatype Step<L> = Step(store: Store<L>, trace: seq<Delivery<L>>)

  /** A freshly constructed store: no projects, no listeners. */
  function NewStore<L>(): (s: Store<L>)
    ensures |s.projects| == 0 && |s.listeners| == 0
  {
    Store([], [])
  }

  /** `trace` invokes each listener of `listeners` exactly once, in registration
      order, each time with `snapshot`. */
  ghost predicate Broadcast<L>(trace: seq<Delivery<L>>, listeners: seq<L>, snapshot: seq<Project>) {
    && |trace| == |listeners|
    && forall i :: 0 <= i < |trace| ==> trace[i] == Delivery(listeners[i], snapshot)
  }

  /** `updateListeners`: calls every listener with a copy of the current projects. */
  function Notify<L>(listeners: seq<L>, snapshot: seq<Project>): (r: seq<Delivery<L>>)
    ensures Broadcast(r, listeners, snapshot)
  {
    if |listeners| == 0 then []
    else [Delivery(listeners[0], snapshot)] + Notify(listeners[1..], snapshot)
  }

  /** `addListener`: appends the listener; the projects are untouched and nobody is
      notified. */
  function AddListener<L>(s: Store<L>, listener: L): (r: Store<L>)
    ensures r.projects == s.projects
    ensures |r.listeners| == |s.listeners| + 1
    ensures r.listeners[..|s.listeners|] == s.listeners
    ensures r.listeners[|s.listeners|] == listener
  {
    s.(listeners := s.listeners + [listener])
  }

  /** `projects.find(prj => prj.id === id)`, as the position of the first match. */
  function FindIndex(ps: seq<Project>, id: string): (r: Option<nat>)
    ensures r.None? <==> FreshId(ps, id)
    ensures r.Some? ==> r.value < |ps| && ps[r.value].id == id
    ensures r.Some? ==> forall j :: 0 <= j < r.value ==> ps[j].id != id
  {
    if |ps| == 0 then None
    else if ps[0].id == id then Some(0)
    else match FindIndex(ps[1..], id)
      case None => None
      case Some(k) => Some(k + 1)
  }

  /** `addProject`: appends a new `ToDo` project built from the arguments (`id` stands
      for the generated identifier) and notifies every listener. */
  function AddProject<L>(s: Store<L>, id: string, title: string, description: string, people: int)
    : (r: Step<L>)
    ensures |r.store.projects| == |s.projects| + 1
    ensures r.store.projects[..|s.projects|] == s.projects
    ensures r.store.projects[|s.projects|] == Project(id, title, description, people, ToDo)
    ensures r.store.listeners == s.listeners
    ensures Broadcast(r.trace, s.listeners, r.store.projects)
  {
    var projects := s.projects + [Project(id, title, description, people, ToDo)];
    Step(s.(projects := projects), Notify(s.listeners, projects))
  }

  /** `moveProject`: when some project has the id, sets the first such project's
      status and notifies every listener; otherwise does nothing at all. */
  function MoveProject<L>(s: Store<L>, id: string, newStatus: Status): (r: Step<L>)
    ensures FreshId(s.projects, id) ==> r == Step(s, [])
    ensures !FreshId(s.projects, id) ==>
      exists k :: && 0 <= k < |s.projects|
                  && s.projects[k].id == id
                  && (forall j :: 0 <= j < k ==> s.projects[j].id != id)
                  && r.store.projects == s.projects[k := s.projects[k].(status := newStatus)]
    ensures r.store.listeners == s.listeners
    ensures !FreshId(s.projects, id) ==> Broadcast(r.trace, s.listeners, r.store.projects)
  {
    match FindIndex(s.projects, id)
    case None => Step(s, [])
    case Some(k) =>
      var projects := s.projects[k := s.projects[k].(status := newStatus)];
      Step(s.(projects := projects), Notify(s.listeners, projects))
  }

  /** A move changes only the status of the first project with the id: the sequence
      keeps its length and order, every other project is unchanged, and the moved
      project keeps its id, title, description and people. */
  lemma MoveChangesOnlyThatStatus<L>(s: Store<L>, id: string, newStatus: Status, k: nat)
    requires k < |s.projects| && s.projects[k].id == id
    requires forall j :: 0 <= j < k ==> s.projects[j].id != id
    ensures var ps := MoveProject(s, id, newStatus).store.projects;
      && |ps| == |s.projects|
      && ps[k].status == newStatus
      && ps[k] == s.projects[k].(status := newStatus)
      && (forall j :: 0 <= j < |ps| && j != k ==> ps[j] == s.projects[j])
      && Ids(ps) == Ids(s.projects)
  {
    var ps := MoveProject(s, id, newStatus).store.projects;
    var k' :| && 0 <= k' < |s.projects| && s.projects[k'].id == id
              && (forall j :: 0 <= j < k' ==> s.projects[j].id != id)
              && ps == s.projects[k' := s.projects[k'].(status := newStatus)];
    assert k' == k;
  }

  /** Moving a project to the status it already has leaves the projects as they were
      but still notifies every listener. */
  lemma MoveToSameStatusStillNotifies<L>(s: Store<L>, id: string, k: nat)
    requires k < |s.projects| && s.projects[k].id == id
    requires forall j :: 0 <= j < k ==> s.projects[j].id != id
    ensures MoveProject(s, id, s.projects[k].status).store == s
    ensures |MoveProject(s, id, s.projects[k].status).trace| == |s.listeners|
  {
    var r := MoveProject(s, id, s.projects[k].status);
    MoveChangesOnlyThatStatus(s, id, s.projects[k].status, k);
    assert r.store.projects == s.projects;
  }

  /** An add with a fresh id keeps the ids unique. */
  lemma AddKeepsIdsUnique<L>(s: Store<L>, id: string, title: string,
                             description: string, people: int)
    requires UniqueIds(s.projects) && FreshId(s.projects, id)
    ensures UniqueIds(AddProject(s, id, title, description, people).store.projects)
  {
    var ps := AddProject(s, id, title, description, people).store.projects;
    assert forall j :: 0 <= j < |s.projects| ==> ps[j] == s.projects[j];
  }

  /** A move keeps every id where it was, so it keeps the ids unique. */
  lemma MoveKeepsIdsUnique<L>(s: Store<L>, moveId: string, newStatus: Status)
    requires UniqueIds(s.projects)
    ensures UniqueIds(MoveProject(s, moveId, newStatus).store.projects)
  {
    var ps := MoveProject(s, moveId, newStatus).store.projects;
    if !FreshId(s.projects, moveId) {
      var k :| && 0 <= k < |s.projects| && s.projects[k].id == moveId
               && (forall j :: 0 <= j < k ==> s.projects[j].id != moveId)
               && ps == s.projects[k := s.projects[k].(status := newStatus)];
      assert forall j :: 0 <= j < |ps| ==> ps[j].id == s.projects[j].id;
    }
  }

  /** Neither mutation can create a duplicate id out of a store without one, provided
      the added project's id is fresh. */
  lemma MutationsPreserveUniqueIds<L>(s: Store<L>, id: string, title: string,
                                      description: string, people: int,
                                      moveId: string, newStatus: Status)
    requires UniqueIds(s.projects)
    ensures FreshId(s.projects, id) ==>
            UniqueIds(AddProject(s, id, title, description, people).store.projects)
    ensures UniqueIds(MoveProject(s, moveId, newStatus).store.projects)
  {
    if FreshId(s.projects, id) {
      AddKeepsIdsUnique(s, id, title, description, people);
    }
    MoveKeepsIdsUnique(s, moveId, newStatus);
  }

  /** The arguments of one `addProject` call, with the identifier it generates. */
  datatype NewProject = NewProject(id: string, title: string, description: string, people: int)

  /** Calls `addProject` once per request, in order. */
  function AddAll<L>(s: Store<L>, reqs: seq<NewProject>): Store<L>
    decreases |reqs|
  {
    if |reqs| == 0 then s
    else
      var q := reqs[0];
      AddAll(AddProject(s, q.id, q.title, q.description, q.people).store, reqs[1..])
  }

  /** After N additions the store holds N more projects, the earlier ones first and
      unchanged, and the i-th added project is built from the i-th request with
      status `ToDo`. */
  lemma {:induction false} AddAllGrowsByCount<L>(s: Store<L>, reqs: seq<NewProject>)
    ensures var t := AddAll(s, reqs);
      && |t.projects| == |s.projects| + |reqs|
      && t.projects[..|s.projects|] == s.projects
      && (forall i :: 0 <= i < |reqs| ==>
            var q := reqs[i];
            t.projects[|s.projects| + i] == Project(q.id, q.title, q.description, q.people, ToDo))
      && t.listeners == s.listeners
    decreases |reqs|
  {
    if |reqs| > 0 {
      var q := reqs[0];
      var s1 := AddProject(s, q.id, q.title, q.description, q.people).store;
      AddAllGrowsByCount(s1, reqs[1..]);
      var t := AddAll(s, reqs);
      assert t == AddAll(s1, reqs[1..]);
      assert t.projects[..|s.projects|] == t.projects[..|s1.projects|][..|s.projects|];
      forall i | 0 <= i < |reqs|
        ensures t.projects[|s.projects| + i]
                == Project(reqs[i].id, reqs[i].title, reqs[i].description, reqs[i].people, ToDo)
      {
        if i == 0 {
          assert t.projects[|s.projects|] == t.projects[..|s1.projects|][|s.projects|];
        } else {
          assert reqs[i] == reqs[1..][i - 1];
        }
      }
    }
  }
}
