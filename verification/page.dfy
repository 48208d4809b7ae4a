/** The page as a whole: one store shared by the input form and the lanes, each lane
    having registered its listener with the store when it was constructed. The
    property the subscription mechanism exists for is `Consistent`: every lane shows
    exactly the store's projects of its status. */
module Page {
  import opened Models
  import opened ProjectState
  import opened ProjectList
  import opened ProjectItem
  import opened ProjectInput

  /** The store (its listeners identified by the lane that registered them) and the
      lanes in construction order. */
  datatype Board = Board(state: Store<LaneType>, lanes: seq<LaneView>)

  /** The i-th registered listener is the i-th lane's callback. */
  predicate Wired(b: Board) {
    && |b.lanes| == |b.state.listeners|
    && forall i :: 0 <= i < |b.lanes| ==> b.lanes[i].kind == b.state.listeners[i]
  }

  /** Every lane caches exactly the store's projects of its status, in store order. */
  predicate Consistent(b: Board) {
    && Wired(b)
    && forall i :: 0 <= i < |b.lanes| ==>
         b.lanes[i].assignedProjects == Filter(b.state.projects, ListenStatus(b.lanes[i].kind))
  }

  /** Runs each delivery of a trace through the callback of the lane it is addressed
      to; an empty trace leaves the lanes alone. */
  function Deliver(lanes: seq<LaneView>, trace: seq<Delivery<LaneType>>): (r: seq<LaneView>)
    requires |trace| == 0 || |trace| == |lanes|
    ensures |r| == |lanes|
    ensures forall i :: 0 <= i < |r| ==> r[i].kind == lanes[i].kind
    ensures |trace| == 0 ==> r == lanes
  {
    if |trace| == 0 then lanes
    else seq(|lanes|, i requires 0 <= i < |lanes| => OnNotify(lanes[i], trace[i].snapshot))
  }

  /** The four lane types, in the order the page constructs their lanes. */
  const AllLanes: seq<LaneType> := [TodoLane, ActiveLane, QaLane, FinishedLane]

  /** A page with nothing mounted yet. */
  function EmptyBoard(): Board {
    Board(NewStore(), [])
  }

  /** Constructing a lane: it starts empty and registers its listener at the end of
      the store's list. */
  function Mount(b: Board, kind: LaneType): (r: Board)
    ensures r.state.projects == b.state.projects
    ensures |r.lanes| == |b.lanes| + 1 && r.lanes[..|b.lanes|] == b.lanes
    ensures r.lanes[|b.lanes|].kind == kind && r.lanes[|b.lanes|].assignedProjects == []
    ensures |r.state.listeners| == |b.state.listeners| + 1
    ensures r.state.listeners[..|b.state.listeners|] == b.state.listeners
    ensures r.state.listeners[|b.state.listeners|] == kind
  {
    Board(AddListener(b.state, kind), b.lanes + [NewLane(kind)])
  }

  /** The bootstrap: the four lanes, in the order the page constructs them. The page
      starts with an empty store, four empty lanes, one per lane type, each wired to
      its listener, and so every lane consistent with the store. */
  function Startup(): (b: Board)
    ensures |b.state.projects| == 0
    ensures b.state.listeners == AllLanes
    ensures |b.lanes| == |AllLanes|
    ensures forall i :: 0 <= i < |AllLanes| ==> b.lanes[i] == NewLane(AllLanes[i])
    ensures Consistent(b)
  {
    Mount(Mount(Mount(Mount(EmptyBoard(), TodoLane), ActiveLane), QaLane), FinishedLane)
  }

  /** A submit of the form, with the store's notifications delivered to the lanes. */
  function Submit(b: Board, id: string, input: FormInput): (r: Board)
    requires Wired(b)
    ensures Wired(r) && r.state.listeners == b.state.listeners
    ensures !Acceptable(input) ==> r == b
    ensures Acceptable(input) ==>
      r.state.projects == b.state.projects + [Project(id, input.title, input.description, input.people, ToDo)]
  {
    SubmitAllOrNothing(b.state, id, input);
    var sub := SubmitHandler(b.state, id, input);
    Board(sub.store, Deliver(b.lanes, sub.trace))
  }

  /** A drop onto the lane at `target` carrying `payload`: `moveProject` with the
      payload unchanged and the lane's drop status, notifications delivered. */
  function Drop(b: Board, target: nat, payload: string): (r: Board)
    requires Wired(b) && target < |b.lanes|
    ensures Wired(r) && r.state.listeners == b.state.listeners
    ensures FreshId(b.state.projects, payload) ==> r == b
    ensures r.state.projects
         == MoveProject(b.state, payload, ListenStatus(b.lanes[target].kind)).store.projects
  {
    var step := MoveProject(b.state, payload, DropStatus(b.lanes[target].kind));
    Board(step.store, Deliver(b.lanes, step.trace))
  }

  /** Dragging `item` and dropping it onto the lane at `target`. */
  function DragAndDrop(b: Board, item: ItemView, target: nat): Board
    requires Wired(b) && target < |b.lanes|
  {
    Drop(b, target, DragStart(item).data)
  }

  /** After a broadcast of the new projects, every lane matches them. */
  lemma BroadcastMakesConsistent(b: Board, s: Store<LaneType>, trace: seq<Delivery<LaneType>>)
    requires Wired(b) && s.listeners == b.state.listeners
    requires Broadcast(trace, s.listeners, s.projects)
    ensures Consistent(Board(s, Deliver(b.lanes, trace)))
  {
    if |trace| == 0 {
      assert |b.lanes| == 0;
    }
  }

  /** Constructing a lane keeps the page consistent exactly when the store holds no
      project of that lane's status: the constructor does not read the store, so a
      lane mounted late stays empty until the next mutation. */
  lemma MountConsistentIff(b: Board, kind: LaneType)
    requires Consistent(b)
    ensures Consistent(Mount(b, kind)) <==> Filter(b.state.projects, ListenStatus(kind)) == []
  {
    var r := Mount(b, kind);
    if Filter(b.state.projects, ListenStatus(kind)) == [] {
      forall i | 0 <= i < |r.lanes|
        ensures r.lanes[i].assignedProjects == Filter(r.state.projects, ListenStatus(r.lanes[i].kind))
      {
        if i < |b.lanes| {
          assert r.lanes[i] == b.lanes[i];
        }
      }
    } else {
      assert r.lanes[|b.lanes|] == NewLane(kind);
    }
  }

  /** A submit, accepted or refused, keeps every lane consistent with the store. */
  lemma SubmitKeepsConsistent(b: Board, id: string, input: FormInput)
    requires Consistent(b)
    ensures Consistent(Submit(b, id, input))
  {
    var sub := SubmitHandler(b.state, id, input);
    if sub.cleared {
      BroadcastMakesConsistent(b, sub.store, sub.trace);
    }
  }

  /** A drop, whether or not its payload names a project, keeps every lane
      consistent with the store. */
  lemma DropKeepsConsistent(b: Board, target: nat, payload: string)
    requires Consistent(b) && target < |b.lanes|
    ensures Consistent(Drop(b, target, payload))
  {
    var step := MoveProject(b.state, payload, DropStatus(b.lanes[target].kind));
    if !FreshId(b.state.projects, payload) {
      BroadcastMakesConsistent(b, step.store, step.trace);
    }
  }

  /** A drop whose payload names no project changes nothing on the page. */
  lemma DropOfUnknownIdChangesNothing(b: Board, target: nat, payload: string)
    requires Wired(b) && target < |b.lanes|
    requires FreshId(b.state.projects, payload)
    ensures Drop(b, target, payload) == b
  {
  }

  /** Dragging the item of a stored project onto a lane moves that project (the first
      with its id) into that lane's status; afterwards the moved project is shown by
      every lane of the target's type and by no other lane. */
  lemma DragAndDropShowsProjectOnlyInTarget(b: Board, item: ItemView, target: nat, k: nat)
    requires Consistent(b) && target < |b.lanes|
    requires k < |b.state.projects| && b.state.projects[k] == item.project
    requires forall j :: 0 <= j < k ==> b.state.projects[j].id != item.project.id
    ensures var r := DragAndDrop(b, item, target);
      var moved := item.project.(status := DropStatus(b.lanes[target].kind));
      && Consistent(r)
      && r.state.projects == b.state.projects[k := moved]
      && forall i :: 0 <= i < |r.lanes| ==>
           (moved in r.lanes[i].assignedProjects <==> r.lanes[i].kind == b.lanes[target].kind)
  {
    var id := item.project.id;
    var st := DropStatus(b.lanes[target].kind);
    var r := DragAndDrop(b, item, target);
    var moved := item.project.(status := st);
    DropKeepsConsistent(b, target, id);
    MoveChangesOnlyThatStatus(b.state, id, st, k);
    assert r.state.projects[k] == moved;
    forall i | 0 <= i < |r.lanes|
      ensures moved in r.lanes[i].assignedProjects <==> r.lanes[i].kind == b.lanes[target].kind
    {
      InExactlyOneLane(r.state.projects, moved, r.lanes[i].kind);
    }
  }

  /** On a consistent page with one lane per lane type, the lanes together show every
      stored project exactly as often as the store holds it. */
  lemma {:induction false} LanesShowEveryProjectOnce(b: Board)
    requires Consistent(b)
    requires b.state.listeners == AllLanes
    ensures multiset(b.lanes[0].assignedProjects) + multiset(b.lanes[1].assignedProjects)
          + multiset(b.lanes[2].assignedProjects) + multiset(b.lanes[3].assignedProjects)
            == multiset(b.state.projects)
  {
    var ps := b.state.projects;
    assert b.lanes[0].assignedProjects == Filter(ps, ToDo);
    assert b.lanes[1].assignedProjects == Filter(ps, Active);
    assert b.lanes[2].assignedProjects == Filter(ps, Qa);
    assert b.lanes[3].assignedProjects == Filter(ps, Finished);
    LanesPartition(ps);
  }

  /** A consistent page with one lane per lane type, in bootstrap order, whose store
      holds exactly `ps`. */
  predicate Shows(b: Board, ps: seq<Project>) {
    Consistent(b) && b.state.listeners == AllLanes && b.state.projects == ps
  }

  /** A valid submit on such a page appends the entered project and keeps it so. */
  lemma {:induction false} ValidSubmitShows(b: Board, ps: seq<Project>, id: string, input: FormInput)
    requires Shows(b, ps)
    requires Acceptable(input)
    ensures Shows(Submit(b, id, input),
                  ps + [Project(id, input.title, input.description, input.people, ToDo)])
  {
    SubmitAllOrNothing(b.state, id, input);
    SubmitKeepsConsistent(b, id, input);
  }

  /** On such a page, the lane at position `i` shows the store filtered to the
      status of the i-th lane type. */
  lemma ShowsLane(b: Board, ps: seq<Project>, i: nat)
    requires Shows(b, ps) && i < 4
    ensures b.lanes[i].assignedProjects == Filter(ps, ListenStatus(AllLanes[i]))
  {
    assert b.lanes[i].kind == b.state.listeners[i];
  }

  /** A drop of the id of `ps[k]`, the first project with that id, onto the lane at
      `target` moves it into that lane's status and keeps the page so. */
  lemma DropShows(b: Board, ps: seq<Project>, target: nat, k: nat)
    requires Shows(b, ps) && target < 4
    requires k < |ps| && forall j :: 0 <= j < k ==> ps[j].id != ps[k].id
    ensures Shows(Drop(b, target, ps[k].id), ps[k := ps[k].(status := DropStatus(AllLanes[target]))])
  {
    assert b.lanes[target].kind == AllLanes[target];
    DropKeepsConsistent(b, target, ps[k].id);
    MoveChangesOnlyThatStatus(b.state, ps[k].id, DropStatus(AllLanes[target]), k);
  }

  /** Two accepted submits on the freshly started page store the two projects in
      submission order. */
  lemma TwoSubmitsShow(in1: FormInput, in2: FormInput, id1: string, id2: string)
    requires Acceptable(in1) && Acceptable(in2)
    ensures Shows(Submit(Submit(Startup(), id1, in1), id2, in2),
                  [Project(id1, in1.title, in1.description, in1.people, ToDo),
                   Project(id2, in2.title, in2.description, in2.people, ToDo)])
  {
    var p1 := Project(id1, in1.title, in1.description, in1.people, ToDo);
    var b1 := Submit(Startup(), id1, in1);
    assert Shows(b1, [p1]) by {
      ValidSubmitShows(Startup(), [], id1, in1);
      assert [] + [p1] == [p1];
    }
    ValidSubmitShows(b1, [p1], id2, in2);
  }

  /** Two projects are added through the form and the second is dropped onto the
      Active lane: the Active lane then shows only the second, the To Do lane only
      the first, and the other two lanes nothing. */
  lemma TwoProjectsScenario(in1: FormInput, in2: FormInput, id1: string, id2: string)
    requires Acceptable(in1) && Acceptable(in2) && id1 != id2
    ensures var b0 := Startup();
      var b1 := Submit(b0, id1, in1);
      var b2 := Submit(b1, id2, in2);
      var b3 := Drop(b2, 1, id2);
      && b3.lanes[0].assignedProjects == [Project(id1, in1.title, in1.description, in1.people, ToDo)]
      && b3.lanes[1].assignedProjects == [Project(id2, in2.title, in2.description, in2.people, Active)]
      && b3.lanes[2].assignedProjects == []
      && b3.lanes[3].assignedProjects == []
  {
    var p1 := Project(id1, in1.title, in1.description, in1.people, ToDo);
    var p2 := Project(id2, in2.title, in2.description, in2.people, ToDo);
    var b2 := Submit(Submit(Startup(), id1, in1), id2, in2);
    TwoSubmitsShow(in1, in2, id1, id2);
    DropScenarioStep(b2, p1, p2);
  }

  /** On a page showing two `ToDo` projects with distinct ids, dropping the second
      one's id onto the Active lane (the second step of `TwoProjectsScenario`). */
  lemma DropScenarioStep(b: Board, p1: Project, p2: Project)
    requires Shows(b, [p1, p2])
    requires p1.id != p2.id && p1.status == ToDo && p2.status == ToDo
    ensures var r := Drop(b, 1, p2.id);
      && r.lanes[0].assignedProjects == [p1]
      && r.lanes[1].assignedProjects == [p2.(status := Active)]
      && r.lanes[2].assignedProjects == []
      && r.lanes[3].assignedProjects == []
  {
    var p2' := p2.(status := Active);
    assert [p1, p2][1] == p2;
    DropShows(b, [p1, p2], 1, 1);
    assert [p1, p2][1 := p2'] == [p1, p2'];
    TodoActiveLanes(Drop(b, 1, p2.id), p1, p2');
  }

  /** On a page showing a `ToDo` project followed by an `Active` one, the To Do lane
      shows only the first, the Active lane only the second, and the other lanes
      nothing. */
  lemma TodoActiveLanes(b: Board, p1: Project, p2: Project)
    requires Shows(b, [p1, p2]) && p1.status == ToDo && p2.status == Active
    ensures b.lanes[0].assignedProjects == [p1]
    ensures b.lanes[1].assignedProjects == [p2]
    ensures b.lanes[2].assignedProjects == []
    ensures b.lanes[3].assignedProjects == []
  {
    PairLanes(b, p1, p2);
  }

  /** On a page showing two projects, each lane shows those of its status, in order. */
  lemma PairLanes(b: Board, p1: Project, p2: Project)
    requires Shows(b, [p1, p2])
    ensures b.lanes[0].assignedProjects == FilterPairResult(p1, p2, ToDo)
    ensures b.lanes[1].assignedProjects == FilterPairResult(p1, p2, Active)
    ensures b.lanes[2].assignedProjects == FilterPairResult(p1, p2, Qa)
    ensures b.lanes[3].assignedProjects == FilterPairResult(p1, p2, Finished)
  {
    assert b.lanes[0].assignedProjects == FilterPairResult(p1, p2, ToDo) by {
      ShowsLane(b, [p1, p2], 0);
      FilterPair(p1, p2, ToDo);
    }
    assert b.lanes[1].assignedProjects == FilterPairResult(p1, p2, Active) by {
      ShowsLane(b, [p1, p2], 1);
      FilterPair(p1, p2, Active);
    }
    assert b.lanes[2].assignedProjects == FilterPairResult(p1, p2, Qa) by {
      ShowsLane(b, [p1, p2], 2);
      FilterPair(p1, p2, Qa);
    }
    assert b.lanes[3].assignedProjects == FilterPairResult(p1, p2, Finished) by {
      ShowsLane(b, [p1, p2], 3);
      FilterPair(p1, p2, Finished);
    }
  }

  /** The projects among `p1`, `p2` whose status is `st`, in that order. */
  function FilterPairResult(p1: Project, p2: Project, st: Status): seq<Project> {
    (if p1.status == st then [p1] else []) + (if p2.status == st then [p2] else [])
  }

  /** Filtering a two-project snapshot. */
  lemma FilterPair(p1: Project, p2: Project, st: Status)
    ensures Filter([p1, p2], st) == FilterPairResult(p1, p2, st)
  {
    assert [p1, p2][1..] == [p2];
    assert [p2][1..] == [];
  }
}
