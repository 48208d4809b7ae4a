/** A lane (`ProjectList`): one per lane type, it keeps the projects of its own
    status and turns a drop into a status change. */
module ProjectList {
  import opened Models

  /** The lane's `type`: `'todo' | 'active' | 'qa' | 'finished'`. */
  datatype LaneType = TodoLane | ActiveLane | QaLane | FinishedLane

  /** The status a drop onto the lane asks for, as `dropHandler` computes it: start
      from `ToDo` and overwrite it for the three other lane types. */
  function DropStatus(lane: LaneType): (st: Status)
    ensures st == ListenStatus(lane)
    ensures LaneOf(st) == lane
  {
    var st := ToDo;
    var st := if lane == ActiveLane then Active else st;
    var st := if lane == QaLane then Qa else st;
    var st := if lane == FinishedLane then Finished else st;
    st
  }

  /** The status the lane's listener keeps, as the filter's `if`/`else if` chain
      decides it, with `Finished` as the final `else`. Each lane keeps its own
      status: the lane of that status is the lane itself. */
  function ListenStatus(lane: LaneType): (st: Status)
    ensures LaneOf(st) == lane
  {
    if lane == TodoLane then ToDo
    else if lane == ActiveLane then Active
    else if lane == QaLane then Qa
    else assert lane.FinishedLane?; Finished
  }

  /** The lane that shows projects of status `st`. */
  function LaneOf(st: Status): LaneType {
    match st
    case ToDo => TodoLane
    case Active => ActiveLane
    case Qa => QaLane
    case Finished => FinishedLane
  }

  /** Every status is kept by some lane: the lane of a status listens for it. */
  lemma EveryStatusHasALane(st: Status)
    ensures ListenStatus(LaneOf(st)) == st
  {
  }

  /** A lane as the store sees it: its type and its cached `assignedProjects`. */
  datatype LaneView = LaneView(kind: LaneType, assignedProjects: seq<Project>)

  /** The constructor: a lane starts with no assigned projects. */
  function NewLane(kind: LaneType): (lane: LaneView)
    ensures lane.kind == kind && |lane.assignedProjects| == 0
  {
    LaneView(kind, [])
  }

  /** `projects.filter(prj => prj.status === st)`. */
  function Filter(ps: seq<Project>, st: Status): (r: seq<Project>)
    ensures |r| <= |ps|
  {
    if |ps| == 0 then []
    else (if ps[0].status == st then [ps[0]] else []) + Filter(ps[1..], st)
  }

  /** The filtered snapshot holds exactly the snapshot's projects of status `st`. */
  lemma {:induction false} FilterMembers(ps: seq<Project>, st: Status)
    ensures forall p :: p in Filter(ps, st) <==> p in ps && p.status == st
  {
    if |ps| > 0 {
      FilterMembers(ps[1..], st);
      assert ps == [ps[0]] + ps[1..];
    }
  }

  /** The lane's listener: `assignedProjects` becomes the snapshot filtered to the
      lane's status, replacing whatever was cached before. */
  function OnNotify(lane: LaneView, snapshot: seq<Project>): (r: LaneView)
    ensures r.kind == lane.kind
    ensures forall p :: p in r.assignedProjects <==> p in snapshot && p.status == ListenStatus(lane.kind)
  {
    FilterMembers(snapshot, ListenStatus(lane.kind));
    lane.(assignedProjects := Filter(snapshot, ListenStatus(lane.kind)))
  }

  /** The cache after a notification depends on that notification's snapshot alone. */
  lemma OnNotifyForgetsEarlierCache(a: LaneView, b: LaneView, snapshot: seq<Project>)
    requires a.kind == b.kind
    ensures OnNotify(a, snapshot) == OnNotify(b, snapshot)
  {
  }

  /** Filtering keeps snapshot order: it distributes over concatenation, so the
      result is the subsequence of matching projects in their original order. */
  lemma {:induction false} FilterAppend(a: seq<Project>, b: seq<Project>, st: Status)
    ensures Filter(a + b, st) == Filter(a, st) + Filter(b, st)
  {
    if |a| > 0 {
      var head := if a[0].status == st then [a[0]] else [];
      assert (a + b)[0] == a[0];
      assert (a + b)[1..] == a[1..] + b;
      assert Filter(a + b, st) == head + Filter(a[1..] + b, st);
      FilterAppend(a[1..], b, st);
      assert Filter(a, st) == head + Filter(a[1..], st);
      assert head + (Filter(a[1..], st) + Filter(b, st))
          == (head + Filter(a[1..], st)) + Filter(b, st);
    } else {
      assert a + b == b;
    }
  }

  /** Filtering a single project keeps it exactly when its status matches. */
  lemma FilterSingleton(p: Project, st: Status)
    ensures Filter([p], st) == if p.status == st then [p] else []
  {
    assert [p][1..] == [];
  }

  /** Filtering keeps every copy of a matching project and no copy of another. */
  lemma {:induction false} FilterCount(ps: seq<Project>, st: Status, x: Project)
    ensures multiset(Filter(ps, st))[x] == if x.status == st then multiset(ps)[x] else 0
  {
    if |ps| > 0 {
      FilterCount(ps[1..], st, x);
      assert ps == [ps[0]] + ps[1..];
    }
  }

  /** Each project occurs in the four lanes together as often as in the snapshot. */
  lemma CountAcrossLanes(ps: seq<Project>, x: Project)
    ensures multiset(Filter(ps, ToDo))[x] + multiset(Filter(ps, Active))[x]
          + multiset(Filter(ps, Qa))[x] + multiset(Filter(ps, Finished))[x] == multiset(ps)[x]
  {
    FilterCount(ps, ToDo, x);
    FilterCount(ps, Active, x);
    FilterCount(ps, Qa, x);
    FilterCount(ps, Finished, x);
  }

  /** The four lanes partition a snapshot: together they hold every project of the
      snapshot exactly as often as the snapshot does. */
  lemma {:induction false} LanesPartition(ps: seq<Project>)
    ensures multiset(Filter(ps, ToDo)) + multiset(Filter(ps, Active))
          + multiset(Filter(ps, Qa)) + multiset(Filter(ps, Finished)) == multiset(ps)
  {
    var all := multiset(Filter(ps, ToDo)) + multiset(Filter(ps, Active))
             + multiset(Filter(ps, Qa)) + multiset(Filter(ps, Finished));
    forall x
      ensures all[x] == multiset(ps)[x]
    {
      CountAcrossLanes(ps, x);
    }
  }

  /** Hence the four lanes' sizes add up to the snapshot's length. */
  lemma LaneSizesSumToLength(ps: seq<Project>)
    ensures |Filter(ps, ToDo)| + |Filter(ps, Active)| + |Filter(ps, Qa)| + |Filter(ps, Finished)| == |ps|
  {
    LanesPartition(ps);
    assert |multiset(ps)| == |ps|;
  }

  /** Each project of a snapshot is shown by the lane of its status and by no other. */
  lemma InExactlyOneLane(ps: seq<Project>, p: Project, lane: LaneType)
    requires p in ps
    ensures p in Filter(ps, ListenStatus(lane)) <==> lane == LaneOf(p.status)
  {
    EveryStatusHasALane(p.status);
    FilterMembers(ps, ListenStatus(lane));
  }
}
