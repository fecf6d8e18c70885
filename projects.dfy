/** The projects page: the active and completed lists, the execution
    velocity, the searched and filtered list, the filter button and the
    status toggle that writes a project's status and progress back. */
module ProjectsPage {
  import opened Wrappers
  import opened Numeric
  import opened Text
  import opened Sequences
  import opened Documents

  predicate HasStatus(p: ProjectDoc, status: string) {
    p.status == Some(status)
  }

  /** `p => p.status === status`: exact text equality, so a missing status
      or one spelled differently never matches. */
  function StatusIs(status: string): (f: ProjectDoc -> bool)
    ensures forall p :: f(p) <==> p.status == Some(status)
  {
    (p: ProjectDoc) => HasStatus(p, status)
  }

  /** `projects.filter(p => p.status === 'Active')` */
  function ActiveProjects(ps: seq<ProjectDoc>): seq<ProjectDoc> {
    Filter(ps, StatusIs("Active"))
  }

  /** `projects.filter(p => p.status === 'Completed')` */
  function CompletedProjects(ps: seq<ProjectDoc>): seq<ProjectDoc> {
    Filter(ps, StatusIs("Completed"))
  }

  /** The two lists hold exactly the projects whose status is the exact
      text 'Active', respectively 'Completed'; they share no project, and
      a project stored with any other status (such as the lowercase
      'active') is in neither. */
  lemma StatusLists(ps: seq<ProjectDoc>)
    ensures forall p :: p in ActiveProjects(ps) <==> p in ps && p.status == Some("Active")
    ensures forall p :: p in CompletedProjects(ps) <==> p in ps && p.status == Some("Completed")
    ensures forall p :: !(p in ActiveProjects(ps) && p in CompletedProjects(ps))
    ensures forall p: ProjectDoc :: p.status == Some("active") ==> p !in ActiveProjects(ps) && p !in CompletedProjects(ps)
    ensures |ActiveProjects(ps)| + |CompletedProjects(ps)| <= |ps|
  {
    FilterKeeps(ps, StatusIs("Active"));
    FilterKeeps(ps, StatusIs("Completed"));
    forall p | p in ps && p.status == Some("Active") ensures p in ActiveProjects(ps) {
      var i :| 0 <= i < |ps| && ps[i] == p;
    }
    forall p | p in ps && p.status == Some("Completed") ensures p in CompletedProjects(ps) {
      var i :| 0 <= i < |ps| && ps[i] == p;
    }
    var others := Filter(ps, (p: ProjectDoc) => !HasStatus(p, "Active"));
    FilterPartitionLength(ps, StatusIs("Active"), (p: ProjectDoc) => !HasStatus(p, "Active"));
    FilterFilter(ps, (p: ProjectDoc) => !HasStatus(p, "Active"), StatusIs("Completed"));
    assert |Filter(others, StatusIs("Completed"))| <= |others|;
  }

  /** `p.progress || 0` for a stored number or a missing progress. */
  function ProgressOrZero(p: ProjectDoc): real {
    if p.progress.Number? then p.progress.x else 0.0
  }

  /** The execution velocity: the mean progress of the active projects, 0
      when there is none. */
  function Velocity(ps: seq<ProjectDoc>): (v: real)
    ensures |ActiveProjects(ps)| == 0 ==> v == 0.0
    ensures |ActiveProjects(ps)| > 0 ==> v * |ActiveProjects(ps)| as real == SumOf(ActiveProjects(ps), ProgressOrZero)
  {
    var active := ActiveProjects(ps);
    if |active| > 0 then Mean(SumOf(active, ProgressOrZero), |active|) else 0.0
  }

  /** The velocity lies within any range holding the progress of every
      active project; completed and other projects do not matter. In
      particular, when all active projects are at the same progress, that is
      the velocity. */
  lemma VelocityBetween(ps: seq<ProjectDoc>, lo: real, hi: real)
    requires |ActiveProjects(ps)| > 0
    requires forall i :: 0 <= i < |ps| && ps[i].status == Some("Active") ==> lo <= ProgressOrZero(ps[i]) <= hi
    ensures lo <= Velocity(ps) <= hi
  {
    var active := ActiveProjects(ps);
    ActiveInRange(ps, lo, hi);
    SumBounds(active, ProgressOrZero, lo, hi);
    MeanBounds(SumOf(active, ProgressOrZero), |active|, lo, hi);
  }

  /** The active list only holds active projects of `ps`, so a range that
      holds their progress holds every entry of it. */
  lemma ActiveInRange(ps: seq<ProjectDoc>, lo: real, hi: real)
    requires forall i :: 0 <= i < |ps| && ps[i].status == Some("Active") ==> lo <= ProgressOrZero(ps[i]) <= hi
    ensures forall i :: 0 <= i < |ActiveProjects(ps)| ==> lo <= ProgressOrZero(ActiveProjects(ps)[i]) <= hi
  {
    var active := ActiveProjects(ps);
    forall i | 0 <= i < |active| ensures lo <= ProgressOrZero(active[i]) <= hi {
      var k :| 0 <= k < |ps| && ps[k] == active[i];
    }
  }

  /** With every active progress between 0 and 100, the velocity card shows
      a percentage between 0 and 100. */
  lemma VelocityBounds(ps: seq<ProjectDoc>)
    requires forall i :: 0 <= i < |ps| && ps[i].status == Some("Active") ==> 0.0 <= ProgressOrZero(ps[i]) <= 100.0
    ensures 0.0 <= Velocity(ps) <= 100.0
  {
    if |ActiveProjects(ps)| > 0 {
      VelocityBetween(ps, 0.0, 100.0);
    }
  }

  /** `p.title.toLowerCase().includes(searchQuery.toLowerCase())` */
  predicate TitleMatches(p: ProjectDoc, q: string) {
    Contains(Lower(p.title), Lower(q))
  }

  /** `filter === 'All' ? true : p.status === filter` */
  predicate StatusMatches(p: ProjectDoc, filter: string) {
    filter == "All" || p.status == Some(filter)
  }

  function Shown(q: string, filter: string): (f: ProjectDoc -> bool)
    ensures forall p :: f(p) <==> TitleMatches(p, q) && StatusMatches(p, filter)
  {
    (p: ProjectDoc) => TitleMatches(p, q) && StatusMatches(p, filter)
  }

  function TitleIncludes(q: string): (f: ProjectDoc -> bool)
    ensures forall p :: f(p) <==> TitleMatches(p, q)
  {
    (p: ProjectDoc) => TitleMatches(p, q)
  }

  /** `filteredProjects`: the projects, in order, whose title contains the
      query (ignoring the case of A-Z) and whose status is the filter, unless the filter
      is 'All'. */
  function FilteredProjects(ps: seq<ProjectDoc>, q: string, filter: string): (r: seq<ProjectDoc>)
    ensures forall i :: 0 <= i < |r| ==> r[i] in ps && TitleMatches(r[i], q) && StatusMatches(r[i], filter)
    ensures forall i :: 0 <= i < |ps| && TitleMatches(ps[i], q) && StatusMatches(ps[i], filter) ==> ps[i] in r
    ensures KeepsInOrder(r, ps, Shown(q, filter))
  {
    FilterKeeps(ps, Shown(q, filter));
    FilterInOrder(ps, Shown(q, filter));
    Filter(ps, Shown(q, filter))
  }

  /** With the empty query and the 'All' filter every project is shown, in
      its order. */
  lemma ShowAll(ps: seq<ProjectDoc>)
    ensures FilteredProjects(ps, "", "All") == ps
  {
    forall i | 0 <= i < |ps| ensures Shown("", "All")(ps[i]) {
      ContainsEmpty(Lower(ps[i].title));
    }
    FilterAll(ps, Shown("", "All"));
  }

  /** The 'Active' filter shows the active projects that match the
      query. */
  lemma ActiveOnly(ps: seq<ProjectDoc>, q: string)
    ensures FilteredProjects(ps, q, "Active") == Filter(ActiveProjects(ps), TitleIncludes(q))
  {
    FilterAnd(ps, StatusIs("Active"), TitleIncludes(q), Shown(q, "Active"));
  }

  /** The filter button: 'All' becomes 'Active' and anything else 'All'. */
  function NextFilter(filter: string): string {
    if filter == "All" then "Active" else "All"
  }

  /** Starting from 'All', the filter alternates between 'All' and
      'Active'. */
  lemma FilterAlternates(filter: string)
    requires filter == "All" || filter == "Active"
    ensures NextFilter(filter) == "All" || NextFilter(filter) == "Active"
    ensures NextFilter(filter) != filter
    ensures NextFilter(NextFilter(filter)) == filter
  {
  }

  /** What `toggleStatus` writes: 'Active' becomes 'Completed' with
      progress 100; any other status becomes 'Active' and keeps the
      progress. */
  function Toggled(p: ProjectDoc): (t: ProjectDoc)
    ensures t.id == p.id && t.title == p.title
    ensures p.status == Some("Active") ==> t.status == Some("Completed") && t.progress == Number(100.0)
    ensures p.status != Some("Active") ==> t.status == Some("Active") && t.progress == p.progress
  {
    if p.status == Some("Active") then p.(status := Some("Completed"), progress := Number(100.0))
    else p.(status := Some("Active"))
  }

  /** Toggling an active project twice leaves it active at progress 100:
      the progress it had is not restored. A project with another status
      comes back completed. */
  lemma ToggleTwice(p: ProjectDoc)
    ensures p.status == Some("Active") ==> Toggled(Toggled(p)) == p.(progress := Number(100.0))
    ensures p.status != Some("Active") ==> Toggled(Toggled(p)) == p.(status := Some("Completed"), progress := Number(100.0))
  {
  }

  /** Every completed project is at progress 100. */
  ghost predicate CompletedAtFull(docs: map<string, ProjectDoc>) {
    forall id :: id in docs && docs[id].status == Some("Completed") ==> docs[id].progress == Number(100.0)
  }

  /** The user's project documents, by id. */
  class ProjectStore {
    var docs: map<string, ProjectDoc>

    constructor(initial: map<string, ProjectDoc>)
      ensures docs == initial
    {
      docs := initial;
    }

    /** `toggleStatus(project)`: writes the status and progress computed
        from the page's copy of the project onto the stored document. The
        write fails, and nothing changes, when the document does not exist
        or when the progress to write is missing (`undefined` is not a
        storable value). Whatever the page's copy says, completed projects
        stay at progress 100. */
    method ToggleStatus(project: ProjectDoc)
      modifies this
      ensures var t := Toggled(project);
        docs == if project.id in old(docs) && !t.progress.Absent?
          then old(docs)[project.id := old(docs)[project.id].(status := t.status, progress := t.progress)]
          else old(docs)
      ensures CompletedAtFull(old(docs)) ==> CompletedAtFull(docs)
    {
      var t := Toggled(project);
      if project.id in docs && !t.progress.Absent? {
        var stored := docs[project.id];
        docs := docs[project.id := stored.(status := t.status, progress := t.progress)];
      }
    }
  }
}
