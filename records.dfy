/**
 * Tasks and projects, the sample data that seeds an empty store, the
 * read-only queries the dashboard runs over them, and the by-id record
 * updates its event handlers perform.
 */
module Records {
  import opened Seqs
  import opened Text

  datatype Task = Task(id: int, text: string, completed: bool, priority: bool)

  datatype Status = Active | Completed

  datatype Project = Project(id: int, title: string, description: string, status: Status, files: seq<string>)

  /** The other status: clicking a project's status badge flips it. */
  function Flip(s: Status): (r: Status)
    ensures r != s
  {
    if s == Active then Completed else Active
  }

  /**
   * The fixed data shown when nothing is stored. The JavaScript pushes new
   * records onto these arrays when it fell back to them; here they are
   * constants, and every fallback sees the original five tasks and three projects.
   */
  const SampleTasks: seq<Task> := [
    Task(1, "Complete project proposal", false, true),
    Task(2, "Schedule team meeting", true, false),
    Task(3, "Review quarterly reports", false, true),
    Task(4, "Prepare presentation slides", false, true),
    Task(5, "Update project documentation", false, false)
  ]

  const SampleProjects: seq<Project> := [
    Project(1, "Website Redesign", "Complete redesign of company website with modern UI/UX",
            Active, ["design-mockup.pdf", "content-plan.docx"]),
    Project(2, "Marketing Campaign", "Q4 social media marketing campaign planning and execution",
            Active, ["campaign-budget.xlsx"]),
    Project(3, "Product Launch", "Launch of new productivity software",
            Completed, ["launch-plan.pdf", "press-release.docx"])
  ]

  /** The description every new project starts with. */
  const NewProjectDescription := "New project description. Click to edit."

  // ---------------------------------------------------------------
  // Task predicates used by the filters
  // ---------------------------------------------------------------

  predicate IsOpen(t: Task) { !t.completed }

  predicate IsDone(t: Task) { t.completed }

  predicate IsFlagged(t: Task) { t.priority }

  predicate IsOpenFlagged(t: Task) { t.priority && !t.completed }

  predicate IsActiveProject(p: Project) { p.status == Active }

  // ---------------------------------------------------------------
  // The to-do list filter
  // ---------------------------------------------------------------

  /**
   * The to-do list as shown under the filter button `mode`: open tasks for
   * "active", finished ones for "completed", starred ones for "priority",
   * and every task for "all" or any other mode.
   */
  function FilterTasks(tasks: seq<Task>, mode: string): (r: seq<Task>)
    ensures mode == "active" ==> Selects(r, tasks, IsOpen)
    ensures mode == "completed" ==> Selects(r, tasks, IsDone)
    ensures mode == "priority" ==> Selects(r, tasks, IsFlagged)
    ensures mode != "active" && mode != "completed" && mode != "priority" ==> r == tasks
  {
    if mode == "active" then Filter(tasks, IsOpen)
    else if mode == "completed" then Filter(tasks, IsDone)
    else if mode == "priority" then Filter(tasks, IsFlagged)
    else tasks
  }

  // ---------------------------------------------------------------
  // The dashboard's short list
  // ---------------------------------------------------------------

  function Min(a: int, b: int): int { if a <= b then a else b }

  /**
   * The tasks the dashboard lists: up to five open starred tasks; when there
   * is none, up to three open tasks.
   */
  function DashboardTasks(tasks: seq<Task>): (r: seq<Task>)
    ensures |r| <= 5 && IsSubsequence(r, tasks)
    ensures forall k :: 0 <= k < |r| ==> !r[k].completed
    ensures (exists k :: 0 <= k < |tasks| && IsOpenFlagged(tasks[k])) ==>
              var flagged := Filter(tasks, IsOpenFlagged);
              |r| == Min(5, |flagged|) && forall k :: 0 <= k < |r| ==> r[k] == flagged[k]
    ensures (forall k :: 0 <= k < |tasks| ==> !IsOpenFlagged(tasks[k])) ==>
              var open := Filter(tasks, IsOpen);
              |r| == Min(3, |open|) && forall k :: 0 <= k < |r| ==> r[k] == open[k]
  {
    NonEmptyFilter(tasks, IsOpenFlagged);
    if Filter(tasks, IsOpenFlagged) != [] then FirstMatches(tasks, IsOpenFlagged, 5)
    else FirstMatches(tasks, IsOpen, 3)
  }

  // ---------------------------------------------------------------
  // Dashboard counters
  // ---------------------------------------------------------------

  datatype Counters = Counters(openTasks: nat, completedTasks: nat, activeProjects: nat, score: nat)

  /**
   * `Math.round(part / total * 100)`, or 0 when there is nothing to count,
   * in exact integer arithmetic: the percentage rounded half up.
   */
  function RoundedPercent(part: nat, total: nat): (r: nat)
    ensures total == 0 ==> r == 0
    ensures total > 0 ==> 2 * total * r <= 200 * part + total < 2 * total * r + 2 * total
    ensures part <= total ==> r <= 100
  {
    if total == 0 then 0
    else
      var q := (200 * part + total) / (2 * total);
      QuotientBounds(200 * part + total, 2 * total);
      assert part <= total ==> q <= 100 by {
        if part <= total && q > 100 {
          MulMonotone(2 * total, 101, q);
        }
      }
      q
  }

  lemma QuotientBounds(n: nat, d: nat)
    requires d > 0
    ensures d * (n / d) <= n < d * (n / d) + d
  {
    assert n == d * (n / d) + n % d;
  }

  lemma MulMonotone(a: nat, b: nat, c: nat)
    requires b <= c
    ensures a * b <= a * c
  {
    assert a * c == a * b + a * (c - b);
  }

  /**
   * The four dashboard figures: open tasks, completed tasks, active projects
   * and the productivity score (the rounded share of completed tasks).
   */
  function ComputeCounters(tasks: seq<Task>, projects: seq<Project>): (c: Counters)
    ensures c.openTasks == |Filter(tasks, IsOpen)|
    ensures c.completedTasks == |Filter(tasks, IsDone)|
    ensures c.activeProjects == |Filter(projects, IsActiveProject)|
    ensures c.openTasks + c.completedTasks == |tasks|
    ensures c.openTasks == 0 <==> forall k :: 0 <= k < |tasks| ==> tasks[k].completed
    ensures c.completedTasks == 0 <==> forall k :: 0 <= k < |tasks| ==> !tasks[k].completed
    ensures c.activeProjects <= |projects|
    ensures c.activeProjects == 0 <==> forall k :: 0 <= k < |projects| ==> projects[k].status != Active
    ensures c.score <= 100
    ensures |tasks| == 0 ==> c.score == 0
    ensures c.score == RoundedPercent(c.completedTasks, |tasks|)
  {
    var open := Filter(tasks, IsOpen);
    var done := Filter(tasks, IsDone);
    var active := Filter(projects, IsActiveProject);
    FilterPartition(tasks, IsOpen, IsDone);
    NonEmptyFilter(tasks, IsOpen);
    NonEmptyFilter(tasks, IsDone);
    NonEmptyFilter(projects, IsActiveProject);
    Counters(|open|, |done|, |active|, RoundedPercent(|done|, |tasks|))
  }

  /** A filter keeps something exactly when some element passes it. */
  lemma NonEmptyFilter<T(!new)>(s: seq<T>, p: T -> bool)
    ensures Filter(s, p) != [] <==> exists k :: 0 <= k < |s| && p(s[k])
  {
    var r := Filter(s, p);
    if r != [] {
      assert multiset(r)[r[0]] > 0;
      assert r[0] in multiset(s);
    }
    if k :| 0 <= k < |s| && p(s[k]) {
      assert multiset(s)[s[k]] > 0;
      assert multiset(r)[s[k]] > 0;
    }
  }

  /** Two of three tasks done scores 67 (two thirds, rounded half up). */
  lemma TwoOfThreeScores67(a: Task, b: Task, c: Task, p: Project)
    requires !a.completed && b.completed && c.completed && p.status == Active
    ensures ComputeCounters([a, b, c], [p]) == Counters(1, 2, 1, 67)
  {
    var s := [a, b, c];
    var counters := ComputeCounters(s, [p]);
    assert counters.completedTasks == 2 by {
      assert s[1..] == [b, c] && s[1..][1..] == [c] && s[1..][1..][1..] == [];
      FilterSizeUnfold(s, IsDone);
      FilterSizeUnfold(s[1..], IsDone);
      FilterSizeUnfold(s[1..][1..], IsDone);
    }
    assert counters.activeProjects == 1 by {
      assert [p][1..] == [];
      FilterSizeUnfold([p], IsActiveProject);
    }
    assert counters.openTasks == 1;
    assert counters.score == 67 by {
      assert |s| == 3 && RoundedPercent(2, 3) == 67;
    }
  }

  // ---------------------------------------------------------------
  // File icons
  // ---------------------------------------------------------------

  datatype FileIcon = GenericFile | PdfFile | WordFile | ExcelFile | ImageFile

  /** `fileName.split('.').pop()`: the text after the last dot, or the whole name. */
  function Extension(fileName: string): (ext: string)
    ensures |ext| <= |fileName| && '.' !in ext && ext == fileName[|fileName| - |ext|..]
    ensures |ext| < |fileName| ==> fileName[|fileName| - |ext| - 1] == '.'
  {
    LastSegment(fileName, '.')
  }

  /** The icon shown next to an attached file, chosen by its case-sensitive extension. */
  function IconFor(fileName: string): (icon: FileIcon)
    ensures icon == PdfFile <==> Extension(fileName) == "pdf"
    ensures icon == WordFile <==> Extension(fileName) in {"doc", "docx"}
    ensures icon == ExcelFile <==> Extension(fileName) in {"xls", "xlsx"}
    ensures icon == ImageFile <==> Extension(fileName) in {"jpg", "png", "gif"}
    ensures icon == GenericFile <==>
              Extension(fileName) !in {"pdf", "doc", "docx", "xls", "xlsx", "jpg", "png", "gif"}
  {
    var ext := Extension(fileName);
    if ext == "pdf" then PdfFile
    else if ext in {"doc", "docx"} then WordFile
    else if ext in {"xls", "xlsx"} then ExcelFile
    else if ext in {"jpg", "png", "gif"} then ImageFile
    else GenericFile
  }

  /** Only the part after the last dot decides the icon. */
  lemma IconByLastDot(stem: string, ext: string)
    requires '.' !in ext
    ensures Extension(stem + "." + ext) == ext
    ensures IconFor(stem + "." + ext) == IconFor(ext)
  {
    LastSegmentAfterSeparator(stem, '.', ext);
    assert LastSegment(ext, '.') == ext;
  }

  /** A PDF gets the PDF icon, whatever precedes its last dot. */
  lemma PdfName()
    ensures IconFor("design-mockup.pdf") == PdfFile
  {
    IconByLastDot("design-mockup", "pdf");
  }

  /** Only the last of several dots counts: "archive.tar.xlsx" is a spreadsheet. */
  lemma SpreadsheetName()
    ensures IconFor("archive.tar.xlsx") == ExcelFile
  {
    IconByLastDot("archive.tar", "xlsx");
  }

  /** Matching is case-sensitive: an upper-case extension gets the generic icon. */
  lemma UpperCaseExtension()
    ensures IconFor("scan.PDF") == GenericFile
  {
    IconByLastDot("scan", "PDF");
    assert "PDF"[0] != "pdf"[0];
  }

  /** Matching is exact: "jpeg" is not "jpg". */
  lemma LongerExtension()
    ensures IconFor("photo.jpeg") == GenericFile
  {
    IconByLastDot("photo", "jpeg");
    var ext := "jpeg";
    assert |ext| == 4 && ext[0] == 'j';
    assert ext !in {"pdf", "doc", "docx", "xls", "xlsx", "jpg", "png", "gif"};
  }

  /** A name without a dot is its own extension: a file called "gif" gets the image icon. */
  lemma DotlessName()
    ensures IconFor("gif") == ImageFile
  {
    assert LastSegment("gif", '.') == "gif";
  }

  // ---------------------------------------------------------------
  // Finding and updating records by id
  // ---------------------------------------------------------------

  function HasTaskId(id: int): Task -> bool { (t: Task) => t.id == id }

  function LacksTaskId(id: int): Task -> bool { (t: Task) => t.id != id }

  function HasProjectId(id: int): Project -> bool { (p: Project) => p.id == id }

  /** `tasks.findIndex(task => task.id === id)`. */
  function TaskIndex(tasks: seq<Task>, id: int): (k: int)
    ensures -1 <= k < |tasks|
    ensures k == -1 <==> forall i :: 0 <= i < |tasks| ==> tasks[i].id != id
    ensures k >= 0 ==> tasks[k].id == id && forall i :: 0 <= i < k ==> tasks[i].id != id
  {
    FindIndex(tasks, HasTaskId(id))
  }

  /** `projects.findIndex(p => p.id === id)`. */
  function ProjectIndex(projects: seq<Project>, id: int): (k: int)
    ensures -1 <= k < |projects|
    ensures k == -1 <==> forall i :: 0 <= i < |projects| ==> projects[i].id != id
    ensures k >= 0 ==> projects[k].id == id && forall i :: 0 <= i < k ==> projects[i].id != id
  {
    FindIndex(projects, HasProjectId(id))
  }

  /** `r` is `s` with at most the element at index `k` replaced. */
  predicate ChangesOnlyAt<T(==)>(r: seq<T>, s: seq<T>, k: int) {
    |r| == |s| && forall i :: 0 <= i < |s| && i != k ==> r[i] == s[i]
  }

  /**
   * The shape every by-id handler shares: `k` is what `findIndex` returned;
   * -1 leaves the list as it is, otherwise only the element at `k` is
   * replaced, by `edit` applied to it.
   */
  function UpdateFound<T>(s: seq<T>, k: int, edit: T -> T): (r: seq<T>)
    requires -1 <= k < |s|
    ensures ChangesOnlyAt(r, s, k)
    ensures k == -1 ==> r == s
    ensures k >= 0 ==> r[k] == edit(s[k])
  {
    if k == -1 then s else s[k := edit(s[k])]
  }

  /** Marks the first task with `id` done or not done; no such task, no change. */
  function SetCompleted(tasks: seq<Task>, id: int, completed: bool): (r: seq<Task>)
    ensures ChangesOnlyAt(r, tasks, TaskIndex(tasks, id))
    ensures TaskIndex(tasks, id) == -1 ==> r == tasks
    ensures TaskIndex(tasks, id) >= 0 ==>
              var k := TaskIndex(tasks, id);
              r[k] == tasks[k].(completed := completed)
  {
    UpdateFound(tasks, TaskIndex(tasks, id), (t: Task) => t.(completed := completed))
  }

  /** Stars or unstars the first task with `id`; no such task, no change. */
  function SetPriority(tasks: seq<Task>, id: int, priority: bool): (r: seq<Task>)
    ensures ChangesOnlyAt(r, tasks, TaskIndex(tasks, id))
    ensures TaskIndex(tasks, id) == -1 ==> r == tasks
    ensures TaskIndex(tasks, id) >= 0 ==>
              var k := TaskIndex(tasks, id);
              r[k] == tasks[k].(priority := priority)
  {
    UpdateFound(tasks, TaskIndex(tasks, id), (t: Task) => t.(priority := priority))
  }

  /** `tasks.filter(task => task.id !== id)`: every task with `id` goes, the rest stay in order. */
  function WithoutTask(tasks: seq<Task>, id: int): (r: seq<Task>)
    ensures forall k :: 0 <= k < |r| ==> r[k].id != id
    ensures IsSubsequence(r, tasks)
    ensures forall x :: multiset(r)[x] == if x.id == id then 0 else multiset(tasks)[x]
  {
    Filter(tasks, LacksTaskId(id))
  }

  /** Renames the first project with `id`; no such project, no change. */
  function SetTitle(projects: seq<Project>, id: int, title: string): (r: seq<Project>)
    ensures ChangesOnlyAt(r, projects, ProjectIndex(projects, id))
    ensures ProjectIndex(projects, id) == -1 ==> r == projects
    ensures ProjectIndex(projects, id) >= 0 ==>
              var k := ProjectIndex(projects, id);
              r[k] == projects[k].(title := title)
  {
    UpdateFound(projects, ProjectIndex(projects, id), (p: Project) => p.(title := title))
  }

  /** Rewrites the description of the first project with `id`; no such project, no change. */
  function SetDescription(projects: seq<Project>, id: int, description: string): (r: seq<Project>)
    ensures ChangesOnlyAt(r, projects, ProjectIndex(projects, id))
    ensures ProjectIndex(projects, id) == -1 ==> r == projects
    ensures ProjectIndex(projects, id) >= 0 ==>
              var k := ProjectIndex(projects, id);
              r[k] == projects[k].(description := description)
  {
    UpdateFound(projects, ProjectIndex(projects, id), (p: Project) => p.(description := description))
  }

  /** Sets the status of the first project with `id`; no such project, no change. */
  function SetStatus(projects: seq<Project>, id: int, status: Status): (r: seq<Project>)
    ensures ChangesOnlyAt(r, projects, ProjectIndex(projects, id))
    ensures ProjectIndex(projects, id) == -1 ==> r == projects
    ensures ProjectIndex(projects, id) >= 0 ==>
              var k := ProjectIndex(projects, id);
              r[k] == projects[k].(status := status)
  {
    UpdateFound(projects, ProjectIndex(projects, id), (p: Project) => p.(status := status))
  }

  /** Appends `name` to the file list of the first project with `id`; no such project, no change. */
  function AppendFile(projects: seq<Project>, id: int, name: string): (r: seq<Project>)
    ensures ChangesOnlyAt(r, projects, ProjectIndex(projects, id))
    ensures ProjectIndex(projects, id) == -1 ==> r == projects
    ensures ProjectIndex(projects, id) >= 0 ==>
              var k := ProjectIndex(projects, id);
              r[k] == projects[k].(files := projects[k].files + [name])
  {
    UpdateFound(projects, ProjectIndex(projects, id), (p: Project) => p.(files := p.files + [name]))
  }

  /**
   * The text an edit leaves behind: the trimmed input, or the previous text
   * when that is empty. A non-blank edit never stores a blank text.
   */
  function Edited(input: string, previous: string): (r: string)
    ensures IsBlank(input) ==> r == previous
    ensures !IsBlank(input) ==> r == Trim(input) && !IsBlank(r) && Trim(r) == r
  {
    if IsBlank(input) then previous
    else
      TrimIdempotent(input);
      Trim(input)
  }

  // ---------------------------------------------------------------
  // Lemmas relating the updates
  // ---------------------------------------------------------------

  /** Updates that keep every id keep every lookup by id. */
  lemma SameProjectIdsSameIndex(r: seq<Project>, s: seq<Project>, id: int)
    requires |r| == |s| && forall i :: 0 <= i < |s| ==> r[i].id == s[i].id
    ensures ProjectIndex(r, id) == ProjectIndex(s, id)
  {
  }

  /** Clicking a status badge twice puts the project list back as it was. */
  lemma StatusToggleTwice(projects: seq<Project>, id: int)
    requires ProjectIndex(projects, id) >= 0
    ensures var shown := projects[ProjectIndex(projects, id)].status;
            SetStatus(SetStatus(projects, id, Flip(shown)), id, shown) == projects
  {
    var k := ProjectIndex(projects, id);
    var once := SetStatus(projects, id, Flip(projects[k].status));
    SameProjectIdsSameIndex(once, projects, id);
  }

  /** A task added with an id no other task has is removed again by deleting that id. */
  lemma DeleteUndoesAdd(tasks: seq<Task>, t: Task)
    requires forall k :: 0 <= k < |tasks| ==> tasks[k].id != t.id
    ensures WithoutTask(tasks + [t], t.id) == tasks
  {
    FilterAppend(tasks, [t], LacksTaskId(t.id));
    FilterKeepsAll(tasks, LacksTaskId(t.id));
    assert Filter([t], LacksTaskId(t.id)) == [];
  }

  /** Ticking off an open task raises the completed count by exactly one. */
  lemma CompletingOpenTaskCountsOnce(tasks: seq<Task>, projects: seq<Project>, id: int)
    requires TaskIndex(tasks, id) >= 0 && !tasks[TaskIndex(tasks, id)].completed
    ensures ComputeCounters(SetCompleted(tasks, id, true), projects).completedTasks ==
            ComputeCounters(tasks, projects).completedTasks + 1
  {
    var k := TaskIndex(tasks, id);
    FilterSizeAfterReplace(tasks, k, tasks[k].(completed := true), IsDone);
  }
}
