/**
 * The browser's local storage as the dashboard uses it: three keys, each
 * read with a fall-back to the sample data and each rewritten whole by a
 * read-modify-write cycle in every event handler.
 */
module Store {
  import opened Seqs
  import opened Text
  import opened Records

  datatype Key = TasksKey | ProjectsKey | SessionsKey

  /** A stored value, already decoded (JSON encoding is not modelled). */
  datatype Value = Null | TaskList(tasks: seq<Task>) | ProjectList(projects: seq<Project>) | Count(sessions: nat)

  /** Each key holds only what the dashboard writes under it, or `null`. */
  predicate WellTyped(entries: map<Key, Value>) {
    && (TasksKey in entries ==> entries[TasksKey].Null? || entries[TasksKey].TaskList?)
    && (ProjectsKey in entries ==> entries[ProjectsKey].Null? || entries[ProjectsKey].ProjectList?)
    && (SessionsKey in entries ==> entries[SessionsKey].Null? || entries[SessionsKey].Count?)
  }

  /**
   * `JSON.parse(localStorage.getItem('tasks')) || sampleTasks`: an absent or
   * `null` entry gives the sample tasks; a stored list, even an empty one, is used as it is.
   */
  function LoadTasks(entries: map<Key, Value>): (tasks: seq<Task>)
    requires WellTyped(entries)
    ensures TasksKey !in entries || entries[TasksKey] == Null ==> tasks == SampleTasks
    ensures TasksKey in entries && entries[TasksKey].TaskList? ==> tasks == entries[TasksKey].tasks
  {
    if TasksKey in entries && entries[TasksKey].TaskList? then entries[TasksKey].tasks else SampleTasks
  }

  /** The same for `projects`, falling back to the sample projects. */
  function LoadProjects(entries: map<Key, Value>): (projects: seq<Project>)
    requires WellTyped(entries)
    ensures ProjectsKey !in entries || entries[ProjectsKey] == Null ==> projects == SampleProjects
    ensures ProjectsKey in entries && entries[ProjectsKey].ProjectList? ==> projects == entries[ProjectsKey].projects
  {
    if ProjectsKey in entries && entries[ProjectsKey].ProjectList? then entries[ProjectsKey].projects else SampleProjects
  }

  /** The session count restored at page load: the saved count, or 0 when none is saved. */
  function SavedSessions(entries: map<Key, Value>): (sessions: nat)
    requires WellTyped(entries)
    ensures SessionsKey !in entries || entries[SessionsKey] == Null ==> sessions == 0
    ensures SessionsKey in entries && entries[SessionsKey].Count? ==> sessions == entries[SessionsKey].sessions
  {
    if SessionsKey in entries && entries[SessionsKey].Count? then entries[SessionsKey].sessions else 0
  }

  /** An empty store shows the five sample tasks and three sample projects, and no sessions. */
  lemma EmptyStoreShowsSamples(entries: map<Key, Value>)
    requires WellTyped(entries)
    requires forall key :: key in entries ==> entries[key] == Null
    ensures LoadTasks(entries) == SampleTasks && |LoadTasks(entries)| == 5
    ensures LoadProjects(entries) == SampleProjects && |LoadProjects(entries)| == 3
    ensures SavedSessions(entries) == 0
  {
  }

  /** Saving a task list and loading it back gives the same list and leaves the other keys alone. */
  lemma TasksRoundTrip(entries: map<Key, Value>, tasks: seq<Task>)
    requires WellTyped(entries)
    ensures WellTyped(entries[TasksKey := TaskList(tasks)])
    ensures LoadTasks(entries[TasksKey := TaskList(tasks)]) == tasks
    ensures LoadProjects(entries[TasksKey := TaskList(tasks)]) == LoadProjects(entries)
    ensures SavedSessions(entries[TasksKey := TaskList(tasks)]) == SavedSessions(entries)
  {
  }

  /** Saving a project list and loading it back gives the same list and leaves the other keys alone. */
  lemma ProjectsRoundTrip(entries: map<Key, Value>, projects: seq<Project>)
    requires WellTyped(entries)
    ensures WellTyped(entries[ProjectsKey := ProjectList(projects)])
    ensures LoadProjects(entries[ProjectsKey := ProjectList(projects)]) == projects
    ensures LoadTasks(entries[ProjectsKey := ProjectList(projects)]) == LoadTasks(entries)
    ensures SavedSessions(entries[ProjectsKey := ProjectList(projects)]) == SavedSessions(entries)
  {
  }

  /** One pass of the file-upload loop: reload projects, append `name` to project `id`, save if found. */
  function AttachOne(entries: map<Key, Value>, id: int, name: string): (r: map<Key, Value>)
    requires WellTyped(entries)
    ensures WellTyped(r)
    ensures LoadProjects(r) == AppendFile(LoadProjects(entries), id, name)
    ensures r == entries || r == entries[ProjectsKey := ProjectList(LoadProjects(r))]
    ensures ProjectIndex(LoadProjects(entries), id) == -1 ==> r == entries
  {
    var projects := LoadProjects(entries);
    if ProjectIndex(projects, id) == -1 then entries
    else entries[ProjectsKey := ProjectList(AppendFile(projects, id, name))]
  }

  /** The file-upload loop over `names`, one pass per file, in order. */
  function AttachAll(entries: map<Key, Value>, id: int, names: seq<string>): (r: map<Key, Value>)
    requires WellTyped(entries)
    ensures WellTyped(r)
  {
    if names == [] then entries
    else AttachOne(AttachAll(entries, id, names[..|names| - 1]), id, names[|names| - 1])
  }

  /** The first project with `id` gets `files` appended to its file list. */
  function WithFiles(projects: seq<Project>, k: int, files: seq<string>): (r: seq<Project>)
    requires 0 <= k < |projects|
    ensures |r| == |projects| && forall i :: 0 <= i < |r| ==> r[i].id == projects[i].id
  {
    projects[k := projects[k].(files := projects[k].files + files)]
  }

  /** Appending files in two steps is appending them in one. */
  lemma WithFilesTwice(projects: seq<Project>, k: int, first: seq<string>, second: seq<string>)
    requires 0 <= k < |projects|
    ensures WithFiles(WithFiles(projects, k, first), k, second) == WithFiles(projects, k, first + second)
  {
    assert projects[k].files + first + second == projects[k].files + (first + second);
  }

  /** One pass of the upload loop changes nothing when no project has `id`. */
  lemma AttachOneMissing(entries: map<Key, Value>, id: int, name: string)
    requires WellTyped(entries) && ProjectIndex(LoadProjects(entries), id) == -1
    ensures AttachOne(entries, id, name) == entries
  {
  }

  /** One pass of the upload loop appends one name to the project found. */
  lemma AttachOneFound(entries: map<Key, Value>, id: int, k: int, name: string)
    requires WellTyped(entries) && k == ProjectIndex(LoadProjects(entries), id) && k >= 0
    ensures AttachOne(entries, id, name) == entries[ProjectsKey := ProjectList(WithFiles(LoadProjects(entries), k, [name]))]
  {
    assert AppendFile(LoadProjects(entries), id, name) == WithFiles(LoadProjects(entries), k, [name]);
  }

  /** The upload loop over `init` followed by one more file. */
  lemma AttachAllSnoc(entries: map<Key, Value>, id: int, init: seq<string>, last: string)
    requires WellTyped(entries)
    ensures AttachAll(entries, id, init + [last]) == AttachOne(AttachAll(entries, id, init), id, last)
  {
    assert (init + [last])[..|init|] == init;
  }

  /** One more pass of the upload loop, once the project has been found and given `init`. */
  lemma AttachStep(entries: map<Key, Value>, id: int, k: int, init: seq<string>, last: string)
    requires WellTyped(entries)
    requires k == ProjectIndex(LoadProjects(entries), id) && k >= 0
    ensures var projects := LoadProjects(entries);
            AttachOne(entries[ProjectsKey := ProjectList(WithFiles(projects, k, init))], id, last) ==
            entries[ProjectsKey := ProjectList(WithFiles(projects, k, init + [last]))]
  {
    var projects := LoadProjects(entries);
    var current := WithFiles(projects, k, init);
    var before := entries[ProjectsKey := ProjectList(current)];
    assert LoadProjects(before) == current;
    SameProjectIdsSameIndex(current, projects, id);
    AttachOneFound(before, id, k, last);
    WithFilesTwice(projects, k, init, [last]);
    assert before[ProjectsKey := ProjectList(WithFiles(current, k, [last]))] ==
           entries[ProjectsKey := ProjectList(WithFiles(current, k, [last]))];
  }

  /**
   * The net effect of uploading `names` to project `id`: nothing when no
   * project has that id; otherwise the first project with it gets all the
   * names appended to its files in order, and no other record or key changes.
   */
  lemma {:induction false} AttachAllAppends(entries: map<Key, Value>, id: int, names: seq<string>)
    requires WellTyped(entries)
    ensures var projects := LoadProjects(entries);
            var k := ProjectIndex(projects, id);
            && (k == -1 ==> AttachAll(entries, id, names) == entries)
            && (k >= 0 && names != [] ==>
                  AttachAll(entries, id, names) == entries[ProjectsKey := ProjectList(WithFiles(projects, k, names))])
  {
    if names != [] {
      var init, last := names[..|names| - 1], names[|names| - 1];
      assert init + [last] == names;
      AttachAllAppends(entries, id, init);
      var k := ProjectIndex(LoadProjects(entries), id);
      AttachAllSnoc(entries, id, init, last);
      if k >= 0 && init == [] {
        AttachOneFound(entries, id, k, last);
      } else if k >= 0 {
        AttachStep(entries, id, k, init, last);
      } else {
        AttachOneMissing(entries, id, last);
      }
    }
  }

  /**
   * The storage object. Every method is one event handler's
   * read-modify-write cycle on `entries`.
   */
  class LocalStorage {
    var entries: map<Key, Value>

    ghost predicate Valid()
      reads this
    {
      WellTyped(entries)
    }

    constructor (initial: map<Key, Value>)
      requires WellTyped(initial)
      ensures Valid() && entries == initial
    {
      entries := initial;
    }

    /** The task list every handler starts from. */
    function Tasks(): seq<Task>
      reads this
      requires Valid()
    {
      LoadTasks(entries)
    }

    /** The project list every handler starts from. */
    function Projects(): seq<Project>
      reads this
      requires Valid()
    {
      LoadProjects(entries)
    }

    /**
     * `addNewTask`: blank input is refused and nothing is written; otherwise
     * one open, unstarred task with the trimmed text is appended and the list saved.
     */
    method AddNewTask(input: string, id: int) returns (added: bool)
      requires Valid()
      modifies this
      ensures Valid()
      ensures added <==> !IsBlank(input)
      ensures !added ==> entries == old(entries)
      ensures added ==> entries == old(entries)[TasksKey := TaskList(old(Tasks()) + [Task(id, Trim(input), false, false)])]
      ensures Tasks() == if added then old(Tasks()) + [Task(id, Trim(input), false, false)] else old(Tasks())
      ensures Projects() == old(Projects())
    {
      var text := Trim(input);
      if text == [] {
        return false;
      }
      var tasks := LoadTasks(entries);
      tasks := tasks + [Task(id, text, false, false)];
      entries := entries[TasksKey := TaskList(tasks)];
      added := true;
    }

    /**
     * `addNewProject`: blank input is refused and nothing is written;
     * otherwise one active project with the trimmed title, the stock
     * description and no files is appended and the list saved.
     */
    method AddNewProject(input: string, id: int) returns (added: bool)
      requires Valid()
      modifies this
      ensures Valid()
      ensures added <==> !IsBlank(input)
      ensures !added ==> entries == old(entries)
      ensures added ==> entries == old(entries)[ProjectsKey := ProjectList(old(Projects()) +
                                    [Project(id, Trim(input), NewProjectDescription, Active, [])])]
      ensures Projects() == if added then old(Projects()) + [Project(id, Trim(input), NewProjectDescription, Active, [])]
                            else old(Projects())
      ensures Tasks() == old(Tasks())
    {
      var title := Trim(input);
      if title == [] {
        return false;
      }
      var projects := LoadProjects(entries);
      projects := projects + [Project(id, title, NewProjectDescription, Active, [])];
      entries := entries[ProjectsKey := ProjectList(projects)];
      added := true;
    }

    /** `updateTaskStatus`: the first task with `id` gets `completed`; saved only if there is one. */
    method UpdateTaskStatus(id: int, completed: bool)
      requires Valid()
      modifies this
      ensures Valid()
      ensures TaskIndex(old(Tasks()), id) == -1 ==> entries == old(entries)
      ensures TaskIndex(old(Tasks()), id) >= 0 ==>
                entries == old(entries)[TasksKey := TaskList(SetCompleted(old(Tasks()), id, completed))]
    {
      var tasks := LoadTasks(entries);
      var k := TaskIndex(tasks, id);
      if k != -1 {
        tasks := tasks[k := tasks[k].(completed := completed)];
        entries := entries[TasksKey := TaskList(tasks)];
      }
    }

    /** `updateTaskPriority`: the first task with `id` gets `priority`; saved only if there is one. */
    method UpdateTaskPriority(id: int, priority: bool)
      requires Valid()
      modifies this
      ensures Valid()
      ensures TaskIndex(old(Tasks()), id) == -1 ==> entries == old(entries)
      ensures TaskIndex(old(Tasks()), id) >= 0 ==>
                entries == old(entries)[TasksKey := TaskList(SetPriority(old(Tasks()), id, priority))]
    {
      var tasks := LoadTasks(entries);
      var k := TaskIndex(tasks, id);
      if k != -1 {
        tasks := tasks[k := tasks[k].(priority := priority)];
        entries := entries[TasksKey := TaskList(tasks)];
      }
    }

    /** `deleteTask`: every task with `id` is dropped and the list is saved, found or not. */
    method DeleteTask(id: int)
      requires Valid()
      modifies this
      ensures Valid()
      ensures entries == old(entries)[TasksKey := TaskList(WithoutTask(old(Tasks()), id))]
    {
      entries := entries[TasksKey := TaskList(WithoutTask(Tasks(), id))];
    }

    /**
     * Committing a title edit: the first project with `id` gets the trimmed
     * input, or `shownTitle` (the title on screen when editing began) when the input is blank.
     */
    method EditProjectTitle(id: int, input: string, shownTitle: string)
      requires Valid()
      modifies this
      ensures Valid()
      ensures ProjectIndex(old(Projects()), id) == -1 ==> entries == old(entries)
      ensures ProjectIndex(old(Projects()), id) >= 0 ==>
                entries == old(entries)[ProjectsKey := ProjectList(SetTitle(old(Projects()), id, Edited(input, shownTitle)))]
    {
      var projects := LoadProjects(entries);
      var k := ProjectIndex(projects, id);
      if k != -1 {
        projects := projects[k := projects[k].(title := Edited(input, shownTitle))];
        entries := entries[ProjectsKey := ProjectList(projects)];
      }
    }

    /** Committing a description edit, with the same fall-back to the text shown before. */
    method EditProjectDescription(id: int, input: string, shownDescription: string)
      requires Valid()
      modifies this
      ensures Valid()
      ensures ProjectIndex(old(Projects()), id) == -1 ==> entries == old(entries)
      ensures ProjectIndex(old(Projects()), id) >= 0 ==>
                entries == old(entries)[ProjectsKey := ProjectList(SetDescription(old(Projects()), id, Edited(input, shownDescription)))]
    {
      var projects := LoadProjects(entries);
      var k := ProjectIndex(projects, id);
      if k != -1 {
        projects := projects[k := projects[k].(description := Edited(input, shownDescription))];
        entries := entries[ProjectsKey := ProjectList(projects)];
      }
    }

    /**
     * Clicking a status badge: the new status is the opposite of the one
     * shown, and it is stored on the first project with `id`, if any.
     */
    method ToggleProjectStatus(id: int, shown: Status) returns (newStatus: Status)
      requires Valid()
      modifies this
      ensures Valid()
      ensures newStatus != shown
      ensures ProjectIndex(old(Projects()), id) == -1 ==> entries == old(entries)
      ensures ProjectIndex(old(Projects()), id) >= 0 ==>
                entries == old(entries)[ProjectsKey := ProjectList(SetStatus(old(Projects()), id, newStatus))]
    {
      newStatus := if shown == Active then Completed else Active;
      var projects := LoadProjects(entries);
      var k := ProjectIndex(projects, id);
      if k != -1 {
        projects := projects[k := projects[k].(status := newStatus)];
        entries := entries[ProjectsKey := ProjectList(projects)];
      }
    }

    /** One pass of the file-upload loop: reload the projects, append `name` to project `id`, save if found. */
    method AttachFile(id: int, name: string)
      requires Valid()
      modifies this
      ensures Valid()
      ensures entries == AttachOne(old(entries), id, name)
    {
      var projects := Projects();
      if ProjectIndex(projects, id) != -1 {
        entries := entries[ProjectsKey := ProjectList(AppendFile(projects, id, name))];
      }
    }

    /**
     * The file-upload handler: for each selected file in turn, reload the
     * projects, append the file name to project `id` and save.
     */
    method AttachFiles(id: int, names: seq<string>)
      requires Valid()
      modifies this
      ensures Valid()
      ensures entries == AttachAll(old(entries), id, names)
      ensures ProjectIndex(old(Projects()), id) == -1 ==> entries == old(entries)
      ensures ProjectIndex(old(Projects()), id) >= 0 && names != [] ==>
                entries == old(entries)[ProjectsKey := ProjectList(
                             WithFiles(old(Projects()), ProjectIndex(old(Projects()), id), names))]
    {
      for i := 0 to |names|
        invariant Valid()
        invariant entries == AttachAll(old(entries), id, names[..i])
      {
        AttachFile(id, names[i]);
        assert names[..i + 1][..i] == names[..i];
      }
      assert entries == AttachAll(old(entries), id, names) by {
        assert names[..|names|] == names;
      }
      AttachAllAppends(old(entries), id, names);
    }
  }
}
