/** The task list and its persistence (src/task/store.rs).

    Each operation of `TaskStore` loads the whole list, changes it as a
    `Vec<Task>` and saves it back. The list is a `seq<Task>`; the tasks
    file is the field `file` of the store, whose content is taken to
    round-trip losslessly through JSON. Whether a write succeeds is the
    input `writeOk`. */
module Store {
  import opened Wrappers
  import opened Tasks

  // ---------------------------------------------------------------------
  // Specification functions over the list
  // ---------------------------------------------------------------------

  /** The tasks with status `s`, in stored order. */
  function WithStatus(tasks: seq<Task>, s: TaskStatus): (r: seq<Task>)
    ensures |r| <= |tasks|
    ensures forall k :: 0 <= k < |r| ==> r[k].status == s
    ensures forall k :: 0 <= k < |tasks| && tasks[k].status == s ==> tasks[k] in r
    ensures forall t :: t in r ==> t in tasks
  {
    if tasks == [] then []
    else
      var rest := WithStatus(tasks[..|tasks| - 1], s);
      if tasks[|tasks| - 1].status == s then rest + [tasks[|tasks| - 1]] else rest
  }

  /** Filtering commutes with concatenation, so it keeps stored order. */
  lemma {:induction false} WithStatusConcat(a: seq<Task>, b: seq<Task>, s: TaskStatus)
    ensures WithStatus(a + b, s) == WithStatus(a, s) + WithStatus(b, s)
    decreases |b|
  {
    if b != [] {
      var b' := b[..|b| - 1];
      assert (a + b)[..|a + b| - 1] == a + b';
      WithStatusConcat(a, b', s);
    } else {
      assert a + b == a;
    }
  }

  /** The tasks whose id is not `id`, in stored order (`Vec::retain`). */
  function WithoutId(tasks: seq<Task>, id: string): (r: seq<Task>)
    ensures |r| <= |tasks|
    ensures forall k :: 0 <= k < |r| ==> r[k].id != id
    ensures forall k :: 0 <= k < |tasks| && tasks[k].id != id ==> tasks[k] in r
    ensures forall t :: t in r ==> t in tasks
  {
    if tasks == [] then []
    else
      var rest := WithoutId(tasks[..|tasks| - 1], id);
      if tasks[|tasks| - 1].id != id then rest + [tasks[|tasks| - 1]] else rest
  }

  lemma {:induction false} WithoutIdConcat(a: seq<Task>, b: seq<Task>, id: string)
    ensures WithoutId(a + b, id) == WithoutId(a, id) + WithoutId(b, id)
    decreases |b|
  {
    if b != [] {
      var b' := b[..|b| - 1];
      assert (a + b)[..|a + b| - 1] == a + b';
      WithoutIdConcat(a, b', id);
    } else {
      assert a + b == a;
    }
  }

  /** Removing an id that no task carries leaves the list as it was. */
  lemma {:induction false} WithoutAbsentId(tasks: seq<Task>, id: string)
    requires forall k :: 0 <= k < |tasks| ==> tasks[k].id != id
    ensures WithoutId(tasks, id) == tasks
  {
    if tasks != [] {
      var init, last := tasks[..|tasks| - 1], tasks[|tasks| - 1];
      assert tasks == init + [last];
      forall k | 0 <= k < |init| ensures init[k].id != id {
        assert init[k] == tasks[k];
      }
      WithoutAbsentId(init, id);
      WithoutIdSnoc(init, last, id);
    }
  }

  /** Removal from a list with one more task at the end. */
  lemma WithoutIdSnoc(init: seq<Task>, last: Task, id: string)
    ensures WithoutId(init + [last], id) ==
              if last.id != id then WithoutId(init, id) + [last] else WithoutId(init, id)
  {
    assert (init + [last])[..|init|] == init;
  }

  /** Position of the first task with id `id` (`iter().find`). */
  function FirstWithId(tasks: seq<Task>, id: string): (r: Option<nat>)
    ensures r.Some? ==> r.value < |tasks| && tasks[r.value].id == id
    ensures r.Some? ==> forall j :: 0 <= j < r.value ==> tasks[j].id != id
    ensures r.None? ==> forall j :: 0 <= j < |tasks| ==> tasks[j].id != id
  {
    if tasks == [] then None
    else if tasks[0].id == id then Some(0)
    else
      match FirstWithId(tasks[1..], id)
      case None => None
      case Some(i) => Some(i + 1)
  }

  /** The first task with id `id`, if any. */
  function FindById(tasks: seq<Task>, id: string): (r: Option<Task>)
    ensures r.Some? <==> exists k :: 0 <= k < |tasks| && tasks[k].id == id
    ensures r.Some? ==> r.value in tasks && r.value.id == id
    ensures r.Some? ==> exists i :: 0 <= i < |tasks| && tasks[i] == r.value &&
                                    forall j :: 0 <= j < i ==> tasks[j].id != id
  {
    match FirstWithId(tasks, id)
    case None => None
    case Some(i) => Some(tasks[i])
  }

  /** The positions of the tasks with status `s`. */
  function StatusPositions(tasks: seq<Task>, s: TaskStatus): set<nat> {
    set k: nat | k < |tasks| && tasks[k].status == s
  }

  /** The filter keeps a task exactly when it has the status. */
  lemma WithStatusSingle(t: Task, s: TaskStatus)
    ensures WithStatus([t], s) == if t.status == s then [t] else []
  {
    assert [t][..0] == [];
  }

  /** The filter keeps each task with the status once for every place it
      has in the list, so its length counts those places. */
  lemma {:induction false} WithStatusCount(tasks: seq<Task>, s: TaskStatus)
    ensures |WithStatus(tasks, s)| == |StatusPositions(tasks, s)|
  {
    if tasks != [] {
      var init := tasks[..|tasks| - 1];
      WithStatusCount(init, s);
      PositionsSnoc(tasks, s);
    }
  }

  /** The positions in a list are those in all but its last task, plus
      the last position when that task has the status. */
  lemma PositionsSnoc(tasks: seq<Task>, s: TaskStatus)
    requires tasks != []
    ensures var last := |tasks| - 1;
            var before := StatusPositions(tasks[..last], s);
            last !in before &&
            StatusPositions(tasks, s) == before + (if tasks[last].status == s then {last} else {})
  {
    var last := |tasks| - 1;
    var init := tasks[..last];
    assert forall k :: 0 <= k < |init| ==> init[k] == tasks[k];
  }

  /** Two Todo tasks and one InProgress task, stored in that order:
      two tasks are Todo, one is InProgress and none is Done. */
  lemma StatusCountsOfThree(a: Task, b: Task, c: Task)
    requires a.status == Todo && b.status == Todo && c.status == InProgress
    ensures WithStatus([a, b, c], Todo) == [a, b]
    ensures WithStatus([a, b, c], InProgress) == [c]
    ensures WithStatus([a, b, c], Done) == []
  {
    assert [a, b, c][..2] == [a, b];
    assert [a, b][..1] == [a];
    WithStatusSingle(a, Todo);
    WithStatusSingle(a, InProgress);
    WithStatusSingle(a, Done);
  }

  /** `update`'s change to the list: the first task with the same id is
      replaced by `task`; with no such task the list is unchanged. */
  function ReplaceFirst(tasks: seq<Task>, task: Task): (r: seq<Task>)
    ensures |r| == |tasks|
    ensures FirstWithId(tasks, task.id).None? ==> r == tasks
    ensures FirstWithId(tasks, task.id).Some? ==>
              var i := FirstWithId(tasks, task.id).value;
              r[i] == task && forall k :: 0 <= k < |tasks| && k != i ==> r[k] == tasks[k]
  {
    match FirstWithId(tasks, task.id)
    case None => tasks
    case Some(i) => tasks[i := task]
  }

  /** After an update, looking the id up finds the new version. */
  lemma FindAfterReplace(tasks: seq<Task>, task: Task)
    requires FirstWithId(tasks, task.id).Some?
    ensures FindById(ReplaceFirst(tasks, task), task.id) == Some(task)
  {
    var i := FirstWithId(tasks, task.id).value;
    var r := ReplaceFirst(tasks, task);
    var j := FirstWithId(r, task.id);
    assert r[i].id == task.id;
  }

  /** After a delete, looking the id up finds nothing. */
  lemma FindAfterRemove(tasks: seq<Task>, id: string)
    ensures FindById(WithoutId(tasks, id), id).None?
  {
  }

  /** A task appended under a fresh id is found by that id. */
  lemma FindAfterAppend(tasks: seq<Task>, task: Task)
    requires FindById(tasks, task.id).None?
    ensures FindById(tasks + [task], task.id) == Some(task)
  {
    var r := tasks + [task];
    assert r[|tasks|].id == task.id;
    assert forall k :: 0 <= k < |tasks| ==> r[k] == tasks[k];
  }

  /** Index in `tasks` of the `n`-th (from 0) task with status `s`
      (`iter_mut().filter(..).nth(n)`). */
  function NthWithStatus(tasks: seq<Task>, s: TaskStatus, n: nat): (r: Option<nat>)
    ensures r.Some? <==> n < |WithStatus(tasks, s)|
    ensures r.Some? ==> r.value < |tasks| && tasks[r.value].status == s
    ensures r.Some? ==> WithStatus(tasks, s)[n] == tasks[r.value]
    ensures r.Some? ==> |WithStatus(tasks[..r.value], s)| == n
  {
    if tasks == [] then None
    else
      var init := tasks[..|tasks| - 1];
      var before := |WithStatus(init, s)|;
      if n < before then
        var r := NthWithStatus(init, s, n);
        assert tasks[..r.value] == init[..r.value];
        r
      else if n == before && tasks[|tasks| - 1].status == s then Some(|tasks| - 1)
      else None
  }

  // ---------------------------------------------------------------------
  // The loops the source runs over the Vec
  // ---------------------------------------------------------------------

  /** `tasks.iter_mut().find(|t| t.id == id)`, as a position. */
  method FindPosition(tasks: seq<Task>, id: string) returns (r: Option<nat>)
    ensures r == FirstWithId(tasks, id)
  {
    var i := 0;
    while i < |tasks| && tasks[i].id != id
      invariant 0 <= i <= |tasks|
      invariant forall j :: 0 <= j < i ==> tasks[j].id != id
    {
      i := i + 1;
    }
    r := if i < |tasks| then Some(i) else None;
    FirstWithIdUnique(tasks, id, r);
  }

  lemma FirstWithIdUnique(tasks: seq<Task>, id: string, r: Option<nat>)
    requires r.Some? ==> r.value < |tasks| && tasks[r.value].id == id
    requires r.Some? ==> forall j :: 0 <= j < r.value ==> tasks[j].id != id
    requires r.None? ==> forall j :: 0 <= j < |tasks| ==> tasks[j].id != id
    ensures r == FirstWithId(tasks, id)
  {
  }

  /** `tasks.retain(|t| t.id != id)`. */
  method Retain(tasks: seq<Task>, id: string) returns (r: seq<Task>)
    ensures r == WithoutId(tasks, id)
  {
    r := [];
    var i := 0;
    while i < |tasks|
      invariant 0 <= i <= |tasks|
      invariant r == WithoutId(tasks[..i], id)
    {
      assert tasks[..i + 1][..i] == tasks[..i];
      if tasks[i].id != id {
        r := r + [tasks[i]];
      }
      i := i + 1;
    }
    assert tasks[..|tasks|] == tasks;
  }

  // ---------------------------------------------------------------------
  // The store
  // ---------------------------------------------------------------------

  /** What `.hive/tasks.json` holds: no file, a file that cannot be read,
      a file that is not a task list, or a stored list. */
  datatype TasksFile = Missing | Unreadable | Unparsable | Stored(tasks: seq<Task>)

  class TaskStore {
    var file: TasksFile

    constructor (file: TasksFile)
      ensures this.file == file
    {
      this.file := file;
    }

    /** `TaskStore::load`: a missing file is an empty list. */
    function Load(): (r: Result<seq<Task>>)
      reads this
      ensures file.Missing? ==> r == Ok([])
      ensures file.Stored? ==> r == Ok(file.tasks)
      ensures r.Err? <==> file.Unreadable? || file.Unparsable?
    {
      match file
      case Missing => Ok([])
      case Unreadable => Err("Failed to read tasks.json")
      case Unparsable => Err("Failed to parse tasks.json")
      case Stored(tasks) => Ok(tasks)
    }

    /** `TaskStore::save`. A failed write leaves the file as it was. */
    method Save(tasks: seq<Task>, writeOk: bool) returns (r: Outcome)
      modifies this
      ensures r.Pass? <==> writeOk
      ensures r.Fail? ==> r.error == "Failed to write tasks.json"
      ensures file == if writeOk then Stored(tasks) else old(file)
    {
      if writeOk {
        file := Stored(tasks);
        r := Pass;
      } else {
        r := Fail("Failed to write tasks.json");
      }
    }

    /** `TaskStore::add`: the task goes at the end. */
    method Add(task: Task, writeOk: bool) returns (r: Outcome)
      modifies this
      ensures old(Load()).Err? ==> r == Fail(old(Load()).error) && file == old(file)
      ensures old(Load()).Ok? ==> (r.Pass? <==> writeOk)
      ensures old(Load()).Ok? && writeOk ==> file == Stored(old(Load()).value + [task])
      ensures !writeOk ==> file == old(file)
    {
      var loaded := Load();
      if loaded.Err? {
        return Fail(loaded.error);
      }
      var tasks := loaded.value + [task];
      r := Save(tasks, writeOk);
    }

    /** `TaskStore::update`: replaces the first task with the same id and
        saves; with no such task it neither changes nor saves anything,
        and still succeeds. */
    method Update(task: Task, writeOk: bool) returns (r: Outcome)
      modifies this
      ensures old(Load()).Err? ==> r == Fail(old(Load()).error) && file == old(file)
      ensures old(Load()).Ok? && FirstWithId(old(Load()).value, task.id).None? ==>
                r.Pass? && file == old(file)
      ensures old(Load()).Ok? && FirstWithId(old(Load()).value, task.id).Some? ==>
                (r.Pass? <==> writeOk) &&
                file == if writeOk then Stored(ReplaceFirst(old(Load()).value, task)) else old(file)
    {
      var loaded := Load();
      if loaded.Err? {
        return Fail(loaded.error);
      }
      var tasks := loaded.value;
      var found := FindPosition(tasks, task.id);
      if found.Some? {
        tasks := tasks[found.value := task];
        r := Save(tasks, writeOk);
        if r.Fail? {
          return;
        }
      }
      r := Pass;
    }

    /** `TaskStore::delete`: every task with the id goes, the rest keep
        their order; the list is saved even when nothing matched. */
    method Delete(id: string, writeOk: bool) returns (r: Outcome)
      modifies this
      ensures old(Load()).Err? ==> r == Fail(old(Load()).error) && file == old(file)
      ensures old(Load()).Ok? ==> (r.Pass? <==> writeOk)
      ensures old(Load()).Ok? && writeOk ==> file == Stored(WithoutId(old(Load()).value, id))
      ensures !writeOk ==> file == old(file)
    {
      var loaded := Load();
      if loaded.Err? {
        return Fail(loaded.error);
      }
      var tasks := Retain(loaded.value, id);
      r := Save(tasks, writeOk);
    }

    /** `TaskStore::get`: the first stored task with the id. */
    function Get(id: string): (r: Result<Option<Task>>)
      reads this
      ensures r.Err? <==> Load().Err?
      ensures r.Ok? ==> (r.value.Some? <==> exists k :: 0 <= k < |Load().value| && Load().value[k].id == id)
      ensures r.Ok? && r.value.Some? ==> r.value.value.id == id && r.value.value in Load().value
      ensures r.Ok? ==> r.value == FindById(Load().value, id)
    {
      match Load()
      case Err(e) => Err(e)
      case Ok(tasks) => Ok(FindById(tasks, id))
    }

    /** `TaskStore::get_by_status`: exactly the stored tasks with that
        status, in stored order. */
    function GetByStatus(s: TaskStatus): (r: Result<seq<Task>>)
      reads this
      ensures r.Err? <==> Load().Err?
      ensures r.Ok? ==> forall k :: 0 <= k < |r.value| ==> r.value[k].status == s && r.value[k] in Load().value
      ensures r.Ok? ==> forall k :: 0 <= k < |Load().value| && Load().value[k].status == s ==> Load().value[k] in r.value
      ensures r.Ok? ==> r.value == WithStatus(Load().value, s)
    {
      match Load()
      case Err(e) => Err(e)
      case Ok(tasks) => Ok(WithStatus(tasks, s))
    }
  }
}
