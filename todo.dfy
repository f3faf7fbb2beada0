/**
  The to-do list page: an in-memory array of tasks, newest first, and the id of
  the task whose edit form is open. Ids and creation times, which the page
  draws from the clock and the random generator, are inputs.
 */
module Todo {
  import opened Wrappers
  import opened Text
  import Seqs

  datatype Task = Task(id: string, title: string, details: string, completed: bool, createdAt: int)

  /** The page's two pieces of state. */
  datatype TodoState = TodoState(tasks: seq<Task>, editingTaskId: Option<string>)

  /** No two tasks share an id. */
  predicate UniqueIds(tasks: seq<Task>) {
    forall i, j :: 0 <= i < j < |tasks| ==> tasks[i].id != tasks[j].id
  }

  predicate HasId(tasks: seq<Task>, id: string) {
    exists i :: 0 <= i < |tasks| && tasks[i].id == id
  }

  /** `tasks.findIndex(t => t.id === id)`. */
  function IndexOfId(tasks: seq<Task>, id: string): (r: int)
    ensures -1 <= r < |tasks|
    ensures r >= 0 ==> tasks[r].id == id && forall j :: 0 <= j < r ==> tasks[j].id != id
    ensures r == -1 <==> !HasId(tasks, id)
  {
    var ids := seq(|tasks|, i requires 0 <= i < |tasks| => tasks[i].id);
    assert HasId(tasks, id) ==> id in ids by {
      if HasId(tasks, id) {
        var i :| 0 <= i < |tasks| && tasks[i].id == id;
        assert ids[i] == id;
      }
    }
    assert forall j :: 0 <= j < |tasks| ==> ids[j] == tasks[j].id;
    Seqs.FindIndex(ids, id)
  }

  /** `createTask`: a new, not yet completed task. */
  function CreateTask(title: string, details: string, id: string, now: int): Task {
    Task(id, title, details, false, now)
  }

  /** The id in edit mode is truthy: present and non-empty. */
  predicate Editing(editingTaskId: Option<string>) {
    editingTaskId.Some? && editingTaskId.value != ""
  }

  /** The list after `splice(index, 1)`, when `index` is found. */
  function Deleted(tasks: seq<Task>, id: string): seq<Task> {
    var k := IndexOfId(tasks, id);
    if k == -1 then tasks else tasks[..k] + tasks[k + 1..]
  }

  /** The list after the edit branch writes the title and details of the task with `id`, if any. */
  function Edited(tasks: seq<Task>, id: string, title: string, details: string): seq<Task> {
    var k := IndexOfId(tasks, id);
    if k == -1 then tasks else tasks[k := tasks[k].(title := title, details := details)]
  }

  /** The list after the checkbox of task `i` reports `checked`. */
  function Checked(tasks: seq<Task>, i: nat, checked: bool): seq<Task>
    requires i < |tasks|
  {
    tasks[i := tasks[i].(completed := checked)]
  }

  /** The state after the form is submitted with the two fields' current values. */
  function AfterSubmit(s: TodoState, titleValue: string, detailsValue: string, freshId: string, now: int): TodoState {
    var title := Trim(titleValue);
    var details := Trim(detailsValue);
    if title == [] then s
    else if Editing(s.editingTaskId) then TodoState(Edited(s.tasks, s.editingTaskId.value, title, details), None)
    else TodoState([CreateTask(title, details, freshId, now)] + s.tasks, s.editingTaskId)
  }

  /** A title that is blank after trimming changes nothing. */
  lemma BlankTitleRejected(s: TodoState, titleValue: string, detailsValue: string, freshId: string, now: int)
    requires AllSpace(titleValue)
    ensures AfterSubmit(s, titleValue, detailsValue, freshId, now) == s
  {
    TrimEmptyIff(titleValue);
  }

  /**
    Outside edit mode a non-blank title adds one task at the front, with the
    trimmed title and details and not completed, and every earlier task follows
    it unchanged and in order.
   */
  lemma SubmitAddsAtFront(s: TodoState, titleValue: string, detailsValue: string, freshId: string, now: int)
    requires !AllSpace(titleValue) && !Editing(s.editingTaskId)
    ensures var t := AfterSubmit(s, titleValue, detailsValue, freshId, now);
      && |t.tasks| == |s.tasks| + 1
      && t.tasks[0] == Task(freshId, Trim(titleValue), Trim(detailsValue), false, now)
      && Trim(titleValue) != [] && Trimmed(t.tasks[0].title) && Trimmed(t.tasks[0].details)
      && t.tasks[1..] == s.tasks
      && t.editingTaskId == s.editingTaskId
  {
    TrimEmptyIff(titleValue);
    var t := AfterSubmit(s, titleValue, detailsValue, freshId, now);
    assert t.tasks == [t.tasks[0]] + s.tasks;
  }

  /**
    In edit mode with the target present, only that task's title and details
    change; its place, id, state and creation time stay, and edit mode ends.
   */
  lemma SubmitEditsTarget(s: TodoState, titleValue: string, detailsValue: string, freshId: string, now: int)
    requires !AllSpace(titleValue) && Editing(s.editingTaskId) && HasId(s.tasks, s.editingTaskId.value)
    ensures var t := AfterSubmit(s, titleValue, detailsValue, freshId, now);
      var k := IndexOfId(s.tasks, s.editingTaskId.value);
      && 0 <= k && |t.tasks| == |s.tasks|
      && t.tasks[k].title == Trim(titleValue) && t.tasks[k].details == Trim(detailsValue)
      && t.tasks[k].id == s.tasks[k].id && t.tasks[k].completed == s.tasks[k].completed
      && t.tasks[k].createdAt == s.tasks[k].createdAt
      && (forall j :: 0 <= j < |s.tasks| && j != k ==> t.tasks[j] == s.tasks[j])
      && t.editingTaskId == None
  {
    TrimEmptyIff(titleValue);
    var title, details := Trim(titleValue), Trim(detailsValue);
    assert AfterSubmit(s, titleValue, detailsValue, freshId, now)
      == TodoState(Edited(s.tasks, s.editingTaskId.value, title, details), None);
    EditedAt(s.tasks, s.editingTaskId.value, title, details);
  }

  /** The edit writes title and details of the first task with `id` and nothing else. */
  lemma EditedAt(tasks: seq<Task>, id: string, title: string, details: string)
    requires HasId(tasks, id)
    ensures var t := Edited(tasks, id, title, details);
      var k := IndexOfId(tasks, id);
      && 0 <= k && |t| == |tasks|
      && t[k] == Task(tasks[k].id, title, details, tasks[k].completed, tasks[k].createdAt)
      && (forall j :: 0 <= j < |tasks| && j != k ==> t[j] == tasks[j])
  {
  }

  /** In edit mode with the target gone, the list is unchanged and edit mode ends. */
  lemma SubmitEditsNothing(s: TodoState, titleValue: string, detailsValue: string, freshId: string, now: int)
    requires !AllSpace(titleValue) && Editing(s.editingTaskId) && !HasId(s.tasks, s.editingTaskId.value)
    ensures AfterSubmit(s, titleValue, detailsValue, freshId, now) == TodoState(s.tasks, None)
  {
    TrimEmptyIff(titleValue);
  }

  /** Editing a task leaves every id where it was. */
  lemma EditKeepsIds(tasks: seq<Task>, id: string, title: string, details: string)
    ensures var t := Edited(tasks, id, title, details);
      |t| == |tasks| && forall j :: 0 <= j < |t| ==> t[j].id == tasks[j].id
  {
  }

  /** A submit keeps ids unique when the new id is fresh. */
  lemma SubmitKeepsIdsUnique(s: TodoState, titleValue: string, detailsValue: string, freshId: string, now: int)
    requires UniqueIds(s.tasks) && !HasId(s.tasks, freshId)
    ensures UniqueIds(AfterSubmit(s, titleValue, detailsValue, freshId, now).tasks)
  {
    var title, details := Trim(titleValue), Trim(detailsValue);
    if title == [] {
    } else if Editing(s.editingTaskId) {
      EditKeepsIds(s.tasks, s.editingTaskId.value, title, details);
    } else {
      var t := [CreateTask(title, details, freshId, now)] + s.tasks;
      forall i, j | 0 <= i < j < |t| ensures t[i].id != t[j].id {
        assert t[j] == s.tasks[j - 1];
        if i > 0 { assert t[i] == s.tasks[i - 1]; }
      }
    }
  }

  /** Deleting removes the first task with the id and keeps the others in order; an unknown id changes nothing. */
  lemma DeleteRemovesFirst(tasks: seq<Task>, id: string)
    ensures !HasId(tasks, id) ==> Deleted(tasks, id) == tasks
    ensures HasId(tasks, id) ==>
      var k := IndexOfId(tasks, id);
      && Deleted(tasks, id) == tasks[..k] + tasks[k + 1..]
      && |Deleted(tasks, id)| == |tasks| - 1
      && (forall j :: 0 <= j < k ==> Deleted(tasks, id)[j] == tasks[j])
      && (forall j :: k <= j < |tasks| - 1 ==> Deleted(tasks, id)[j] == tasks[j + 1])
  {
    if HasId(tasks, id) {
      var k := IndexOfId(tasks, id);
      var d := tasks[..k] + tasks[k + 1..];
      assert Deleted(tasks, id) == d;
      forall j | k <= j < |tasks| - 1 ensures d[j] == tasks[j + 1] {
        assert d[j] == tasks[k + 1..][j - k];
      }
    }
  }

  /** Cutting out position `k` leaves every other element, each as often as before. */
  lemma CutMultiset<T>(s: seq<T>, k: nat)
    requires k < |s|
    ensures multiset(s[..k] + s[k + 1..]) + multiset{s[k]} == multiset(s)
  {
    assert s == s[..k] + [s[k]] + s[k + 1..];
  }

  /** Deleting takes exactly one task, the first with the id, out of the list. */
  lemma DeleteTakesOneTask(tasks: seq<Task>, id: string)
    requires HasId(tasks, id)
    ensures multiset(Deleted(tasks, id)) + multiset{tasks[IndexOfId(tasks, id)]} == multiset(tasks)
  {
    DeleteRemovesFirst(tasks, id);
    CutMultiset(tasks, IndexOfId(tasks, id));
  }

  /** With unique ids, no task with the deleted id is left, and ids stay unique. */
  lemma DeleteLeavesNoId(tasks: seq<Task>, id: string)
    requires UniqueIds(tasks)
    ensures !HasId(Deleted(tasks, id), id)
    ensures UniqueIds(Deleted(tasks, id))
  {
    DeleteRemovesFirst(tasks, id);
    var d := Deleted(tasks, id);
    if HasId(tasks, id) {
      var k := IndexOfId(tasks, id);
      forall j | 0 <= j < |d| ensures d[j].id != id {
        if j >= k { assert d[j] == tasks[j + 1]; } else { assert d[j] == tasks[j]; }
      }
      forall i, j | 0 <= i < j < |d| ensures d[i].id != d[j].id {
        var i' := if i < k then i else i + 1;
        var j' := if j < k then j else j + 1;
        assert d[i] == tasks[i'] && d[j] == tasks[j'];
      }
    }
  }

  /** The checkbox sets `completed` to its value, touches nothing else, and repeating it changes nothing more. */
  lemma CheckboxAssigns(tasks: seq<Task>, i: nat, checked: bool)
    requires i < |tasks|
    ensures var t := Checked(tasks, i, checked);
      && |t| == |tasks| && t[i].completed == checked
      && t[i] == tasks[i].(completed := checked)
      && (forall j :: 0 <= j < |tasks| && j != i ==> t[j] == tasks[j])
      && Checked(t, i, checked) == t
      && (UniqueIds(tasks) ==> UniqueIds(t))
  {
  }

  /** The page's state. */
  class TodoApp {
    var tasks: seq<Task>
    var editingTaskId: Option<string>

    function State(): TodoState
      reads this
    {
      TodoState(tasks, editingTaskId)
    }

    /** An empty list, not editing. */
    constructor()
      ensures State() == TodoState([], None)
    {
      tasks := [];
      editingTaskId := None;
    }

    /** `tasks.findIndex(t => t.id === id)`: the first position holding `id`, or -1. */
    method FindIndex(id: string) returns (index: int)
      ensures index == IndexOfId(tasks, id)
    {
      index := 0;
      while index < |tasks|
        invariant 0 <= index <= |tasks|
        invariant forall j :: 0 <= j < index ==> tasks[j].id != id
      {
        if tasks[index].id == id {
          return;
        }
        index := index + 1;
      }
      index := -1;
    }

    /** The form's submit handler, given the two fields' values. */
    method Submit(titleValue: string, detailsValue: string, freshId: string, now: int)
      modifies this
      ensures State() == AfterSubmit(old(State()), titleValue, detailsValue, freshId, now)
    {
      var title := Trim(titleValue);
      var details := Trim(detailsValue);
      if |title| == 0 {
        return;
      }
      if Editing(editingTaskId) {
        var idx := FindIndex(editingTaskId.value);
        if idx != -1 {
          tasks := tasks[idx := tasks[idx].(title := title, details := details)];
        }
        editingTaskId := None;
      } else {
        var newTask := CreateTask(title, details, freshId, now);
        tasks := [newTask] + tasks;
      }
    }

    /** The Delete button of a task with `id`. */
    method Delete(id: string)
      modifies this
      ensures tasks == Deleted(old(tasks), id)
      ensures editingTaskId == old(editingTaskId)
    {
      var index := FindIndex(id);
      if index != -1 {
        tasks := tasks[..index] + tasks[index + 1..];
      }
    }

    /** The checkbox of the task shown at position `i`. */
    method SetCompleted(i: nat, checked: bool)
      requires i < |tasks|
      modifies this
      ensures tasks == Checked(old(tasks), i, checked)
      ensures editingTaskId == old(editingTaskId)
    {
      tasks := tasks[i := tasks[i].(completed := checked)];
    }

    /** The Edit button of the task at position `i`: enters edit mode and returns the values put in the form. */
    method EditClick(i: nat) returns (titleValue: string, detailsValue: string)
      requires i < |tasks|
      modifies this
      ensures tasks == old(tasks)
      ensures editingTaskId == Some(tasks[i].id)
      ensures titleValue == tasks[i].title && detailsValue == tasks[i].details
    {
      titleValue := tasks[i].title;
      detailsValue := tasks[i].details;
      editingTaskId := Some(tasks[i].id);
    }
  }
}
