/**
 * The task board of app/tasks/components/KanbanBoard.tsx: an ordered list of
 * columns, an ordered list of tasks that each name their column, and the
 * handlers that the board's buttons and drag-and-drop events call.
 *
 * Each handler hands a pure updater to a React state setter; the updaters are
 * the functions of this module, the handlers the methods of class `Board`.
 */
module Kanban {
  import opened Wrappers
  import opened ListOps
  import JsString

  type Id = string

  datatype Column = Column(id: Id, title: string)

  datatype Task = Task(id: Id, columnId: Id, content: string)

  /** The `data.current` payload of a draggable: its `type` tag and the record it carries. */
  datatype DragData = DragData(kind: string, column: Option<Column>, task: Option<Task>)

  /** `event.active` or `event.over`: a draggable's id and its payload, if it has one. */
  datatype DragItem = DragItem(id: Id, data: Option<DragData>)

  /** The tag a task card sends (TaskCard.tsx) and the tag a column sends (ColumnContainer.tsx). */
  const TaskKind := "Task"
  const ColumnKind := "Column"

  /** `item.data.current?.type === kind`. */
  predicate IsKind(item: DragItem, kind: string)
  {
    item.data.Some? && item.data.value.kind == kind
  }

  function ColumnIds(columns: seq<Column>): set<Id>
  {
    set c | c in columns :: c.id
  }

  /** The board invariant: every task names an existing column. */
  predicate NoOrphans(columns: seq<Column>, tasks: seq<Task>)
  {
    forall t | t in tasks :: t.columnId in ColumnIds(columns)
  }

  function TaskId(t: Task): Id { t.id }

  function TaskIds(tasks: seq<Task>): seq<Id> { Map(tasks, TaskId) }

  // Selectors and field updates handed to filter, map and findIndex.
  function ColumnIdIs(id: Id): Column -> bool { (c: Column) => c.id == id }
  function ColumnIdIsNot(id: Id): Column -> bool { (c: Column) => c.id != id }
  function TaskIdIs(id: Id): Task -> bool { (t: Task) => t.id == id }
  function TaskIdIsNot(id: Id): Task -> bool { (t: Task) => t.id != id }
  function InColumn(id: Id): Task -> bool { (t: Task) => t.columnId == id }
  function NotInColumn(id: Id): Task -> bool { (t: Task) => t.columnId != id }
  function WithTitle(title: string): Column -> Column { (c: Column) => c.(title := title) }
  function WithContent(content: string): Task -> Task { (t: Task) => t.(content := content) }

  /** The content `createTask` gives a new task: "Task " followed by the new task count. */
  function TaskLabel(n: nat): string
  {
    "Task " + JsString.Decimal(n)
  }

  const NewColumnTitle := "New Column"

  /** `createTask`'s updater: append one task with the given column. */
  function AddTask(tasks: seq<Task>, columnId: Id, freshId: Id): (r: seq<Task>)
    ensures |r| == |tasks| + 1 && r[..|tasks|] == tasks
    ensures r[|tasks|].id == freshId && r[|tasks|].columnId == columnId
    ensures r[|tasks|].content == TaskLabel(|tasks| + 1)
  {
    tasks + [Task(freshId, columnId, TaskLabel(|tasks| + 1))]
  }

  /** `createTask` keeps the invariant exactly when the column it is given exists. */
  lemma AddTaskNoOrphans(columns: seq<Column>, tasks: seq<Task>, columnId: Id, freshId: Id)
    requires NoOrphans(columns, tasks)
    ensures NoOrphans(columns, AddTask(tasks, columnId, freshId)) <==> columnId in ColumnIds(columns)
  {
    var r := AddTask(tasks, columnId, freshId);
    assert r[|tasks|] in r;
    assert forall t | t in r :: t in tasks || t == r[|tasks|];
  }

  /** `createTask` does not check its column: on an empty board it creates an orphan. */
  lemma AddTaskUnchecked()
    ensures !NoOrphans([], AddTask([], "c", "t"))
  {
    var r := AddTask([], "c", "t");
    assert r[0] in r;
  }

  /** `createNewColumn`'s updater: append one column titled "New Column". */
  function AddColumn(columns: seq<Column>, freshId: Id): (r: seq<Column>)
    ensures |r| == |columns| + 1 && r[..|columns|] == columns
    ensures r[|columns|].id == freshId && r[|columns|].title == NewColumnTitle
    ensures ColumnIds(r) == ColumnIds(columns) + {freshId}
  {
    var r := columns + [Column(freshId, NewColumnTitle)];
    assert r[|columns|] in r;
    assert forall c | c in r :: c in columns || c == r[|columns|];
    r
  }

  /** `updateColumn`'s updater: retitle every column with the id; nothing else changes. */
  function RenameColumn(columns: seq<Column>, id: Id, title: string): (r: seq<Column>)
    ensures |r| == |columns|
    ensures forall i :: 0 <= i < |columns| ==> r[i].id == columns[i].id
    ensures forall i :: 0 <= i < |columns| && columns[i].id == id ==> r[i].title == title
    ensures forall i :: 0 <= i < |columns| && columns[i].id != id ==> r[i] == columns[i]
  {
    MapWhere(columns, ColumnIdIs(id), WithTitle(title))
  }

  /** Renaming keeps the set of column ids, and so the invariant. */
  lemma RenameColumnNoOrphans(columns: seq<Column>, tasks: seq<Task>, id: Id, title: string)
    requires NoOrphans(columns, tasks)
    ensures ColumnIds(RenameColumn(columns, id, title)) == ColumnIds(columns)
    ensures NoOrphans(RenameColumn(columns, id, title), tasks)
  {
    var r := RenameColumn(columns, id, title);
    forall x | x in ColumnIds(columns)
      ensures x in ColumnIds(r)
    {
      var i :| 0 <= i < |columns| && columns[i].id == x;
      assert r[i] in r;
    }
    forall x | x in ColumnIds(r)
      ensures x in ColumnIds(columns)
    {
      var i :| 0 <= i < |r| && r[i].id == x;
      assert columns[i] in columns;
    }
  }

  /** Renaming an id no column has changes nothing. */
  lemma RenameUnknownColumn(columns: seq<Column>, id: Id, title: string)
    requires id !in ColumnIds(columns)
    ensures RenameColumn(columns, id, title) == columns
  {
    forall i | 0 <= i < |columns|
      ensures !ColumnIdIs(id)(columns[i])
    {
      assert columns[i] in columns;
    }
    MapWhereNoMatch(columns, ColumnIdIs(id), WithTitle(title));
  }

  /** `deleteColumn`'s first updater: drop every column with the id. */
  function RemoveColumn(columns: seq<Column>, id: Id): (r: seq<Column>)
    ensures forall c :: c in r <==> c in columns && c.id != id
    ensures ColumnIds(r) == ColumnIds(columns) - {id}
    ensures forall c: Column :: c.id != id ==> multiset(r)[c] == multiset(columns)[c]
    ensures Subseq(r, columns)
  {
    var r := Filter(columns, ColumnIdIsNot(id));
    forall c: Column | c.id != id
      ensures multiset(r)[c] == multiset(columns)[c]
    {
      FilterMultiset(columns, ColumnIdIsNot(id), c);
    }
    r
  }

  /** `deleteColumn`'s second updater: drop every task of that column. */
  function RemoveColumnTasks(tasks: seq<Task>, id: Id): (r: seq<Task>)
    ensures forall t :: t in r <==> t in tasks && t.columnId != id
    ensures forall t: Task :: t.columnId != id ==> multiset(r)[t] == multiset(tasks)[t]
    ensures Subseq(r, tasks)
  {
    var r := Filter(tasks, NotInColumn(id));
    forall t: Task | t.columnId != id
      ensures multiset(r)[t] == multiset(tasks)[t]
    {
      FilterMultiset(tasks, NotInColumn(id), t);
    }
    r
  }

  /** Deleting a column together with its tasks keeps every remaining task's column. */
  lemma DeleteColumnNoOrphans(columns: seq<Column>, tasks: seq<Task>, id: Id)
    requires NoOrphans(columns, tasks)
    ensures NoOrphans(RemoveColumn(columns, id), RemoveColumnTasks(tasks, id))
  {
  }

  /** Deleting a column removes exactly as many tasks as the column held. */
  lemma {:induction false} DeleteColumnCount(tasks: seq<Task>, id: Id)
    ensures |RemoveColumnTasks(tasks, id)| == |tasks| - |Filter(tasks, InColumn(id))|
  {
    FilterPartition(tasks, NotInColumn(id), InColumn(id));
  }

  /** `updateTask`'s updater: rewrite the content of every task with the id; nothing else changes. */
  function EditTask(tasks: seq<Task>, id: Id, content: string): (r: seq<Task>)
    ensures |r| == |tasks|
    ensures forall i :: 0 <= i < |tasks| ==> r[i].id == tasks[i].id && r[i].columnId == tasks[i].columnId
    ensures forall i :: 0 <= i < |tasks| && tasks[i].id == id ==> r[i].content == content
    ensures forall i :: 0 <= i < |tasks| && tasks[i].id != id ==> r[i] == tasks[i]
  {
    MapWhere(tasks, TaskIdIs(id), WithContent(content))
  }

  /** Editing a task keeps the invariant. */
  lemma EditTaskNoOrphans(columns: seq<Column>, tasks: seq<Task>, id: Id, content: string)
    requires NoOrphans(columns, tasks)
    ensures NoOrphans(columns, EditTask(tasks, id, content))
  {
    var r := EditTask(tasks, id, content);
    forall t | t in r
      ensures t.columnId in ColumnIds(columns)
    {
      var i :| 0 <= i < |r| && r[i] == t;
      assert tasks[i] in tasks;
    }
  }

  /** Editing an id no task has changes nothing. */
  lemma EditUnknownTask(tasks: seq<Task>, id: Id, content: string)
    requires forall t | t in tasks :: t.id != id
    ensures EditTask(tasks, id, content) == tasks
  {
    forall i | 0 <= i < |tasks|
      ensures !TaskIdIs(id)(tasks[i])
    {
      assert tasks[i] in tasks;
    }
    MapWhereNoMatch(tasks, TaskIdIs(id), WithContent(content));
  }

  /** `deleteTask`'s updater: drop exactly the tasks with the id, the rest keep their order. */
  function RemoveTask(tasks: seq<Task>, id: Id): (r: seq<Task>)
    ensures forall t :: t in r <==> t in tasks && t.id != id
    ensures forall t: Task :: t.id != id ==> multiset(r)[t] == multiset(tasks)[t]
    ensures Subseq(r, tasks)
  {
    var r := Filter(tasks, TaskIdIsNot(id));
    forall t: Task | t.id != id
      ensures multiset(r)[t] == multiset(tasks)[t]
    {
      FilterMultiset(tasks, TaskIdIsNot(id), t);
    }
    r
  }

  /** `items[i].columnId = columnId` on a copy of the task array. */
  function Retag(tasks: seq<Task>, i: nat, columnId: Id): (r: seq<Task>)
    requires i < |tasks|
    ensures |r| == |tasks| && r[i] == tasks[i].(columnId := columnId)
    ensures forall j :: 0 <= j < |tasks| && j != i ==> r[j] == tasks[j]
    ensures TaskIds(r) == TaskIds(tasks)
  {
    tasks[i := tasks[i].(columnId := columnId)]
  }

  /**
   * `onDragOver`'s updater when a task hovers over another task: the dragged
   * task takes the hovered task's column and moves to the hovered task's index.
   */
  function DragOverTask(tasks: seq<Task>, activeId: Id, overId: Id): (r: seq<Task>)
    ensures |r| == |tasks|
    ensures multiset(TaskIds(r)) == multiset(TaskIds(tasks))
  {
    match (FindIndex(tasks, TaskIdIs(activeId)), FindIndex(tasks, TaskIdIs(overId)))
    case (Some(a), Some(o)) =>
      var retagged := Retag(tasks, a, tasks[o].columnId);
      MapArrayMove(retagged, TaskId, a, o);
      ArrayMove(retagged, a, o)
    case _ => tasks
  }

  /**
   * With both tasks found, the dragged task, in the hovered task's column, ends
   * at the hovered task's former index, and the other tasks keep their order.
   */
  lemma DragOverTaskPlaces(tasks: seq<Task>, activeId: Id, overId: Id, a: nat, o: nat)
    requires FindIndex(tasks, TaskIdIs(activeId)) == Some(a)
    requires FindIndex(tasks, TaskIdIs(overId)) == Some(o)
    ensures DragOverTask(tasks, activeId, overId)[o] == tasks[a].(columnId := tasks[o].columnId)
    ensures RemoveAt(DragOverTask(tasks, activeId, overId), o) == RemoveAt(tasks, a)
  {
    var retagged := Retag(tasks, a, tasks[o].columnId);
    assert RemoveAt(retagged, a) == RemoveAt(tasks, a);
  }

  /** `onDragOver`'s updater when a task hovers over a column: only its column changes. */
  function DragOverColumn(tasks: seq<Task>, activeId: Id, columnId: Id): (r: seq<Task>)
    ensures |r| == |tasks| && TaskIds(r) == TaskIds(tasks)
    ensures forall i :: 0 <= i < |tasks| && tasks[i].id != activeId ==> r[i] == tasks[i]
    ensures forall i :: 0 <= i < |tasks| && FindIndex(tasks, TaskIdIs(activeId)) != Some(i) ==> r[i] == tasks[i]
    ensures FindIndex(tasks, TaskIdIs(activeId)).Some? ==>
      r[FindIndex(tasks, TaskIdIs(activeId)).value].columnId == columnId
  {
    match FindIndex(tasks, TaskIdIs(activeId))
    case Some(a) => Retag(tasks, a, columnId)
    case None => tasks
  }

  /** `onDragOver`: nothing happens without a target or when the dragged item is not a task. */
  function DragOver(tasks: seq<Task>, active: DragItem, over: Option<DragItem>): (r: seq<Task>)
    ensures over.None? || !IsKind(active, TaskKind) ==> r == tasks
    ensures |r| == |tasks|
    ensures multiset(TaskIds(r)) == multiset(TaskIds(tasks))
  {
    if over.None? || !IsKind(active, TaskKind) then tasks
    else if IsKind(over.value, TaskKind) then DragOverTask(tasks, active.id, over.value.id)
    else if IsKind(over.value, ColumnKind) then DragOverColumn(tasks, active.id, over.value.id)
    else tasks
  }

  /** A task hovering over a task keeps the invariant: the dragged task takes a column some task already has. */
  lemma DragOverTaskNoOrphans(columns: seq<Column>, tasks: seq<Task>, activeId: Id, overId: Id)
    requires NoOrphans(columns, tasks)
    ensures NoOrphans(columns, DragOverTask(tasks, activeId, overId))
  {
    match (FindIndex(tasks, TaskIdIs(activeId)), FindIndex(tasks, TaskIdIs(overId)))
    case (Some(a), Some(o)) =>
      assert tasks[o] in tasks;
      var retagged := Retag(tasks, a, tasks[o].columnId);
      assert NoOrphans(columns, retagged) by {
        forall t | t in retagged
          ensures t.columnId in ColumnIds(columns)
        {
          var j :| 0 <= j < |retagged| && retagged[j] == t;
          assert tasks[j] in tasks;
        }
      }
      var r := ArrayMove(retagged, a, o);
      forall t | t in r
        ensures t in retagged
      {
        assert t in multiset(r);
      }
    case _ =>
  }

  /** A task hovering over a column of the board keeps the invariant. */
  lemma DragOverColumnNoOrphans(columns: seq<Column>, tasks: seq<Task>, activeId: Id, columnId: Id)
    requires NoOrphans(columns, tasks) && columnId in ColumnIds(columns)
    ensures NoOrphans(columns, DragOverColumn(tasks, activeId, columnId))
  {
    var r := DragOverColumn(tasks, activeId, columnId);
    forall t | t in r
      ensures t.columnId in ColumnIds(columns)
    {
      var j :| 0 <= j < |r| && r[j] == t;
      assert tasks[j] in tasks;
    }
  }

  /**
   * A drag-over keeps the invariant, given that a hovered column is one of the
   * board's columns (it is: only rendered columns are droppable).
   */
  lemma DragOverNoOrphans(columns: seq<Column>, tasks: seq<Task>, active: DragItem, over: Option<DragItem>)
    requires NoOrphans(columns, tasks)
    requires over.Some? && IsKind(over.value, ColumnKind) ==> over.value.id in ColumnIds(columns)
    ensures NoOrphans(columns, DragOver(tasks, active, over))
  {
    if over.Some? && IsKind(active, TaskKind) {
      if IsKind(over.value, TaskKind) {
        DragOverTaskNoOrphans(columns, tasks, active.id, over.value.id);
      } else if IsKind(over.value, ColumnKind) {
        DragOverColumnNoOrphans(columns, tasks, active.id, over.value.id);
      }
    }
  }

  /** `onDragEnd`'s column updater: move the dragged column to the index of the one it was dropped on. */
  function DragEndColumns(columns: seq<Column>, active: DragItem, over: Option<DragItem>): (r: seq<Column>)
    ensures over.None? || active.id == over.value.id ==> r == columns
    ensures |r| == |columns| && multiset(r) == multiset(columns)
  {
    if over.None? || active.id == over.value.id then columns
    else
      match (FindIndex(columns, ColumnIdIs(active.id)), FindIndex(columns, ColumnIdIs(over.value.id)))
      case (Some(from), Some(to)) => ArrayMove(columns, from, to)
      case _ => columns
  }

  /** With both columns found, the dragged column lands at the target's index and the others keep their order. */
  lemma DragEndPlaces(columns: seq<Column>, active: DragItem, over: DragItem, from: nat, to: nat)
    requires active.id != over.id
    requires FindIndex(columns, ColumnIdIs(active.id)) == Some(from)
    requires FindIndex(columns, ColumnIdIs(over.id)) == Some(to)
    ensures DragEndColumns(columns, active, Some(over))[to] == columns[from]
    ensures DragEndColumns(columns, active, Some(over))[to].id == active.id
    ensures RemoveAt(DragEndColumns(columns, active, Some(over)), to) == RemoveAt(columns, from)
  {
  }

  /** A column reorder keeps the set of column ids, and so the invariant. */
  lemma DragEndNoOrphans(columns: seq<Column>, tasks: seq<Task>, active: DragItem, over: Option<DragItem>)
    requires NoOrphans(columns, tasks)
    ensures ColumnIds(DragEndColumns(columns, active, over)) == ColumnIds(columns)
    ensures NoOrphans(DragEndColumns(columns, active, over), tasks)
  {
    var r := DragEndColumns(columns, active, over);
    assert forall c :: c in r <==> c in multiset(r);
    assert forall c :: c in columns <==> c in multiset(columns);
  }

  /** The pair of transient references a drag holds. */
  datatype Dragging = Dragging(column: Option<Column>, task: Option<Task>)

  /**
   * `onDragStart` as written: it records a column only for the tag "column",
   * which no draggable sends, and a task for the tag "Task".
   */
  function DragStartAsWritten(current: Dragging, active: DragItem): (r: Dragging)
    ensures IsKind(active, "column") ==> r == current.(column := active.data.value.column)
    ensures IsKind(active, TaskKind) ==> r == current.(task := active.data.value.task)
    ensures !IsKind(active, "column") && !IsKind(active, TaskKind) ==> r == current
  {
    if IsKind(active, "column") then current.(column := active.data.value.column)
    else if IsKind(active, TaskKind) then current.(task := active.data.value.task)
    else current
  }

  /** As written, starting to drag a column (tag "Column") records nothing. */
  lemma ColumnDragNotRecorded(current: Dragging, active: DragItem)
    requires IsKind(active, ColumnKind)
    ensures DragStartAsWritten(current, active) == current
  {
  }

  /** `onDragStart` with the tag columns actually send: the dragged column or task becomes the active one. */
  function DragStart(current: Dragging, active: DragItem): (r: Dragging)
    ensures IsKind(active, ColumnKind) ==> r == current.(column := active.data.value.column)
    ensures IsKind(active, TaskKind) ==> r == current.(task := active.data.value.task)
    ensures !IsKind(active, ColumnKind) && !IsKind(active, TaskKind) ==> r == current
  {
    if IsKind(active, ColumnKind) then current.(column := active.data.value.column)
    else if IsKind(active, TaskKind) then current.(task := active.data.value.task)
    else current
  }

  /** The board's state: the two ordered lists and the item being dragged. */
  class Board {
    var columns: seq<Column>
    var tasks: seq<Task>
    var activeColumn: Option<Column>
    var activeTask: Option<Task>

    constructor ()
      ensures columns == [] && tasks == []
      ensures activeColumn == None && activeTask == None
      ensures NoOrphans(columns, tasks)
    {
      columns, tasks := [], [];
      activeColumn, activeTask := None, None;
    }

    method CreateTask(columnId: Id, freshId: Id)
      modifies this`tasks
      ensures tasks == AddTask(old(tasks), columnId, freshId)
      ensures old(NoOrphans(columns, tasks)) ==> (NoOrphans(columns, tasks) <==> columnId in ColumnIds(columns))
    {
      if NoOrphans(columns, tasks) {
        AddTaskNoOrphans(columns, tasks, columnId, freshId);
      }
      tasks := AddTask(tasks, columnId, freshId);
    }

    method CreateNewColumn(freshId: Id)
      modifies this`columns
      ensures columns == AddColumn(old(columns), freshId)
      ensures old(NoOrphans(columns, tasks)) ==> NoOrphans(columns, tasks)
    {
      columns := AddColumn(columns, freshId);
    }

    method UpdateTask(id: Id, content: string)
      modifies this`tasks
      ensures tasks == EditTask(old(tasks), id, content)
      ensures old(NoOrphans(columns, tasks)) ==> NoOrphans(columns, tasks)
    {
      if NoOrphans(columns, tasks) {
        EditTaskNoOrphans(columns, tasks, id, content);
      }
      tasks := EditTask(tasks, id, content);
    }

    method DeleteTask(id: Id)
      modifies this`tasks
      ensures tasks == RemoveTask(old(tasks), id)
      ensures old(NoOrphans(columns, tasks)) ==> NoOrphans(columns, tasks)
    {
      tasks := RemoveTask(tasks, id);
    }

    method DeleteColumn(id: Id)
      modifies this`columns, this`tasks
      ensures columns == RemoveColumn(old(columns), id)
      ensures tasks == RemoveColumnTasks(old(tasks), id)
      ensures old(NoOrphans(columns, tasks)) ==> NoOrphans(columns, tasks)
    {
      if NoOrphans(columns, tasks) {
        DeleteColumnNoOrphans(columns, tasks, id);
      }
      columns := RemoveColumn(columns, id);
      tasks := RemoveColumnTasks(tasks, id);
    }

    method UpdateColumn(id: Id, title: string)
      modifies this`columns
      ensures columns == RenameColumn(old(columns), id, title)
      ensures old(NoOrphans(columns, tasks)) ==> NoOrphans(columns, tasks)
    {
      if NoOrphans(columns, tasks) {
        RenameColumnNoOrphans(columns, tasks, id, title);
      }
      columns := RenameColumn(columns, id, title);
    }

    method OnDragStart(active: DragItem)
      modifies this`activeColumn, this`activeTask
      ensures Dragging(activeColumn, activeTask) == DragStart(old(Dragging(activeColumn, activeTask)), active)
    {
      var next := DragStart(Dragging(activeColumn, activeTask), active);
      activeColumn, activeTask := next.column, next.task;
    }

    method OnDragOver(active: DragItem, over: Option<DragItem>)
      modifies this`tasks
      ensures tasks == DragOver(old(tasks), active, over)
      ensures old(NoOrphans(columns, tasks))
        && (over.Some? && IsKind(over.value, ColumnKind) ==> over.value.id in ColumnIds(columns))
        ==> NoOrphans(columns, tasks)
    {
      if NoOrphans(columns, tasks) && (over.Some? && IsKind(over.value, ColumnKind) ==> over.value.id in ColumnIds(columns)) {
        DragOverNoOrphans(columns, tasks, active, over);
      }
      tasks := DragOver(tasks, active, over);
    }

    method OnDragEnd(active: DragItem, over: Option<DragItem>)
      modifies this`columns, this`activeColumn, this`activeTask
      ensures activeColumn == None && activeTask == None
      ensures columns == DragEndColumns(old(columns), active, over)
      ensures old(NoOrphans(columns, tasks)) ==> NoOrphans(columns, tasks)
    {
      activeColumn := None;
      activeTask := None;
      if over.None? {
        return;
      }
      if active.id == over.value.id {
        return;
      }
      if NoOrphans(columns, tasks) {
        DragEndNoOrphans(columns, tasks, active, over);
      }
      columns := DragEndColumns(columns, active, over);
    }
  }
}
