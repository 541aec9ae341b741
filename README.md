# UniTime in-memory state, in Dafny

UniTime is a Next.js/React student planner. This project models the parts of
it that keep and change ordered lists of plain records in memory. Each page's
React state becomes a Dafny `class` whose fields are that state. Each handler
becomes a `method` that reassigns those fields. Each updater the handler hands
to a React state setter (`filter`, `map`, `arrayMove`) becomes a pure
`function`, and lemmas state what the page promises about it.

- `kanban.dfy` (module `Kanban`): the task board. It holds columns and tasks,
  the item being dragged, and the create, rename, edit and delete handlers
  plus the three drag handlers. The board invariant `NoOrphans` says every
  task names an existing column. The model proves which handlers keep it.
- `notes.dfy` (module `Notes`): the notes page. It holds the editor text, the
  history of notes with newest first, the five filter selections, and the
  save, delete, favourite, edit and clear handlers.
- `schedule.dfy` (module `Schedule`): the calendar's event store. It holds the
  modal draft and the validate-then-merge-or-append save.
- `signup.dfy` (module `Signup`): the e-mail check of the sign-up form. A
  hand-written scanner is proved equal to the regular expression's language,
  and a second part models the order of the form's checks.
- `home.dfy` (module `Home`): the home widget. It holds the capped progress
  counter and the activity check list.
- `list_ops.dfy` (module `ListOps`): `Array.prototype.filter`, `map` and
  `findIndex`, and dnd-kit's `arrayMove`, read as "remove at `from`, then
  insert at `to`".
- `js_string.dfy` (module `JsString`): the string operations the handlers use:
  number to decimal text, `trim`, `toLowerCase`, `includes` and `<` on strings.
- `wrappers.dfy` (module `Wrappers`): `Option`. It stands for optional fields,
  `null` state and `findIndex`'s -1.

## Model

| member | source | states |
|---|---|---|
| ListOps.Filter | app/tasks/components/KanbanBoard.tsx:168 | `filter` keeps exactly the elements the predicate accepts, in their original order (a subsequence), and never grows the array |
| ListOps.FilterMultiset | app/tasks/components/KanbanBoard.tsx:168 | `filter` keeps every copy of an accepted element and no copy of a rejected one |
| ListOps.FilterIndex | app/notes/page.tsx:223 | the `k`-th kept element sits at a position of the input that has exactly `k` kept elements before it |
| ListOps.FilterPartition | app/tasks/components/KanbanBoard.tsx:173 | a filter and its complementary filter together account for every element |
| ListOps.FilterKeepsAll | app/notes/page.tsx:103-110 | a filter every element passes returns the array unchanged |
| ListOps.MapWhere | app/tasks/components/KanbanBoard.tsx:163 | the "update the elements that match" `map` keeps the length, rewrites exactly the matching positions and leaves every other position as it was |
| ListOps.MapWhereNoMatch | app/tasks/components/KanbanBoard.tsx:163 | an update whose selector matches nothing changes nothing |
| ListOps.MapWhereTwice | components/Home/Home.tsx:27-31 | an update that undoes itself and keeps the selector true, applied twice, restores the array |
| ListOps.Map | app/tasks/components/KanbanBoard.tsx:25 | `map` keeps the length and applies the function at every position |
| ListOps.FindIndex | app/tasks/components/KanbanBoard.tsx:204 | `findIndex` returns the first position that satisfies the predicate, or none (JavaScript's -1) exactly when no position does |
| ListOps.RemoveAt | app/notes/page.tsx:77 | removing the entry at `i` shortens the list by one, keeps the prefix, shifts the suffix down by one and removes exactly one copy of that entry |
| ListOps.ArrayMove | app/tasks/components/KanbanBoard.tsx:209 | `arrayMove` is a permutation that puts the moved element at `to`; with that element taken out, the others are in their old order |
| ListOps.ArrayMoveBack | app/tasks/components/KanbanBoard.tsx:230 | moving an element back from `to` to `from` restores the original order |
| ListOps.ArrayMoveAt | app/tasks/components/KanbanBoard.tsx:230 | positions outside the span between `from` and `to` keep their element; positions inside it shift by one toward `from` |
| ListOps.MapArrayMove | app/tasks/components/KanbanBoard.tsx:209 | moving commutes with `map`, so a move changes the id list only by the same move |
| JsString.Decimal | app/tasks/components/KanbanBoard.tsx:148 | the number in a new task's label is a non-empty run of digits with no leading zero |
| JsString.DecimalRoundTrip | app/tasks/components/KanbanBoard.tsx:148 | reading the decimal digits back gives the number |
| JsString.DecimalInjective | app/tasks/components/KanbanBoard.tsx:148 | different task counts give different labels |
| JsString.TrimStart | app/notes/page.tsx:38 | the leading whitespace is removed, and only that |
| JsString.TrimEnd | app/notes/page.tsx:38 | the trailing whitespace is removed, and only that |
| JsString.Trim | app/notes/page.tsx:38 | `trim` gives a piece of the string that neither starts nor ends with whitespace; see `TrimEmpty` for when it is empty |
| JsString.TrimEmpty | app/notes/page.tsx:38 | `note.trim() === ""` holds exactly when every character of the note is whitespace |
| JsString.Lower | app/notes/page.tsx:109 | lower-casing keeps the length and folds each character on its own |
| JsString.IncludesOccurs | app/notes/page.tsx:109 | `includes` holds exactly when the query occurs at some position of the text |
| JsString.Includes | app/notes/page.tsx:109 | definition of `includes`; see `IncludesOccurs` |
| JsString.LessIrreflexive | app/schedule/page.tsx:78 | no date string is before itself |
| JsString.LessTrichotomy | app/schedule/page.tsx:78 | of two different date strings, one is before the other |
| JsString.LessTransitive | app/schedule/page.tsx:78 | string order is transitive |
| JsString.Less | app/schedule/page.tsx:78 | definition of `<` / `>` on strings; see `LessIrreflexive`, `LessTrichotomy` and `LessTransitive` |
| Kanban.AddTask | app/tasks/components/KanbanBoard.tsx:144-151 | `createTask` appends exactly one task at the end; it has the given column and content "Task " followed by the new task count, and the old tasks are untouched |
| Kanban.TaskLabel | app/tasks/components/KanbanBoard.tsx:148 | definition of the new task's label; see `Decimal` and `DecimalInjective` |
| Kanban.AddTaskNoOrphans | app/tasks/components/KanbanBoard.tsx:144-151 | on a valid board, the new board is valid exactly when the given column exists |
| Kanban.AddTaskUnchecked | app/tasks/components/KanbanBoard.tsx:144-151 | `createTask` does not check its column: on an empty board it makes an orphan task |
| Kanban.AddColumn | app/tasks/components/KanbanBoard.tsx:153-159 | `createNewColumn` appends one column titled "New Column" and adds exactly its id to the set of column ids |
| Kanban.RenameColumn | app/tasks/components/KanbanBoard.tsx:176-180 | `updateColumn` changes only the titles of the columns with the id; length, ids, order and other columns are unchanged |
| Kanban.RenameColumnNoOrphans | app/tasks/components/KanbanBoard.tsx:176-180 | renaming keeps the set of column ids and so keeps the board invariant |
| Kanban.RenameUnknownColumn | app/tasks/components/KanbanBoard.tsx:176-180 | renaming an id no column has is a no-op |
| Kanban.RemoveColumn | app/tasks/components/KanbanBoard.tsx:172 | `deleteColumn` drops exactly the columns with the id, keeps every copy of the other columns in order, and removes exactly that id from the column ids |
| Kanban.RemoveColumnTasks | app/tasks/components/KanbanBoard.tsx:173 | `deleteColumn` drops exactly the tasks of that column and keeps every copy of the other tasks in order |
| Kanban.DeleteColumnNoOrphans | app/tasks/components/KanbanBoard.tsx:171-174 | deleting a column together with its tasks keeps the board invariant |
| Kanban.DeleteColumnCount | app/tasks/components/KanbanBoard.tsx:173 | the number of tasks removed is the number the column held |
| Kanban.EditTask | app/tasks/components/KanbanBoard.tsx:161-165 | `updateTask` changes only the content of the tasks with the id; length, ids, columns and order are unchanged |
| Kanban.EditTaskNoOrphans | app/tasks/components/KanbanBoard.tsx:161-165 | editing a task keeps the board invariant |
| Kanban.EditUnknownTask | app/tasks/components/KanbanBoard.tsx:161-165 | editing an id no task has is a no-op |
| Kanban.RemoveTask | app/tasks/components/KanbanBoard.tsx:167-169 | `deleteTask` removes exactly the tasks with the id; every other task keeps its multiplicity and its relative order |
| Kanban.Retag | app/tasks/components/KanbanBoard.tsx:208 | the write to `items[activeIndex].columnId` changes that task's column and nothing else, and keeps the id list |
| Kanban.DragOverTask | app/tasks/components/KanbanBoard.tsx:202-209 | a task hovering over a task permutes the task ids and keeps the length |
| Kanban.DragOverTaskPlaces | app/tasks/components/KanbanBoard.tsx:204-209 | with both tasks found, the dragged task takes the hovered task's column and lands at the hovered task's former index; the other tasks keep their order |
| Kanban.DragOverColumn | app/tasks/components/KanbanBoard.tsx:210-212 | a task hovering over a column changes only the first task with the dragged id (the one `findIndex` finds), and only its column, to that column's id; ids and order are unchanged |
| Kanban.DragOver | app/tasks/components/KanbanBoard.tsx:190-215 | `onDragOver` changes nothing without a target or when the dragged item is not tagged "Task"; it always permutes the task ids |
| Kanban.IsKind | app/tasks/components/KanbanBoard.tsx:183-198 | definition of the `data.current?.type === …` tests; see `DragOver`, `DragStart` and `DragStartAsWritten` |
| Kanban.DragOverTaskNoOrphans | app/tasks/components/KanbanBoard.tsx:205-209 | a task hovering over a task keeps the board invariant, because the dragged task takes a column another task already has |
| Kanban.DragOverColumnNoOrphans | app/tasks/components/KanbanBoard.tsx:210-212 | a task hovering over a column of the board keeps the board invariant |
| Kanban.DragOverNoOrphans | app/tasks/components/KanbanBoard.tsx:190-215 | both re-parenting paths of a drag-over keep the board invariant |
| Kanban.DragEndColumns | app/tasks/components/KanbanBoard.tsx:220-231 | with no target, or a target that is the dragged item, the columns are unchanged; otherwise they are permuted |
| Kanban.DragEndPlaces | app/tasks/components/KanbanBoard.tsx:227-231 | with both columns found, the dragged column lands at the target's index and the other columns keep their order |
| Kanban.DragEndNoOrphans | app/tasks/components/KanbanBoard.tsx:217-232 | reordering columns keeps the set of column ids and so keeps the board invariant |
| Kanban.DragStartAsWritten | app/tasks/components/KanbanBoard.tsx:182-188 | `onDragStart` as written records the column for the tag "column", the task for the tag "Task", and changes nothing for any other tag |
| Kanban.ColumnDragNotRecorded | app/tasks/components/KanbanBoard.tsx:183 | as written, starting to drag a column (tag "Column") records no active column |
| Kanban.DragStart | app/tasks/components/KanbanBoard.tsx:182-188 | with the tag columns send, the dragged column or task becomes the active one, and any other tag changes nothing |
| Kanban.Board.constructor | app/tasks/components/KanbanBoard.tsx:23-27 | the board starts empty, with nothing dragged, and valid |
| Kanban.Board.CreateTask | app/tasks/components/KanbanBoard.tsx:144-151 | the tasks become `AddTask` of the old tasks; a valid board stays valid exactly when the column exists |
| Kanban.Board.CreateNewColumn | app/tasks/components/KanbanBoard.tsx:153-159 | the columns become `AddColumn` of the old columns; the invariant is kept |
| Kanban.Board.UpdateTask | app/tasks/components/KanbanBoard.tsx:161-165 | the tasks become `EditTask` of the old tasks; the invariant is kept |
| Kanban.Board.DeleteTask | app/tasks/components/KanbanBoard.tsx:167-169 | the tasks become `RemoveTask` of the old tasks; the invariant is kept |
| Kanban.Board.DeleteColumn | app/tasks/components/KanbanBoard.tsx:171-174 | both lists are filtered by the column id; the invariant is kept |
| Kanban.Board.UpdateColumn | app/tasks/components/KanbanBoard.tsx:176-180 | the columns become `RenameColumn` of the old columns; the invariant is kept |
| Kanban.Board.OnDragStart | app/tasks/components/KanbanBoard.tsx:182-188 | the active column and task become `DragStart` of the old ones |
| Kanban.Board.OnDragOver | app/tasks/components/KanbanBoard.tsx:190-215 | the tasks become `DragOver` of the old tasks; the invariant is kept when a hovered column is on the board |
| Kanban.Board.OnDragEnd | app/tasks/components/KanbanBoard.tsx:217-232 | the active column and task are always cleared; the columns become `DragEndColumns` of the old columns; the invariant is kept |
| Notes.Compose | app/notes/page.tsx:62-68 | a saved note has the editor text and is not a favourite; its category is "Uncategorized" and it has no subject when the selection is "All"; its date is today when no date is selected |
| Notes.ReviseAt | app/notes/page.tsx:45-57 | an edit rewrites only the entry at the index, keeps its favourite mark, and keeps the length |
| Notes.DeleteAt | app/notes/page.tsx:76-78 | deleting index `i` removes exactly that entry and shifts the rest down when `i` is in range, and changes nothing otherwise |
| Notes.ToggleAt | app/notes/page.tsx:80-86 | toggling flips the favourite mark at the index only |
| Notes.ToggleTwice | app/notes/page.tsx:80-86 | toggling the same index twice restores the history |
| Notes.FilteredNotes | app/notes/page.tsx:103-110 | the listed notes are a subsequence of the history, exactly the notes that pass all five filters, with every copy of each |
| Notes.Shown | app/notes/page.tsx:104-109 | definition of the filter callback; see `FilteredNotes` |
| Notes.NoSelectionShowsAll | app/notes/page.tsx:103-110 | with the initial selections ("All", "All", no date, not favourites only, empty search) every note is listed, in order |
| Notes.RowIndexMisroutes | app/notes/page.tsx:223-251 | with a category filter on, row 0 shows the second note, yet "delete row 0" deletes the first, hidden note |
| Notes.HistoryIndex | app/notes/page.tsx:223 | the history position of the note a row shows, with exactly `row` listed notes before it |
| Notes.DeleteRowRemovesShown | app/notes/page.tsx:250-251 | deleting through `HistoryIndex` removes exactly one copy of the note the row shows |
| Notes.NotesPage.constructor | app/notes/page.tsx:7-18 | the page starts with an empty editor, an empty history, no edit in progress and selections that hide nothing |
| Notes.NotesPage.HandleSaveNote | app/notes/page.tsx:37-74 | a note that trims to "" changes nothing; otherwise an edit revises the entry in place and ends the edit, a new note is prepended, and the editor is emptied |
| Notes.NotesPage.CommitNote | app/notes/page.tsx:43-73 | a save past the empty check revises the entry being edited in place or prepends the new note, then ends the edit and empties the editor |
| Notes.NotesPage.HandleDeleteNote | app/notes/page.tsx:76-78 | the history becomes `DeleteAt` of the old history |
| Notes.NotesPage.HandleToggleFavorite | app/notes/page.tsx:80-86 | the history becomes `ToggleAt` of the old history |
| Notes.NotesPage.HandleEditNote | app/notes/page.tsx:88-95 | the editor and the selections are loaded from the note, a missing or empty subject shows as "All", and the edit index is set |
| Notes.NotesPage.HandleClearAllNotes | app/notes/page.tsx:97-101 | when confirmed the history is emptied; otherwise nothing changes |
| Notes.NotesPage.DeleteRow | app/notes/page.tsx:250-251 | the Delete button deletes at the history position of the note its row shows, so it removes exactly that note and the other notes keep their order |
| Notes.NotesPage.ToggleFavoriteRow | app/notes/page.tsx:236-237 | the favourite button toggles exactly the note its row shows |
| Notes.NotesPage.EditRow | app/notes/page.tsx:244-245 | the Edit button loads exactly the history position of the note its row shows, and that note's text, category, subject and date, with a missing or empty subject shown as "All" |
| Schedule.Merge | app/schedule/page.tsx:83-87 | every event with the draft's id gets the draft's fields laid over it; other events and the length are unchanged |
| Schedule.Overlay | app/schedule/page.tsx:86 | definition of `{ ...ev, ...modalData }`; see `Merge` and `MergeKeepsIds` |
| Schedule.MergeKeepsIds | app/schedule/page.tsx:86 | merging keeps every event's id and the order of the events |
| Schedule.MergeUnknownId | app/schedule/page.tsx:86 | merging a draft whose id no event has is a no-op |
| Schedule.Created | app/schedule/page.tsx:88-104 | a new event has the fresh id and the draft's title, place, start and end; its category defaults to "Activity" when it is missing or empty, and its week mode to "Both" |
| Schedule.Save | app/schedule/page.tsx:72-104 | a draft is refused for a missing field exactly when the title or start is missing or empty, and for its dates exactly when the end is set and comes before the start; otherwise it is merged (with an id) or appended (without one) |
| Schedule.Truthy | app/schedule/page.tsx:73-99 | definition of the truthiness tests on `title`, `start`, `end`, `id` and `category`; see `Save` and `Created` |
| Schedule.SavedStartsBeforeEnd | app/schedule/page.tsx:78-81 | an accepted draft with an end starts no later than it ends |
| Schedule.SaveAppends | app/schedule/page.tsx:88-104 | saving without an id appends exactly one event, with the fresh id, after the unchanged old events |
| Schedule.RemoveEvent | app/schedule/page.tsx:110-114 | deleting drops exactly the events with the id and keeps every copy of the other events in order |
| Schedule.SchedulePage.constructor | app/schedule/page.tsx:32-35 | the page starts with no events, both modals closed and an empty draft |
| Schedule.SchedulePage.OpenActivityModal | app/schedule/page.tsx:53-56 | the draft becomes the given data and the activity modal opens |
| Schedule.SchedulePage.OpenSubjectModal | app/schedule/page.tsx:59-62 | the draft is emptied and the subject modal opens |
| Schedule.SchedulePage.CloseModals | app/schedule/page.tsx:65-69 | the draft is emptied and both modals close |
| Schedule.SchedulePage.SaveEvent | app/schedule/page.tsx:72-107 | a refused draft changes nothing, not even the modals; a saved one updates the events as `Save` says, empties the draft and closes both modals |
| Schedule.SchedulePage.DeleteEvent | app/schedule/page.tsx:110-114 | when confirmed the events become `RemoveEvent` of the old events; otherwise nothing changes |
| Signup.ValidateEmailMatchesRegex | app/signup/page.tsx:15-18 | the scanner accepts exactly the strings of the form local `@` domain `.` tld, with the regular expression's three character classes and a two- to four-letter tld |
| Signup.ValidateEmailSound | app/signup/page.tsx:15-18 | every string the scanner accepts has a split that the regular expression matches |
| Signup.ValidateEmailComplete | app/signup/page.tsx:15-18 | every split that the regular expression matches is accepted by the scanner |
| Signup.ValidateEmail | app/signup/page.tsx:15-18 | definition of `validateEmail` as a scan; see `ValidateEmailMatchesRegex` |
| Signup.AcceptedHasOneAtSign | app/signup/page.tsx:16 | an accepted address holds exactly one `@` |
| Signup.AcceptedShape | app/signup/page.tsx:16 | an accepted address holds no whitespace and ends in `.` and two to four letters |
| Signup.Decide | app/signup/page.tsx:20-34 | the e-mail is judged before the passwords: an invalid address stops the form; a valid one with different passwords is a mismatch; only a valid one with equal passwords registers |
| Signup.SignupPage.constructor | app/signup/page.tsx:8-13 | the form starts empty, with no errors and no navigation |
| Signup.SignupPage.HandleSignup | app/signup/page.tsx:20-34 | an invalid address sets the e-mail error and leaves `error` and the route alone; a mismatch clears the e-mail error, sets `error` and does not navigate; otherwise the form goes to "/dashboard" |
| Home.Step | components/Home/Home.tsx:19 | one tick adds 1 below 100 and otherwise leaves the progress alone |
| Home.StepsCapped | components/Home/Home.tsx:17-23 | from at most 100, `n` ticks give `min(progress + n, 100)` |
| Home.FromInitial | components/Home/Home.tsx:15-23 | from 75 the progress never falls, never passes 100, and is 100 from the 25th tick on |
| Home.Toggle | components/Home/Home.tsx:25-33 | `toggleActivity` flips `completed` exactly on the activities with the id; ids, texts, order and length are unchanged |
| Home.ToggleTwice | components/Home/Home.tsx:25-33 | toggling the same id twice restores the list |
| Home.ToggleUnknown | components/Home/Home.tsx:25-33 | toggling an id no activity has is a no-op |
| Home.HomeWidget.constructor | components/Home/Home.tsx:5-15 | the widget starts at 75 with three unchecked activities numbered 1 to 3 |
| Home.HomeWidget.Tick | components/Home/Home.tsx:17-23 | the progress becomes `Step` of the old progress and so stays between its old value and 100 |
| Home.HomeWidget.ToggleActivity | components/Home/Home.tsx:25-33 | the activities become `Toggle` of the old activities |

## Left out

- Browser storage: the `localStorage` loading and saving of the board, the notes and the events is not modelled, nor the JSON parse errors or the 300 ms debounce of the schedule. These are storage I/O and a timer; only the in-memory state is modelled.
- Ids and dates: `generateId` (`Math.random`), `uuidv4` and `new Date()` are parameters (`freshId`, `today`). The model does not claim that ids are unique, because the source does not guarantee it.
- Dialogs: `alert` is not modelled. `confirm` is the boolean parameter `confirmed`. `Schedule.SchedulePage.SaveEvent` returns its `Outcome` only to say which branch ran, that is, which alert would show. The source returns nothing.
- The one-second `setInterval` is not modelled. `Home.HomeWidget.Tick` is one firing of it; the clean-up on unmount is not modelled.
- Rendering, animation, the dnd-kit sensors and overlay, the router itself and the `console.log` of the sign-up are not modelled. Navigation is the field `route`.
- The `username` field of the sign-up form is stored but not used by the model.
- Kanban.DragOverTask: when `findIndex` misses the dragged task or the hovered one, the source throws a TypeError at line 208. The model treats every such case as a no-op.
- Kanban.DragOverColumn: when `findIndex` misses the dragged task, the source throws a TypeError at line 211. The model treats that case as a no-op.
- Kanban.DragEndColumns: when either column is not found, the model treats it as a no-op. This covers a task drag that ends over a column, where `oldIndex` is -1. dnd-kit's `arrayMove` is not part of this model, so what it does with -1 is not modelled.
- Kanban.Retag: `items[activeIndex].columnId = …` writes into the task object that the previous state also holds. The model makes it a value update, so that aliasing is not captured.
- Kanban.AddTask: the label uses the task count the handler saw when it ran, not the count inside the updater. In a sequential model the two are the same.
- Kanban.Board.OnDragStart uses the corrected tag check `Kanban.DragStart`. The as-written check is `Kanban.DragStartAsWritten` (see Findings).
- Notes.NotesPage.HandleEditNote requires the index to be in range. The source reads `notesHistory[index].text` and would throw for any other index.
- `{ ...ev, ...modalData }` and `{ ...n, subject: undefined }`: a key present with the value `undefined` is read as absent (`None`).
- JsString.Lower folds only the ASCII letters. Unicode case mapping is not modelled.
- JsString.Less compares characters by code point, where JavaScript compares UTF-16 code units. The two agree on the ASCII date strings the schedule stores.
- Home.HomeWidget.constructor states the ids and `completed` marks of the initial activities, not their texts.
- The schedule's category list and colours, the `schedule` card of the home widget, and the notes page's category and subject lists are display data. None of them is modelled.

## Findings

| source | as written | input that shows it | evidently intended | confidence | as-written member | corrected member |
|---|---|---|---|---|---|---|
| app/notes/page.tsx:223-251 | the row buttons pass the row's index in `filteredNotes` to handlers that index `notesHistory` | history [a (Work), b (Study)] with the category "Study" selected lists only b; its Delete button calls `handleDeleteNote(0)`, which removes a | each row's buttons act on the note that row shows | high (not executed) | Notes.RowIndexMisroutes | Notes.HistoryIndex, Notes.NotesPage.DeleteRow |
| app/tasks/components/KanbanBoard.tsx:183 | `onDragStart` records a column only for the tag "column" | any column drag: app/tasks/components/ColumnContainer.tsx:36 tags columns "Column", so no active column is ever set and the column overlay never shows | record the column for the tag "Column", the tag `onDragOver` already tests at line 198 | high (not executed) | Kanban.ColumnDragNotRecorded, Kanban.DragStartAsWritten | Kanban.DragStart |
