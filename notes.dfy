/**
 * The notes page of app/notes/page.tsx: an editor text, a history of saved
 * notes (newest first), five filter selections and the handlers of the
 * page's buttons.
 */
module Notes {
  import opened Wrappers
  import opened ListOps
  import JsString

  datatype Note = Note(text: string, category: string, subject: Option<string>, date: string, favorite: bool)

  /** The page's filter selections: category, subject, date, favourites only, search text. */
  datatype Selection = Selection(category: string, subject: string, date: string, favoritesOnly: bool, query: string)

  const All := "All"
  const Uncategorized := "Uncategorized"

  /** The selections the page starts with; they hide nothing. */
  const NoSelection := Selection(All, All, "", false, "")

  /**
   * The note a save writes: the category "Uncategorized" and no subject when
   * the selection is "All", and today's date when no date is selected.
   */
  function Compose(text: string, category: string, subject: string, date: string, today: string): (n: Note)
    ensures n.text == text && !n.favorite
    ensures n.category == if category == All then Uncategorized else category
    ensures n.subject == if subject == All then None else Some(subject)
    ensures n.date == if date == "" then today else date
  {
    Note(text,
         if category == All then Uncategorized else category,
         if subject == All then None else Some(subject),
         if date == "" then today else date,
         false)
  }

  /** The edit updater: the note at `index` gets new text, category, subject and date and keeps its favourite mark. */
  function ReviseAt(notes: seq<Note>, index: nat, revised: Note): (r: seq<Note>)
    ensures |r| == |notes|
    ensures forall i :: 0 <= i < |notes| && i != index ==> r[i] == notes[i]
    ensures index < |notes| ==> r[index] == revised.(favorite := notes[index].favorite)
  {
    seq(|notes|, i requires 0 <= i < |notes| =>
      if i == index then notes[i].(text := revised.text, category := revised.category,
                                   subject := revised.subject, date := revised.date)
      else notes[i])
  }

  /** `handleDeleteNote`'s updater: drop the entry at `index`, if there is one. */
  function DeleteAt(notes: seq<Note>, index: nat): (r: seq<Note>)
    ensures index < |notes| ==> |r| == |notes| - 1 && multiset(r) + multiset{notes[index]} == multiset(notes)
    ensures index < |notes| ==> r[..index] == notes[..index] && r[index..] == notes[index + 1..]
    ensures index >= |notes| ==> r == notes
  {
    if index < |notes| then RemoveAt(notes, index) else notes
  }

  /** `handleToggleFavorite`'s updater: flip the favourite mark of the entry at `index` only. */
  function ToggleAt(notes: seq<Note>, index: nat): (r: seq<Note>)
    ensures |r| == |notes|
    ensures forall i :: 0 <= i < |notes| && i != index ==> r[i] == notes[i]
    ensures index < |notes| ==> r[index] == notes[index].(favorite := !notes[index].favorite)
  {
    seq(|notes|, i requires 0 <= i < |notes| =>
      if i == index then notes[i].(favorite := !notes[i].favorite) else notes[i])
  }

  /** Toggling the same entry twice restores the history. */
  lemma ToggleTwice(notes: seq<Note>, index: nat)
    ensures ToggleAt(ToggleAt(notes, index), index) == notes
  {
    var r := ToggleAt(ToggleAt(notes, index), index);
    assert forall i :: 0 <= i < |notes| ==> r[i] == notes[i];
  }

  /** A note passes the page's five filters. */
  predicate Shown(s: Selection, n: Note)
  {
    && (s.category == All || n.category == s.category)
    && (s.subject == All || n.subject == Some(s.subject))
    && (s.date == "" || n.date == s.date)
    && (!s.favoritesOnly || n.favorite)
    && JsString.Includes(JsString.Lower(n.text), JsString.Lower(s.query))
  }

  function Passes(s: Selection): Note -> bool { (n: Note) => Shown(s, n) }

  /** `filteredNotes`: the notes that pass every filter, in history order. */
  function FilteredNotes(notes: seq<Note>, s: Selection): (r: seq<Note>)
    ensures Subseq(r, notes)
    ensures forall n :: n in r <==> n in notes && Shown(s, n)
    ensures forall n :: n in r ==>
      && (s.category == All || n.category == s.category)
      && (s.subject == All || n.subject == Some(s.subject))
      && (s.date == "" || n.date == s.date)
      && (!s.favoritesOnly || n.favorite)
    ensures forall n :: Shown(s, n) ==> multiset(r)[n] == multiset(notes)[n]
  {
    var r := Filter(notes, Passes(s));
    forall n | Shown(s, n)
      ensures multiset(r)[n] == multiset(notes)[n]
    {
      FilterMultiset(notes, Passes(s), n);
    }
    r
  }

  /** With the page's initial selections every note is listed. */
  lemma NoSelectionShowsAll(notes: seq<Note>)
    ensures FilteredNotes(notes, NoSelection) == notes
  {
    forall i | 0 <= i < |notes|
      ensures Passes(NoSelection)(notes[i])
    {
      assert JsString.Lower("") == "";
      assert JsString.Includes(JsString.Lower(notes[i].text), "");
    }
    FilterKeepsAll(notes, Passes(NoSelection));
  }

  /**
   * The row buttons pass a row of `filteredNotes` to handlers that index the
   * whole history. With a category selected, row 0 shows the second note,
   * yet deleting "row 0" removes the first note and keeps the shown one.
   */
  lemma RowIndexMisroutes()
    ensures var a := Note("a", "Work", None, "2024-01-01", false);
            var b := Note("b", "Study", None, "2024-01-01", false);
            var s := Selection("Study", All, "", false, "");
            && FilteredNotes([a, b], s) == [b]
            && DeleteAt([a, b], 0) == [b]
  {
    var a := Note("a", "Work", None, "2024-01-01", false);
    var b := Note("b", "Study", None, "2024-01-01", false);
    var s := Selection("Study", All, "", false, "");
    assert !Shown(s, a);
    assert JsString.Includes(JsString.Lower(b.text), JsString.Lower(""));
    assert Shown(s, b);
    assert [a, b][1..] == [b];
  }

  /** The position in the history of the note shown on row `row`. */
  function HistoryIndex(notes: seq<Note>, s: Selection, row: nat): (i: nat)
    requires row < |FilteredNotes(notes, s)|
    ensures i < |notes| && notes[i] == FilteredNotes(notes, s)[row]
    ensures |FilteredNotes(notes[..i], s)| == row
  {
    FilterIndex(notes, Passes(s), row)
  }

  /** Deleting through `HistoryIndex` removes exactly the note shown on that row. */
  lemma DeleteRowRemovesShown(notes: seq<Note>, s: Selection, row: nat)
    requires row < |FilteredNotes(notes, s)|
    ensures multiset(DeleteAt(notes, HistoryIndex(notes, s, row))) + multiset{FilteredNotes(notes, s)[row]}
      == multiset(notes)
  {
  }

  /** The notes page's state. */
  class NotesPage {
    var note: string
    var notesHistory: seq<Note>
    var searchQuery: string
    var selectedCategory: string
    var selectedSubject: string
    var selectedDate: string
    var filterFavorites: bool
    var editIndex: Option<nat>

    function Selected(): Selection
      reads this
    {
      Selection(selectedCategory, selectedSubject, selectedDate, filterFavorites, searchQuery)
    }

    constructor ()
      ensures note == "" && notesHistory == [] && editIndex == None
      ensures Selected() == NoSelection
    {
      note, notesHistory := "", [];
      searchQuery, selectedCategory, selectedSubject, selectedDate := "", All, All, "";
      filterFavorites, editIndex := false, None;
    }

    /** `handleSaveNote`; `today` is the ISO date `new Date()` gives. */
    method HandleSaveNote(today: string)
      modifies this`notesHistory, this`editIndex, this`note
      ensures JsString.Trim(old(note)) == "" ==>
        notesHistory == old(notesHistory) && editIndex == old(editIndex) && note == old(note)
      ensures JsString.Trim(old(note)) != "" && old(editIndex).Some? ==>
        notesHistory == ReviseAt(old(notesHistory), old(editIndex).value,
                                 Compose(old(note), selectedCategory, selectedSubject, selectedDate, today))
        && editIndex == None
      ensures JsString.Trim(old(note)) != "" && old(editIndex).None? ==>
        notesHistory == [Compose(old(note), selectedCategory, selectedSubject, selectedDate, today)] + old(notesHistory)
        && editIndex == None
      ensures JsString.Trim(old(note)) != "" ==> note == ""
    {
      if JsString.Trim(note) != "" {
        CommitNote(today);
      }
    }

    /** The part of `handleSaveNote` after the empty-note check. */
    method CommitNote(today: string)
      modifies this`notesHistory, this`editIndex, this`note
      ensures old(editIndex).Some? ==>
        notesHistory == ReviseAt(old(notesHistory), old(editIndex).value,
                                 Compose(old(note), selectedCategory, selectedSubject, selectedDate, today))
      ensures old(editIndex).None? ==>
        notesHistory == [Compose(old(note), selectedCategory, selectedSubject, selectedDate, today)] + old(notesHistory)
      ensures editIndex == None && note == ""
    {
      var saved := Compose(note, selectedCategory, selectedSubject, selectedDate, today);
      if editIndex.Some? {
        notesHistory := ReviseAt(notesHistory, editIndex.value, saved);
      } else {
        notesHistory := [saved] + notesHistory;
      }
      editIndex, note := None, "";
    }

    method HandleDeleteNote(index: nat)
      modifies this`notesHistory
      ensures notesHistory == DeleteAt(old(notesHistory), index)
    {
      notesHistory := DeleteAt(notesHistory, index);
    }

    method HandleToggleFavorite(index: nat)
      modifies this`notesHistory
      ensures notesHistory == ToggleAt(old(notesHistory), index)
    {
      notesHistory := ToggleAt(notesHistory, index);
    }

    /** `handleEditNote`: load the note at `index` into the editor and the selections. */
    method HandleEditNote(index: nat)
      requires index < |notesHistory|
      modifies this`note, this`selectedCategory, this`selectedSubject, this`selectedDate, this`editIndex
      ensures note == notesHistory[index].text
      ensures selectedCategory == notesHistory[index].category
      ensures selectedSubject == match notesHistory[index].subject
                                 case Some(x) => if x == "" then All else x
                                 case None => All
      ensures selectedDate == notesHistory[index].date
      ensures editIndex == Some(index)
    {
      var n := notesHistory[index];
      note := n.text;
      selectedCategory := n.category;
      selectedSubject := match n.subject
                         case Some(x) => if x == "" then All else x
                         case None => All;
      selectedDate := n.date;
      editIndex := Some(index);
    }

    /** `handleClearAllNotes`; `confirmed` is the answer to the confirmation dialog. */
    method HandleClearAllNotes(confirmed: bool)
      modifies this`notesHistory
      ensures notesHistory == if confirmed then [] else old(notesHistory)
    {
      if confirmed {
        notesHistory := [];
      }
    }

    /** The Delete button of row `row`, routed to the note that row shows. */
    method DeleteRow(row: nat)
      requires row < |FilteredNotes(notesHistory, Selected())|
      modifies this`notesHistory
      ensures notesHistory == DeleteAt(old(notesHistory), HistoryIndex(old(notesHistory), old(Selected()), row))
      ensures multiset(notesHistory) + multiset{old(FilteredNotes(notesHistory, Selected()))[row]}
        == old(multiset(notesHistory))
    {
      DeleteRowRemovesShown(notesHistory, Selected(), row);
      HandleDeleteNote(HistoryIndex(notesHistory, Selected(), row));
    }

    /** The favourite button of row `row`, routed to the note that row shows. */
    method ToggleFavoriteRow(row: nat)
      requires row < |FilteredNotes(notesHistory, Selected())|
      modifies this`notesHistory
      ensures var i := HistoryIndex(old(notesHistory), Selected(), row);
        notesHistory == ToggleAt(old(notesHistory), i)
        && old(notesHistory)[i] == old(FilteredNotes(notesHistory, Selected()))[row]
    {
      HandleToggleFavorite(HistoryIndex(notesHistory, Selected(), row));
    }

    /** The Edit button of row `row`, routed to the note that row shows. */
    method EditRow(row: nat)
      requires row < |FilteredNotes(notesHistory, Selected())|
      modifies this`note, this`selectedCategory, this`selectedSubject, this`selectedDate, this`editIndex
      ensures editIndex == Some(HistoryIndex(old(notesHistory), old(Selected()), row))
      ensures editIndex.Some? && editIndex.value < |notesHistory|
      ensures notesHistory[editIndex.value] == old(FilteredNotes(notesHistory, Selected()))[row]
      ensures note == notesHistory[editIndex.value].text
      ensures selectedCategory == notesHistory[editIndex.value].category
      ensures selectedSubject == match notesHistory[editIndex.value].subject
                                 case Some(x) => if x == "" then All else x
                                 case None => All
      ensures selectedDate == notesHistory[editIndex.value].date
    {
      HandleEditNote(HistoryIndex(notesHistory, Selected(), row));
    }
  }
}
