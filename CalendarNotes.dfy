/**
 * The note app's editor state: the store, the selected date and the editor
 * entries, changed in place by the app's event handlers. Widgets are reduced to
 * their (tag, text) values; UI events are explicit method calls.
 */
module CalendarNotes {
  import opened Wrappers
  import opened Text
  import opened NoteModel

  /** What reading the notes file produced. */
  datatype LoadOutcome =
    | NoFile               // the file does not exist
    | LoadFailed           // reading or parsing raised; the user is shown an error
    | Loaded(notes: Notes) // the parsed collection

  class CalendarNoteApp {
    /** The store: date key to that date's records. */
    var notes: Notes
    /** The key of the date being edited. */
    var selectedDate: string
    /** The editor entries, in the order they are shown. */
    var entries: seq<Entry>
    /** What the notes file holds, when it holds a collection this app wrote or read. */
    var file: Option<Notes>

    /**
     * Starts on `today`: the store is what loading gives (empty unless the file
     * parsed), and the editor shows `today`.
     */
    constructor (today: string, loaded: LoadOutcome)
      ensures selectedDate == today
      ensures notes == (if loaded.Loaded? then loaded.notes else map[])
      ensures file == (if loaded.Loaded? then Some(loaded.notes) else None)
      ensures entries == Displayed(notes, today)
    {
      notes := map[];
      selectedDate := today;
      entries := [];
      file := if loaded.Loaded? then Some(loaded.notes) else None;
      new;
      LoadNotes(loaded);
      DisplayNotesForDate(today);
    }

    /** Replaces the store by the file's collection; a failed read keeps the store as it was. */
    method LoadNotes(loaded: LoadOutcome)
      modifies this`notes
      ensures loaded.NoFile? ==> notes == map[]
      ensures loaded.LoadFailed? ==> notes == old(notes)
      ensures loaded.Loaded? ==> notes == loaded.notes
    {
      match loaded
      case NoFile => notes := map[];
      case LoadFailed =>
      case Loaded(m) => notes := m;
    }

    /**
     * Writes the whole store to the file. `written` is whether the write
     * succeeded; a failure is reported to the user and the store is kept.
     */
    method SaveNotes(written: bool)
      modifies this`file
      ensures file == (if written then Some(notes) else old(file))
    {
      if written {
        file := Some(notes);
      }
    }

    /** Appends one editor entry; an empty tag becomes the default tag. */
    method AddNoteEntry(tag: string := "", content: string := "")
      modifies this`entries
      ensures entries == old(entries) + [NewEntry(tag, content)]
      ensures entries[|entries| - 1].tag != ""
    {
      var tagValue := if tag != "" then tag else TAGS[0];
      entries := entries + [Entry(tagValue, content)];
    }

    /**
     * Rebuilds the editor for `date`: one entry per stored record, with missing
     * or empty tags defaulted and missing content empty, then one blank entry.
     * The store itself is only read.
     */
    method DisplayNotesForDate(date: string)
      modifies this`entries
      ensures entries == Displayed(notes, date)
      ensures |entries| == |NotesFor(notes, date)| + 1
      ensures entries[|entries| - 1] == Entry(TAGS[0], "")
    {
      entries := [];
      var dateNotes := if date in notes then notes[date] else [];
      var i := 0;
      while i < |dateNotes|
        invariant 0 <= i <= |dateNotes|
        invariant entries == Materialize(dateNotes[..i])
      {
        var note := dateNotes[i];
        AddNoteEntry(note.tag.GetOr(TAGS[0]), note.content.GetOr(""));
        assert dateNotes[..i + 1][..i] == dateNotes[..i];
        i := i + 1;
      }
      assert dateNotes[..i] == dateNotes;
      AddNoteEntry();
    }

    /** The user picks a date in the calendar: it becomes the selected date and is shown. */
    method OnDateSelected(date: string)
      modifies this`selectedDate, this`entries
      ensures selectedDate == date
      ensures entries == Displayed(notes, date)
    {
      selectedDate := date;
      DisplayNotesForDate(date);
    }

    /** The user types into entry `i` or changes its tag; no other entry changes. */
    method EditEntry(i: nat, tag: string, text: string)
      requires i < |entries|
      modifies this`entries
      ensures entries == old(entries)[i := Entry(tag, text)]
    {
      entries := entries[i := Entry(tag, text)];
    }

    /**
     * An entry lost focus: every entry is collected, stripped, and the non-blank
     * ones replace the selected date's list, which is then written out. Other
     * dates are untouched and the date's key stays even when the list is empty.
     */
    method AutoSave(written: bool)
      modifies this`notes, this`file
      ensures notes == AutoSaved(old(notes), selectedDate, entries)
      ensures selectedDate in notes
      ensures forall k :: 0 <= k < |notes[selectedDate]| ==> IsSaved(notes[selectedDate][k])
      ensures forall d :: d in old(notes) && d != selectedDate ==> d in notes && notes[d] == old(notes)[d]
      ensures file == (if written then Some(notes) else old(file))
    {
      var dateStr := selectedDate;
      var entryData: seq<Note> := [];
      for i := 0 to |entries|
        invariant entryData == Collect(entries[..i])
        invariant notes == old(notes) && file == old(file)
      {
        var tag, text := entries[i].tag, entries[i].text;
        var content := Strip(WidgetText(text));
        SavedContentOfWidget(entries[i]);
        if content != "" {
          entryData := entryData + [Note(Some(tag), Some(content))];
        }
        assert entries[..i + 1][..i] == entries[..i];
      }
      assert entries[..|entries|] == entries;
      notes := notes[dateStr := entryData];
      SaveNotes(written);
    }
  }

  /**
   * A first note on a day with no notes file: the editor offers one blank entry
   * with the default tag, and saving stores the stripped text under the day.
   */
  method FirstNoteOfTheDay()
  {
    var app := new CalendarNoteApp("2024-03-01", NoFile);
    assert app.entries == [Entry("金融", "")];
    app.EditEntry(0, "日记", "  hello  ");
    app.AutoSave(true);
    HelloStrips();
    var typed := Entry("日记", "  hello  ");
    assert app.entries == [typed] && app.entries[..0] == [];
    assert SavedContent(typed) == "hello";
    assert Collect([typed]) == Collect([]) + [Record(typed)];
    assert Collect(app.entries) == [Note(Some("日记"), Some("hello"))];
    assert app.notes == map["2024-03-01" := [Note(Some("日记"), Some("hello"))]];
    assert app.file == Some(app.notes);
  }

  /** The text typed in `FirstNoteOfTheDay` loses its surrounding spaces. */
  lemma HelloStrips()
    ensures Strip("  hello  ") == "hello"
  {
    assert TrimEnd("  hello  ") == TrimEnd("  hello ") == TrimEnd("  hello") == "  hello";
    assert TrimStart("  hello") == TrimStart(" hello") == TrimStart("hello") == "hello";
  }

  /** A blank entry beside a typed one: only the typed one is stored. */
  method BlankEntryIsDropped()
  {
    var app := new CalendarNoteApp("2024-03-02", NoFile);
    app.AddNoteEntry("金融", "finance note");
    app.AutoSave(false);
    StripStripped("finance note");
    var blank, typed := Entry("金融", ""), Entry("金融", "finance note");
    assert app.entries == [blank, typed] && [blank, typed][..1] == [blank] && [blank][..0] == [];
    assert IsBlank(blank) && !IsBlank(typed);
    assert Collect([blank, typed]) == Collect([blank]) + [Record(typed)];
    assert app.notes["2024-03-02"] == [Note(Some("金融"), Some("finance note"))];
    assert app.file == None;
  }
}
