# Calendar notes: note store and editor bookkeeping

A model of the bookkeeping inside `CalendarNoteApp` (`calendar_notes.py`), a
tkinter calendar app that keeps a list of tagged notes per day. What is modelled:

- the store `notes`, a map from a date key (`YYYY-MM-DD`) to the day's ordered
  list of `{tag, content}` records;
- the fixed tag list `TAGS`, whose first tag is the default;
- `display_notes_for_date` and `add_note_entry`, which turn a day's records into
  editor entries (a tag box and a text box, here a `(tag, text)` value), defaulting
  a missing or empty tag to `TAGS[0]` and missing content to `""`, and always
  ending with one blank entry;
- `auto_save`, run whenever a text box loses focus, which strips every entry's
  text, drops the blank ones, replaces the selected day's whole list with the rest
  and writes the store to the notes file;
- `load_notes`, `save_notes`, the constructor and the date-selection handler,
  with the file reduced to an outcome passed in.

Files:

- `Wrappers.dfy`: `Option`, for records that lack a key.
- `Text.dfy`: Python's whitespace set and `str.strip()` (`Strip`), with the
  lemmas that pin it down: the result is the input minus a whitespace-only head
  and tail, it is empty exactly for all-whitespace input, it is idempotent, and a
  trailing newline does not change it.
- `NoteModel.dfy`: records, entries and the store as values. `Displayed` is the
  editor after showing a day, `Collect` is what saving builds from the entries,
  and `AutoSaved` is the store after saving. The lemmas cover several properties.
  Saving keeps exactly the non-blank entries, in order, each with its own tag
  and stripped text. A day's list is empty exactly when every entry is blank.
  Saving twice is saving once. Showing a day and saving without edits gives its
  records back when each has both keys, a non-empty tag and non-empty stripped
  content; other records come back with the default tag, stripped, or not at all.
- `CalendarNotes.dfy`: the class `CalendarNoteApp` with fields `notes`,
  `selectedDate`, `entries` and `file`, whose methods update them in place as the
  source's handlers do, each proved against the functions above, and two client
  methods that walk the app through a first note and a blank entry.

Two behaviours of the code are kept as written. `auto_save`
(`calendar_notes.py:113`) stores an empty list and keeps the day's key, so opening
an empty day and leaving a text box adds the day with `[]`
(`ReopenEmptyDateAndSave`). `display_notes_for_date` (`calendar_notes.py:89`)
always appends a blank entry, also for a day that has notes.

## Model

| member | source | states |
|---|---|---|
| Text.IsWhitespace | calendar_notes.py:110 | the characters `str.strip()` removes: the code points Python's `str.isspace` accepts |
| Text.AsciiWhitespace | calendar_notes.py:110 | among ASCII characters, exactly space, tab, newline, carriage return, vertical tab, form feed and the four information separators are whitespace |
| Text.TrimStart | calendar_notes.py:110 | the left-stripped text is no longer than the input and does not start with whitespace |
| Text.TrimEnd | calendar_notes.py:110 | the right-stripped text is no longer than the input and does not end with whitespace |
| Text.TrimStartDrops | calendar_notes.py:110 | left-stripping leaves a suffix of the input and drops only whitespace |
| Text.TrimEndDrops | calendar_notes.py:110 | right-stripping leaves a prefix of the input and drops only whitespace |
| Text.Strip | calendar_notes.py:110 | `str.strip()` leaves no whitespace at either end and never lengthens the text |
| Text.StripIsSlice | calendar_notes.py:110 | the stripped text is a slice of the input whose cut head and tail are all whitespace |
| Text.StripEmptyIffAllWhitespace | calendar_notes.py:110-111 | the stripped text is empty exactly when the input is all whitespace (so `if content:` drops exactly those) |
| Text.StripStripped | calendar_notes.py:110 | text with no whitespace at either end strips to itself |
| Text.StripIdempotent | calendar_notes.py:110 | stripping twice equals stripping once |
| Text.StripIgnoresTrailingNewline | calendar_notes.py:110 | the newline the text widget appends to `get('1.0', END)` does not change the stripped content |
| NoteModel.NotesFor | calendar_notes.py:84 | `notes.get(date, [])`: the day's list when the key is present, otherwise the empty list |
| NoteModel.EntryTag | calendar_notes.py:95 | the tag box value is never empty: a non-empty tag is kept, an empty one becomes `TAGS[0]` |
| NoteModel.NewEntry | calendar_notes.py:91-104 | the entry `add_note_entry` appends has exactly the given content, and the given tag when it is non-empty, otherwise `TAGS[0]` |
| NoteModel.EntryOf | calendar_notes.py:86 | a record shows its content or `""` when missing, its tag when present and non-empty, and `TAGS[0]` otherwise |
| NoteModel.Materialize | calendar_notes.py:85-86 | the records become one entry each, in the same order |
| NoteModel.Displayed | calendar_notes.py:84-89 | showing a day gives `len(notes.get(date, [])) + 1` entries, the record entries in order, then a blank entry tagged `TAGS[0]` |
| NoteModel.WidgetText | calendar_notes.py:110 | the text widget's `get('1.0', END)` is the typed text followed by one whitespace character (the newline Tk appends) |
| NoteModel.SavedContent | calendar_notes.py:110 | the content kept from an entry has no whitespace at either end and is no longer than its text |
| NoteModel.SavedContentOfWidget | calendar_notes.py:110 | stripping the widget's text (with its trailing newline) gives the entry's saved content |
| NoteModel.IsBlank | calendar_notes.py:110-111 | the `if content:` test fails (the entry is dropped) exactly when the entry's text is all whitespace |
| NoteModel.Record | calendar_notes.py:112 | the dict `auto_save` builds carries the entry's current tag and its stripped content, which is empty exactly when the entry is blank; for a non-blank entry it is a valid saved record |
| NoteModel.Collect | calendar_notes.py:108-112 | saving builds at most one record per entry, and each record has both keys and non-empty, stripped content |
| NoteModel.AutoSaved | calendar_notes.py:113 | the assignment `self.notes[date_str] = entry_data`: the keys are the old ones plus the selected day, every other day keeps its list, and the selected day holds the collected records |
| NoteModel.KeptAreNonBlank | calendar_notes.py:109-112 | every position saving keeps holds a non-blank entry |
| NoteModel.KeptIncreasing | calendar_notes.py:109-112 | the kept positions are strictly increasing, so records keep the entries' relative order |
| NoteModel.KeptComplete | calendar_notes.py:109-112 | every non-blank entry is kept |
| NoteModel.CollectIsKept | calendar_notes.py:109-112 | the k-th saved record is the k-th kept entry's current tag and stripped text |
| NoteModel.CollectEmptyIffAllBlank | calendar_notes.py:108-113 | the day's new list is empty exactly when every entry is blank |
| NoteModel.CollectMaterialize | calendar_notes.py:84-112 | records with non-empty tags and non-empty stripped content come back unchanged from showing and collecting them |
| NoteModel.CollectDisplayed | calendar_notes.py:84-112 | showing a day of such records and saving without edits collects exactly those records; the trailing blank entry is dropped |
| NoteModel.ReopenAndSave | calendar_notes.py:78-113 | reopening a stored day of such records and saving without edits leaves the whole store unchanged |
| NoteModel.ReopenEmptyDateAndSave | calendar_notes.py:84-113 | reopening a day with no key and saving without edits adds the key with an empty list and changes nothing else |
| NoteModel.AutoSaveStored | calendar_notes.py:113 | replacing a day's list with the list it already has leaves the store unchanged |
| NoteModel.AutoSaveIdempotent | calendar_notes.py:113 | saving the same entries twice leaves the store as saving once |
| NoteModel.SaveThenReopenAndSave | calendar_notes.py:84-113 | when every entry has a non-empty tag, reopening the day just saved and saving again changes nothing |
| CalendarNotes.CalendarNoteApp.constructor | calendar_notes.py:19-29 | the app starts on today with the loaded store (empty unless the file parsed) and shows today |
| CalendarNotes.CalendarNoteApp.LoadNotes | calendar_notes.py:31-39 | a missing file gives an empty store, a failed read keeps the store, a parsed file replaces it |
| CalendarNotes.CalendarNoteApp.SaveNotes | calendar_notes.py:41-46 | a successful write puts the whole store in the file; the store itself never changes |
| CalendarNotes.CalendarNoteApp.AddNoteEntry | calendar_notes.py:91-104 | appends exactly one entry, with the default tag when the given tag is empty, and changes nothing else |
| CalendarNotes.CalendarNoteApp.DisplayNotesForDate | calendar_notes.py:78-89 | the editor is rebuilt as `Displayed(notes, date)`: one entry per record, then a blank entry with `TAGS[0]`; the store is unchanged |
| CalendarNotes.CalendarNoteApp.OnDateSelected | calendar_notes.py:72-76 | the picked date becomes the selected date and the editor shows it |
| CalendarNotes.CalendarNoteApp.EditEntry | calendar_notes.py:95-104 | typing into one entry's boxes changes that entry only |
| CalendarNotes.CalendarNoteApp.AutoSave | calendar_notes.py:106-114 | the selected day's list becomes `Collect(entries)`, with valid records only; its key is present even when the list is empty; every other day is unchanged; a successful write puts the new store in the file |
| CalendarNotes.HelloStrips | calendar_notes.py:110 | `Strip("  hello  ") == "hello"`, the fact the client method `FirstNoteOfTheDay` uses to show the note is stored as `"hello"` |

## Left out

- The tkinter and tkcalendar widgets (window, frames, buttons, combobox, text boxes, calendar), `create_widgets`, `toggle_calendar` and the focus-out binding. Events are method calls, and a widget is its `(tag, text)` value.
- File I/O and JSON. `LoadNotes` takes what reading produced (no file, a failure, or a parsed collection), and `SaveNotes` and `AutoSave` take whether the write succeeded. Error dialogs are not modelled.
- CalendarNotes.CalendarNoteApp.SaveNotes: a failed write is modelled as leaving the file as it was. A write that fails after `open(..., 'w')` has truncated the file, leaving it partial, is not modelled.
- A parsed file whose values are not lists of string-keyed records is not modelled. The model assumes the `json.load` result has the shape the app writes.
- `datetime`. The date key is an opaque string, and the model assumes that parsing and re-formatting a picked date gives back the same key.
- Tk's text widget is modelled only in the one respect that matters here: `get('1.0', END)` appends a newline. Other normalisations of typed text are not modelled.
- Whitespace is the set of code points Python's `str.isspace` accepts, fixed in `Text.IsWhitespace`. It does not follow the Unicode version of any particular Python release.
- Deleting notes and creating tags: `calendar_notes.py` has neither. `TAGS` is a fixed list. The tag box accepts free text, so `EditEntry` takes any tag.
