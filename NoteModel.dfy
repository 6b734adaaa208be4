/**
 * The note store and the editor entries of the calendar note app, as values:
 * how a date's records become editor entries, and how entries are collected
 * back into records when the editor saves.
 */
module NoteModel {
  import opened Wrappers
  import opened Text

  /** The fixed tag list; the first tag is the default for new and untagged notes. */
  const TAGS: seq<string> := ["金融", "日记", "专业课"]

  /** A stored record. Records read from the notes file may lack either key. */
  datatype Note = Note(tag: Option<string>, content: Option<string>)

  /** One editor entry: the tag box's current value and the text box's current text. */
  datatype Entry = Entry(tag: string, text: string)

  /** The whole store: date key to that date's records, in entry order. */
  type Notes = map<string, seq<Note>>

  /** `notes.get(date, [])`. */
  function NotesFor(notes: Notes, date: string): (ns: seq<Note>)
    ensures date in notes ==> ns == notes[date]
    ensures date !in notes ==> ns == []
  {
    if date in notes then notes[date] else []
  }

  /** The tag box's initial value: the given tag, or the default one when it is empty. */
  function EntryTag(tag: string): (r: string)
    ensures r != ""
    ensures tag != "" ==> r == tag
    ensures tag == "" ==> r == TAGS[0]
  {
    if tag != "" then tag else TAGS[0]
  }

  /** The entry `add_note_entry(tag, content)` creates. */
  function NewEntry(tag: string, content: string): (e: Entry)
    ensures e.text == content
    ensures tag != "" ==> e.tag == tag
    ensures tag == "" ==> e.tag == TAGS[0]
  {
    Entry(EntryTag(tag), content)
  }

  /** The entry shown for one stored record. */
  function EntryOf(n: Note): (e: Entry)
    ensures e.text == (if n.content.Some? then n.content.value else "")
    ensures e.tag != ""
    ensures n.tag.Some? && n.tag.value != "" ==> e.tag == n.tag.value
    ensures !(n.tag.Some? && n.tag.value != "") ==> e.tag == TAGS[0]
  {
    NewEntry(n.tag.GetOr(TAGS[0]), n.content.GetOr(""))
  }

  /** The entries shown for a list of records, one per record, in order. */
  function Materialize(ns: seq<Note>): (es: seq<Entry>)
    ensures |es| == |ns|
    ensures forall k :: 0 <= k < |ns| ==> es[k] == EntryOf(ns[k])
  {
    if ns == [] then [] else Materialize(ns[..|ns| - 1]) + [EntryOf(ns[|ns| - 1])]
  }

  /**
   * The editor after `display_notes_for_date(date)`: one entry per stored record,
   * then one blank entry with the default tag.
   */
  function Displayed(notes: Notes, date: string): (es: seq<Entry>)
    ensures |es| == |NotesFor(notes, date)| + 1
    ensures es[|es| - 1] == Entry(TAGS[0], "")
    ensures forall k :: 0 <= k < |es| - 1 ==> es[k] == EntryOf(NotesFor(notes, date)[k])
  {
    Materialize(NotesFor(notes, date)) + [NewEntry("", "")]
  }

  /** What a Tk text widget returns for its whole range: the text plus a final newline. */
  function WidgetText(text: string): (w: string)
    ensures |w| == |text| + 1 && w[..|text|] == text
    ensures IsWhitespace(w[|text|])
  {
    text + "\n"
  }

  /**
   * The content `auto_save` keeps from an entry: the text, stripped. The widget's
   * trailing newline makes no difference (see `SavedContentOfWidget`).
   */
  function SavedContent(e: Entry): (c: string)
    ensures IsStripped(c)
    ensures |c| <= |e.text|
  {
    Strip(e.text)
  }

  /** Stripping what the widget returns gives the entry's saved content. */
  lemma SavedContentOfWidget(e: Entry)
    ensures Strip(WidgetText(e.text)) == SavedContent(e)
  {
    StripIgnoresTrailingNewline(e.text);
  }

  /** An entry `auto_save` drops: its text strips to nothing, exactly when it is all whitespace. */
  predicate IsBlank(e: Entry): (b: bool)
    ensures b <==> AllWhitespace(e.text)
  {
    StripEmptyIffAllWhitespace(e.text);
    SavedContent(e) == ""
  }

  /** The record `auto_save` writes for an entry it keeps. */
  function Record(e: Entry): (n: Note)
    ensures n.tag == Some(e.tag)
    ensures n.content.Some? && IsStripped(n.content.value)
    ensures n.content.value == "" <==> IsBlank(e)
    ensures !IsBlank(e) ==> IsSaved(n)
  {
    Note(Some(e.tag), Some(SavedContent(e)))
  }

  /** A record as `auto_save` writes it: both keys, non-empty stripped content. */
  predicate IsSaved(n: Note) {
    n.tag.Some? && n.content.Some? && n.content.value != "" && IsStripped(n.content.value)
  }

  /** A saved record whose tag is also non-empty, so that showing it keeps its tag. */
  predicate IsStable(n: Note) {
    IsSaved(n) && n.tag.value != ""
  }

  /** The records `auto_save` builds from the editor entries, in entry order. */
  function Collect(es: seq<Entry>): (ns: seq<Note>)
    ensures |ns| <= |es|
    ensures forall k :: 0 <= k < |ns| ==> IsSaved(ns[k])
  {
    if es == [] then []
    else Collect(es[..|es| - 1]) + (if IsBlank(es[|es| - 1]) then [] else [Record(es[|es| - 1])])
  }

  /** The positions of the entries `auto_save` keeps, that is, of the non-blank ones. */
  function Kept(es: seq<Entry>): seq<nat> {
    if es == [] then []
    else Kept(es[..|es| - 1]) + (if IsBlank(es[|es| - 1]) then [] else [|es| - 1])
  }

  /** The store after `auto_save` on `date` with entries `es`. */
  function AutoSaved(notes: Notes, date: string, es: seq<Entry>): (r: Notes)
    ensures r.Keys == notes.Keys + {date}
    ensures forall d :: d in notes && d != date ==> r[d] == notes[d]
    ensures r[date] == Collect(es)
  {
    notes[date := Collect(es)]
  }

  /** Every kept position is in range and holds a non-blank entry. */
  lemma {:induction false} KeptAreNonBlank(es: seq<Entry>)
    ensures forall k :: 0 <= k < |Kept(es)| ==> Kept(es)[k] < |es| && !IsBlank(es[Kept(es)[k]])
  {
    if es != [] {
      var n := |es| - 1;
      KeptAreNonBlank(es[..n]);
      assert forall j :: 0 <= j < n ==> es[..n][j] == es[j];
    }
  }

  /** Kept positions are strictly increasing, so records keep the entries' order. */
  lemma {:induction false} KeptIncreasing(es: seq<Entry>)
    ensures forall k, l :: 0 <= k < l < |Kept(es)| ==> Kept(es)[k] < Kept(es)[l]
  {
    if es != [] {
      var n := |es| - 1;
      KeptIncreasing(es[..n]);
      KeptAreNonBlank(es[..n]);
    }
  }

  /** Every non-blank entry is kept. */
  lemma {:induction false} KeptComplete(es: seq<Entry>, j: nat)
    requires j < |es| && !IsBlank(es[j])
    ensures j in Kept(es)
  {
    var n := |es| - 1;
    var init := es[..n];
    if j < n {
      assert init[j] == es[j];
      KeptComplete(init, j);
    }
  }

  /**
   * The records are those of the kept entries, one each, in order: each carries
   * its entry's current tag and its stripped text.
   */
  lemma {:induction false} CollectIsKept(es: seq<Entry>)
    ensures |Collect(es)| == |Kept(es)|
    ensures forall k :: 0 <= k < |Kept(es)| ==>
              Kept(es)[k] < |es| && Collect(es)[k] == Record(es[Kept(es)[k]])
  {
    if es != [] {
      var n := |es| - 1;
      CollectIsKept(es[..n]);
      KeptAreNonBlank(es[..n]);
      assert forall j :: 0 <= j < n ==> es[..n][j] == es[j];
    }
  }

  /** The date's list is empty after saving exactly when every entry is blank. */
  lemma CollectEmptyIffAllBlank(es: seq<Entry>)
    ensures Collect(es) == [] <==> forall j :: 0 <= j < |es| ==> IsBlank(es[j])
  {
    CollectIsKept(es);
    KeptAreNonBlank(es);
    if Collect(es) == [] {
      forall j | 0 <= j < |es| ensures IsBlank(es[j]) {
        if !IsBlank(es[j]) {
          KeptComplete(es, j);
        }
      }
    } else {
      assert !IsBlank(es[Kept(es)[0]]);
    }
  }

  /** Collecting the entries shown for stable records gives the records back. */
  lemma {:induction false} CollectMaterialize(ns: seq<Note>)
    requires forall k :: 0 <= k < |ns| ==> IsStable(ns[k])
    ensures Collect(Materialize(ns)) == ns
  {
    if ns != [] {
      var n := |ns| - 1;
      CollectMaterialize(ns[..n]);
      var es := Materialize(ns);
      assert es[..n] == Materialize(ns[..n]);
      StripStripped(ns[n].content.value);
      assert ns == ns[..n] + [ns[n]];
    }
  }

  /**
   * Showing a date and saving without edits collects the date's records back;
   * the trailing blank entry is dropped.
   */
  lemma CollectDisplayed(notes: Notes, date: string)
    requires forall k :: 0 <= k < |NotesFor(notes, date)| ==> IsStable(NotesFor(notes, date)[k])
    ensures Collect(Displayed(notes, date)) == NotesFor(notes, date)
  {
    var ns := NotesFor(notes, date);
    var es := Displayed(notes, date);
    assert es[..|ns|] == Materialize(ns);
    CollectMaterialize(ns);
  }

  /** Reopening a date that has stable records and saving with no edits leaves the store as it was. */
  lemma ReopenAndSave(notes: Notes, date: string)
    requires date in notes
    requires forall k :: 0 <= k < |notes[date]| ==> IsStable(notes[date][k])
    ensures AutoSaved(notes, date, Displayed(notes, date)) == notes
  {
    var es := Displayed(notes, date);
    CollectDisplayed(notes, date);
    AutoSaveStored(notes, date, es);
  }

  /**
   * Reopening a date with no records and saving with no edits does not leave the
   * store as it was: the date gains its key, with an empty list.
   */
  lemma ReopenEmptyDateAndSave(notes: Notes, date: string)
    requires date !in notes
    ensures AutoSaved(notes, date, Displayed(notes, date)) == notes[date := []]
  {
  }

  /** Saving entries that collect to what is already stored changes nothing. */
  lemma AutoSaveStored(notes: Notes, date: string, es: seq<Entry>)
    requires date in notes && Collect(es) == notes[date]
    ensures AutoSaved(notes, date, es) == notes
  {
  }

  /** Saving replaces the date's list rather than appending to it: saving twice is saving once. */
  lemma AutoSaveIdempotent(notes: Notes, date: string, es: seq<Entry>)
    ensures AutoSaved(AutoSaved(notes, date, es), date, es) == AutoSaved(notes, date, es)
  {
  }

  /**
   * When every entry has a tag, what a save stores is stable: reopening the date
   * and saving again without edits changes nothing.
   */
  lemma SaveThenReopenAndSave(notes: Notes, date: string, es: seq<Entry>)
    requires forall j :: 0 <= j < |es| ==> es[j].tag != ""
    ensures var saved := AutoSaved(notes, date, es);
            AutoSaved(saved, date, Displayed(saved, date)) == saved
  {
    var saved := AutoSaved(notes, date, es);
    CollectIsKept(es);
    KeptAreNonBlank(es);
    assert saved[date] == Collect(es);
    forall k | 0 <= k < |Collect(es)| ensures IsStable(Collect(es)[k]) {
      assert Collect(es)[k].tag == Some(es[Kept(es)[k]].tag);
    }
    ReopenAndSave(saved, date);
  }
}
