/**
 * The chord endpoints of the backend (backend/main.py): the catalogue of
 * chord names offered by the picker, and the reverse-lookup endpoint with
 * its not-found mapping.
 */
module ChordApi {
  import opened Wrappers
  import opened Chords

  /** The picker name for root `i` and table entry `j`: "{root} {type}". */
  function PickerName(i: int, j: int): (r: string)
    requires 0 <= i < |Notes| && 0 <= j < |ChordDefinitions|
    ensures ParseChordName(r) == Some((i, ChordDefinitions[j]))
  {
    assert ' ' !in Notes[i];
    SplitOnceJoin(Notes[i], ChordDefinitions[j].name);
    NoteIndexOfNote(i);
    ChordTypeNamedEntry(j);
    Notes[i] + " " + ChordDefinitions[j].name
  }

  /**
   * get_available_chords: every root in chromatic order, and for each root
   * every chord type in table order, each as "{root} {type}".
   */
  method AvailableChords() returns (names: seq<string>)
    ensures |names| == |Notes| * |ChordDefinitions| == 180
    ensures forall i, j :: 0 <= i < |Notes| && 0 <= j < |ChordDefinitions| ==>
      names[i * 15 + j] == PickerName(i, j)
    ensures forall n :: n in names ==> GetChordNotes(n) != []
  {
    names := [];
    for i := 0 to |Notes|
      invariant |names| == i * 15
      invariant forall a, b :: 0 <= a < i && 0 <= b < 15 ==> names[a * 15 + b] == Notes[a] + " " + ChordDefinitions[b].name
    {
      for j := 0 to |ChordDefinitions|
        invariant |names| == i * 15 + j
        invariant forall a, b :: 0 <= a < i && 0 <= b < 15 ==> names[a * 15 + b] == Notes[a] + " " + ChordDefinitions[b].name
        invariant forall b :: 0 <= b < j ==> names[i * 15 + b] == Notes[i] + " " + ChordDefinitions[b].name
      {
        names := names + [Notes[i] + " " + ChordDefinitions[j].name];
      }
    }
    CatalogueNamed(names);
    CatalogueResolves(names);
  }

  /** A list laid out root by root, type by type, holds the picker names in their slots. */
  lemma CatalogueNamed(names: seq<string>)
    requires |names| == 180
    requires forall a, b :: 0 <= a < 12 && 0 <= b < 15 ==> names[a * 15 + b] == Notes[a] + " " + ChordDefinitions[b].name
    ensures forall i, j :: 0 <= i < 12 && 0 <= j < 15 ==> names[i * 15 + j] == PickerName(i, j)
  {
    forall i, j | 0 <= i < 12 && 0 <= j < 15 ensures names[i * 15 + j] == PickerName(i, j) {
      assert names[i * 15 + j] == Notes[i] + " " + ChordDefinitions[j].name;
    }
  }

  /** A list laid out like the catalogue holds only names that resolve. */
  lemma CatalogueResolves(names: seq<string>)
    requires |names| == 180
    requires forall i, j :: 0 <= i < 12 && 0 <= j < 15 ==> names[i * 15 + j] == PickerName(i, j)
    ensures forall n :: n in names ==> GetChordNotes(n) != []
  {
    forall n | n in names
      ensures GetChordNotes(n) != []
    {
      var k :| 0 <= k < |names| && names[k] == n;
      var i, j := CatalogueSlot(k);
      assert names[i * 15 + j] == PickerName(i, j);
      PickerNameResolves(i, j);
    }
  }

  /** Each of the 180 catalogue slots belongs to one root and one table entry. */
  lemma CatalogueSlot(k: int) returns (i: int, j: int)
    requires 0 <= k < 180
    ensures 0 <= i < 12 && 0 <= j < 15 && k == i * 15 + j
  {
    i, j := k / 15, k % 15;
  }

  /** Every picker name resolves to a non-empty list of notes. */
  lemma PickerNameResolves(i: int, j: int)
    requires 0 <= i < |Notes| && 0 <= j < |ChordDefinitions|
    ensures GetChordNotes(PickerName(i, j)) != []
    ensures |GetChordNotes(PickerName(i, j))| == |ChordDefinitions[j].tones|
  {
    assert ParseChordName(PickerName(i, j)).Some?;
  }

  /** The answer of the reverse-lookup endpoint. */
  datatype Response =
    | NotesFound(notes: seq<string>)
    | HttpError(status: int, detail: string)

  /**
   * get_chord_composition: the notes of the named chord, or a 404 error
   * exactly when the lookup comes back empty.
   */
  function GetChordComposition(chordName: string): (r: Response)
    ensures r.HttpError? <==> ParseChordName(chordName).None?
    ensures r.HttpError? ==> r.status == 404 && r.detail == "Chord not found"
    ensures r.NotesFound? ==> r.notes == GetChordNotes(chordName) && r.notes != []
  {
    var notes := GetChordNotes(chordName);
    if notes == [] then HttpError(404, "Chord not found") else NotesFound(notes)
  }

  /** The endpoint never answers 404 for a name the picker offers. */
  lemma PickerNamesNeverNotFound(i: int, j: int)
    requires 0 <= i < |Notes| && 0 <= j < |ChordDefinitions|
    ensures GetChordComposition(PickerName(i, j)).NotesFound?
  {
    PickerNameResolves(i, j);
  }
}
