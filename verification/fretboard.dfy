/**
 * The fretboard store of the frontend (frontend/src/stores/guitar.ts): the
 * selected (string, fret, note) positions, the current tuning, the scale
 * explorer settings, the reverse-lookup mode and the views derived from them.
 */
module Fretboard {
  import opened Wrappers
  import opened Chords
  import ChordApi

  // ---------------------------------------------------------------------
  // Tables
  // ---------------------------------------------------------------------

  /** The twelve pitch-class names the fretboard uses, sharps only, from C. */
  const Chromatic: seq<string> := ["C", "C#", "D", "D#", "E", "F", "F#", "G", "G#", "A", "A#", "B"]

  /** A tuning: its display name and the MIDI number of each open string, low E first. */
  datatype Tuning = Tuning(name: string, midiBases: seq<nat>)

  const Standard: Tuning := Tuning("Standard", [40, 45, 50, 55, 59, 64])

  /** The tunings offered by the tuning picker, in table order. */
  const Tunings: seq<Tuning> := [
    Standard,
    Tuning("Drop D", [38, 45, 50, 55, 59, 64]),
    Tuning("Double Drop D", [38, 45, 50, 55, 59, 62]),
    Tuning("DADGAD", [38, 45, 50, 55, 57, 62]),
    Tuning("Open G", [38, 43, 50, 55, 59, 62]),
    Tuning("Open D", [38, 45, 50, 54, 57, 62])
  ]

  /** The scales of the scale explorer. */
  datatype ScaleType = Major | Minor | MajorPentatonic | MinorPentatonic | Blues

  /** The semitone steps of a scale above its root: rising, within one octave, starting at the root. */
  function ScaleIntervals(t: ScaleType): (r: seq<int>)
    ensures |r| >= 5 && r[0] == 0
    ensures forall k :: 0 <= k < |r| ==> 0 <= r[k] < 12
    ensures forall j, k :: 0 <= j < k < |r| ==> r[j] < r[k]
  {
    match t
    case Major => [0, 2, 4, 5, 7, 9, 11]
    case Minor => [0, 2, 3, 5, 7, 8, 10]
    case MajorPentatonic => [0, 2, 4, 7, 9]
    case MinorPentatonic => [0, 3, 5, 7, 10]
    case Blues => [0, 3, 5, 6, 7, 10]
  }

  // ---------------------------------------------------------------------
  // Notes on the fretboard
  // ---------------------------------------------------------------------

  /** One selected position: string index (0 is low E), fret, and the note name shown there. */
  datatype Selection = Selection(stringIdx: int, fret: nat, note: string)

  /** Every tuning on offer has six strings, and its name is the one it is listed under. */
  lemma TuningsSixStrings()
    ensures forall t :: t in Tunings ==> |t.midiBases| == 6
    ensures forall j, k :: 0 <= j < k < |Tunings| ==> Tunings[j].name != Tunings[k].name
  {
  }

  /** The MIDI number of an open string; 40 (low E) for a string the tuning does not list. */
  function BaseMidi(t: Tuning, s: int): (r: nat)
    ensures 0 <= s < |t.midiBases| ==> r == t.midiBases[s]
    ensures !(0 <= s < |t.midiBases|) ==> r == 40
  {
    if 0 <= s < |t.midiBases| then t.midiBases[s] else 40
  }

  /** The note name sounding at fret `f` of string `s` in tuning `t`. */
  function NoteAt(t: Tuning, s: int, f: nat): (r: string)
    ensures r in Chromatic
  {
    Chromatic[Transpose(BaseMidi(t, s), f)]
  }

  /** Twelve frets higher is the same note name, one octave up. */
  lemma NoteAtOctave(t: Tuning, s: int, f: nat)
    ensures NoteAt(t, s, f + 12) == NoteAt(t, s, f)
  {
    var b := BaseMidi(t, s);
    assert b + f + 12 == (b + f) + 12 * 1;
    assert (b + f + 12) % 12 == (b + f) % 12;
  }

  /** The label of each string: the note of its open string. */
  function StringsLabels(t: Tuning): (r: seq<string>)
    ensures |r| == |t.midiBases|
    ensures forall s :: 0 <= s < |r| ==> r[s] == NoteAt(t, s, 0)
  {
    seq(|t.midiBases|, s requires 0 <= s < |t.midiBases| => Chromatic[t.midiBases[s] % 12])
  }

  /**
   * The notes of a scale: none while the explorer is off, otherwise one per
   * scale step, each that many semitones above the root, all distinct and
   * starting with the root itself.
   */
  function ScaleNotes(enabled: bool, root: string, scale: ScaleType): (r: seq<string>)
    requires root in Chromatic
    ensures !enabled ==> r == []
    ensures enabled ==> |r| == |ScaleIntervals(scale)| && r[0] == root
    ensures enabled ==> forall k :: 0 <= k < |r| ==>
      r[k] == Chromatic[Transpose(IndexOf(Chromatic, root), ScaleIntervals(scale)[k])]
    ensures forall j, k :: 0 <= j < k < |r| ==> r[j] != r[k]
  {
    if !enabled then []
    else
      var rootIdx := IndexOf(Chromatic, root);
      ScaleAbove(rootIdx, ScaleIntervals(scale))
  }

  /** The notes `steps` semitones above the root with index `rootIdx`, in step order. */
  function ScaleAbove(rootIdx: int, steps: seq<int>): (r: seq<string>)
    requires 0 <= rootIdx < 12 && |steps| > 0 && steps[0] == 0
    requires forall k :: 0 <= k < |steps| ==> 0 <= steps[k] < 12
    requires forall j, k :: 0 <= j < k < |steps| ==> steps[j] < steps[k]
    ensures |r| == |steps| && r[0] == Chromatic[rootIdx]
    ensures forall k :: 0 <= k < |r| ==> r[k] == Chromatic[Transpose(rootIdx, steps[k])]
    ensures forall j, k :: 0 <= j < k < |r| ==> r[j] != r[k]
  {
    var r := seq(|steps|, k requires 0 <= k < |steps| => Chromatic[Transpose(rootIdx, steps[k])]);
    assert Transpose(rootIdx, steps[0]) == rootIdx;
    forall j, k | 0 <= j < k < |r| ensures r[j] != r[k] {
      ScaleStepsDistinct(rootIdx, steps[j], steps[k]);
    }
    r
  }

  /** Two different steps within an octave above the same root name two different notes. */
  lemma ScaleStepsDistinct(root: int, x: int, y: int)
    requires 0 <= root < 12 && 0 <= x < 12 && 0 <= y < 12 && x != y
    ensures Chromatic[Transpose(root, x)] != Chromatic[Transpose(root, y)]
  {
    ShiftBack(root, x);
    ShiftBack(root, y);
    assert Chromatic == Notes;
    NotesDistinct();
  }

  // ---------------------------------------------------------------------
  // Selections
  // ---------------------------------------------------------------------

  /** No string holds two selected positions. */
  predicate OnePerString(sel: seq<Selection>) {
    forall i, j :: 0 <= i < j < |sel| ==> sel[i].stringIdx != sel[j].stringIdx
  }

  /** Every selected note is the one the tuning sounds at its position. */
  predicate NotesFollowTuning(sel: seq<Selection>, t: Tuning) {
    forall x :: x in sel ==> x.note == NoteAt(t, x.stringIdx, x.fret)
  }

  /** The distinct note names of a selection: never more than it has positions. */
  function UniqueNotes(sel: seq<Selection>): (r: set<string>)
    ensures |r| <= |sel|
  {
    NotesNoMore(sel);
    set x | x in sel :: x.note
  }

  /** A list of positions has at least as many entries as distinct note names. */
  lemma {:induction false} NotesNoMore(sel: seq<Selection>)
    ensures |set x | x in sel :: x.note| <= |sel|
  {
    if sel != [] {
      var rest := sel[1..];
      NotesNoMore(rest);
      assert sel == [sel[0]] + rest;
      assert (set x | x in sel :: x.note) == (set x | x in rest :: x.note) + {sel[0].note};
    }
  }

  /** Whether a selection sits at string `s`, fret `f`. */
  predicate At(x: Selection, s: int, f: nat) {
    x.stringIdx == s && x.fret == f
  }

  /** The index of the first selection at (s, f), or -1. */
  function FindPosition(sel: seq<Selection>, s: int, f: nat): (r: int)
    ensures -1 <= r < |sel|
    ensures r == -1 <==> forall k :: 0 <= k < |sel| ==> !At(sel[k], s, f)
    ensures r >= 0 ==> At(sel[r], s, f) && forall k :: 0 <= k < r ==> !At(sel[k], s, f)
  {
    if sel == [] then -1
    else if At(sel[0], s, f) then 0
    else
      var k := FindPosition(sel[1..], s, f);
      if k == -1 then -1 else k + 1
  }

  /** The index of the first selection on string `s`, or -1. */
  function FindString(sel: seq<Selection>, s: int): (r: int)
    ensures -1 <= r < |sel|
    ensures r == -1 <==> forall k :: 0 <= k < |sel| ==> sel[k].stringIdx != s
    ensures r >= 0 ==> sel[r].stringIdx == s && forall k :: 0 <= k < r ==> sel[k].stringIdx != s
  {
    if sel == [] then -1
    else if sel[0].stringIdx == s then 0
    else
      var k := FindString(sel[1..], s);
      if k == -1 then -1 else k + 1
  }

  /** The list with entry `k` spliced out: exactly that one entry goes, the rest keep their order. */
  function RemoveAt<T>(xs: seq<T>, k: int): (r: seq<T>)
    requires 0 <= k < |xs|
    ensures |r| == |xs| - 1
    ensures forall i :: 0 <= i < |r| ==> r[i] == if i < k then xs[i] else xs[i + 1]
    ensures multiset(r) + multiset{xs[k]} == multiset(xs)
  {
    assert xs == xs[..k] + [xs[k]] + xs[k + 1..];
    xs[..k] + xs[k + 1..]
  }

  /** The selection with the first entry on string `s` removed, if there is one. */
  function WithoutString(sel: seq<Selection>, s: int): (r: seq<Selection>)
    ensures |sel| - 1 <= |r| <= |sel|
    ensures forall x :: x in r ==> x in sel
    ensures OnePerString(sel) ==> OnePerString(r) && forall x :: x in r ==> x.stringIdx != s
  {
    var c := FindString(sel, s);
    if c != -1 then RemoveAt(sel, c) else sel
  }

  /**
   * The selection after the select-or-deselect step of a toggle, before the
   * unique-note cap: the entry at (s, f) is removed if present; otherwise
   * the string's other entry is removed and the new position is pushed.
   */
  function Placed(sel: seq<Selection>, t: Tuning, s: int, f: nat): (r: seq<Selection>)
    ensures |sel| - 1 <= |r| <= |sel| + 1
  {
    var k := FindPosition(sel, s, f);
    if k != -1 then RemoveAt(sel, k)
    else WithoutString(sel, s) + [Selection(s, f, NoteAt(t, s, f))]
  }

  /** On a board with one position per string, the select-or-deselect step flips whether (s, f) is selected. */
  lemma PlacedFlips(sel: seq<Selection>, t: Tuning, s: int, f: nat)
    requires OnePerString(sel)
    ensures FindPosition(Placed(sel, t, s, f), s, f) == -1 <==> FindPosition(sel, s, f) != -1
  {
    var k := FindPosition(sel, s, f);
    if k != -1 {
      DeselectClears(sel, k, s, f);
    } else {
      var r := Placed(sel, t, s, f);
      assert At(r[|r| - 1], s, f);
    }
  }

  /** With one position per string, splicing out the entry at (s, f) leaves none there. */
  lemma DeselectClears(sel: seq<Selection>, k: int, s: int, f: nat)
    requires OnePerString(sel) && 0 <= k < |sel| && At(sel[k], s, f)
    ensures forall i :: 0 <= i < |sel| - 1 ==> !At(RemoveAt(sel, k)[i], s, f)
  {
    var r := RemoveAt(sel, k);
    forall i | 0 <= i < |r| ensures !At(r[i], s, f) {
      if i < k {
        assert r[i] == sel[i];
      } else {
        assert r[i] == sel[i + 1];
      }
    }
  }

  /**
   * The selection after a toggle at (s, f): the placed selection, with its
   * last entry popped when it holds more than four distinct notes.
   */
  function Toggled(sel: seq<Selection>, t: Tuning, s: int, f: nat): (r: seq<Selection>)
    ensures |sel| - 2 <= |r| <= |sel| + 1
  {
    var placed := Placed(sel, t, s, f);
    if |UniqueNotes(placed)| > 4 then
      assert placed != [];
      placed[..|placed| - 1]
    else placed
  }

  /** On a board with one position per string, toggling a selected position deselects it. */
  lemma ToggleUnselects(sel: seq<Selection>, t: Tuning, s: int, f: nat)
    requires OnePerString(sel) && FindPosition(sel, s, f) != -1
    ensures FindPosition(Toggled(sel, t, s, f), s, f) == -1
  {
    var placed := Placed(sel, t, s, f);
    PlacedFlips(sel, t, s, f);
    if |UniqueNotes(placed)| > 4 {
      assert placed != [];
      assert forall i :: 0 <= i < |placed| - 1 ==> placed[..|placed| - 1][i] == placed[i];
    }
  }

  /** Every entry a toggle leaves was there before, or is the newly placed position. */
  lemma ToggleEntries(sel: seq<Selection>, t: Tuning, s: int, f: nat)
    ensures forall x :: x in Toggled(sel, t, s, f) ==> x in sel || x == Selection(s, f, NoteAt(t, s, f))
  {
    var placed := Placed(sel, t, s, f);
    assert forall x :: x in placed ==> x in sel || x == Selection(s, f, NoteAt(t, s, f));
    if |UniqueNotes(placed)| > 4 {
      assert placed != [];
      assert forall x :: x in placed[..|placed| - 1] ==> x in placed;
    }
  }

  /** A toggle keeps at most one selected position per string. */
  lemma ToggleKeepsOnePerString(sel: seq<Selection>, t: Tuning, s: int, f: nat)
    requires OnePerString(sel)
    ensures OnePerString(Toggled(sel, t, s, f))
  {
    var placed := Placed(sel, t, s, f);
    PlacedKeepsOnePerString(sel, t, s, f);
    if |UniqueNotes(placed)| > 4 {
      assert placed != [];
      OnePerStringPrefix(placed, |placed| - 1);
    }
  }

  /** The select-or-deselect step keeps at most one position per string. */
  lemma PlacedKeepsOnePerString(sel: seq<Selection>, t: Tuning, s: int, f: nat)
    requires OnePerString(sel)
    ensures OnePerString(Placed(sel, t, s, f))
  {
    var k := FindPosition(sel, s, f);
    if k == -1 {
      PushKeepsOnePerString(WithoutString(sel, s), Selection(s, f, NoteAt(t, s, f)));
    } else {
      RemoveKeepsOnePerString(sel, k);
    }
  }

  /** Pushing a position onto a string no entry uses keeps one position per string. */
  lemma PushKeepsOnePerString(base: seq<Selection>, n: Selection)
    requires OnePerString(base) && forall x :: x in base ==> x.stringIdx != n.stringIdx
    ensures OnePerString(base + [n])
  {
    forall i, j | 0 <= i < j < |base + [n]|
      ensures (base + [n])[i].stringIdx != (base + [n])[j].stringIdx
    {
      if j == |base| {
        assert base[i] in base;
      }
    }
  }

  /** Splicing out an entry keeps one position per string. */
  lemma RemoveKeepsOnePerString(sel: seq<Selection>, k: int)
    requires OnePerString(sel) && 0 <= k < |sel|
    ensures OnePerString(RemoveAt(sel, k))
  {
    var r := RemoveAt(sel, k);
    forall i, j | 0 <= i < j < |r| ensures r[i].stringIdx != r[j].stringIdx {
      assert r[i] == if i < k then sel[i] else sel[i + 1];
      assert r[j] == if j < k then sel[j] else sel[j + 1];
    }
  }

  /** A prefix of a selection with one position per string has one position per string. */
  lemma OnePerStringPrefix(sel: seq<Selection>, n: nat)
    requires OnePerString(sel) && n <= |sel|
    ensures OnePerString(sel[..n])
  {
  }

  /** A toggle keeps every selected note in agreement with the tuning. */
  lemma ToggleKeepsTuningNotes(sel: seq<Selection>, t: Tuning, s: int, f: nat)
    requires NotesFollowTuning(sel, t)
    ensures NotesFollowTuning(Toggled(sel, t, s, f), t)
  {
    ToggleEntries(sel, t, s, f);
  }

  /** On an empty board, as after leaving reverse-lookup mode, a toggle selects just (s, f). */
  lemma ToggleFromEmpty(t: Tuning, s: int, f: nat)
    ensures Toggled([], t, s, f) == [Selection(s, f, NoteAt(t, s, f))]
  {
    var x := Selection(s, f, NoteAt(t, s, f));
    assert Placed([], t, s, f) == [x];
    assert UniqueNotes([x]) == {x.note};
  }

  /** Both board invariants survive a toggle. */
  lemma ToggleKeepsBoard(sel: seq<Selection>, t: Tuning, s: int, f: nat)
    requires OnePerString(sel) && NotesFollowTuning(sel, t)
    ensures OnePerString(Toggled(sel, t, s, f)) && NotesFollowTuning(Toggled(sel, t, s, f), t)
  {
    ToggleKeepsOnePerString(sel, t, s, f);
    ToggleKeepsTuningNotes(sel, t, s, f);
  }

  /** Dropping entries can only lose distinct notes. */
  lemma UniqueNotesShrink(small: seq<Selection>, big: seq<Selection>)
    requires forall x :: x in small ==> x in big
    ensures UniqueNotes(small) <= UniqueNotes(big)
    ensures |UniqueNotes(small)| <= |UniqueNotes(big)|
  {
    assert UniqueNotes(small) <= UniqueNotes(big);
    assert UniqueNotes(big) == UniqueNotes(small) + (UniqueNotes(big) - UniqueNotes(small));
  }

  /** Pushing one entry adds its note to the distinct notes. */
  lemma UniqueNotesPush(sel: seq<Selection>, x: Selection)
    ensures UniqueNotes(sel + [x]) == UniqueNotes(sel) + {x.note}
  {
    assert forall y :: y in sel + [x] <==> y in sel || y == x;
  }

  /**
   * Toggling a selected position removes exactly that entry and adds
   * nothing, as long as the selection was within the four-note cap.
   */
  lemma ToggleDeselects(sel: seq<Selection>, t: Tuning, s: int, f: nat)
    requires FindPosition(sel, s, f) != -1 && |UniqueNotes(sel)| <= 4
    ensures Toggled(sel, t, s, f) == RemoveAt(sel, FindPosition(sel, s, f))
  {
    var k := FindPosition(sel, s, f);
    var r := RemoveAt(sel, k);
    assert forall x :: x in r ==> x in sel by {
      forall x | x in r ensures x in sel {
        var i :| 0 <= i < |r| && r[i] == x;
        assert x == if i < k then sel[i] else sel[i + 1];
      }
    }
    UniqueNotesShrink(r, sel);
  }

  /**
   * Toggling an unselected position first clears its string, then pushes
   * the new position; the push is popped again exactly when it would make
   * a fifth distinct note. The entry cleared from the string stays gone.
   */
  lemma ToggleSelects(sel: seq<Selection>, t: Tuning, s: int, f: nat)
    requires FindPosition(sel, s, f) == -1 && |UniqueNotes(sel)| <= 4
    ensures var base := WithoutString(sel, s);
            var n := NoteAt(t, s, f);
            Toggled(sel, t, s, f)
              == if n in UniqueNotes(base) || |UniqueNotes(base)| < 4 then base + [Selection(s, f, n)] else base
  {
    var base := WithoutString(sel, s);
    var x := Selection(s, f, NoteAt(t, s, f));
    UniqueNotesShrink(base, sel);
    UniqueNotesPush(base, x);
    assert (base + [x])[..|base + [x]| - 1] == base;
    if x.note !in UniqueNotes(base) {
      assert |UniqueNotes(base + [x])| == |UniqueNotes(base)| + 1;
    }
  }

  /** A toggle never takes a selection within the four-note cap past it. */
  lemma ToggleKeepsCap(sel: seq<Selection>, t: Tuning, s: int, f: nat)
    requires |UniqueNotes(sel)| <= 4
    ensures |UniqueNotes(Toggled(sel, t, s, f))| <= 4
  {
    if FindPosition(sel, s, f) != -1 {
      ToggleDeselects(sel, t, s, f);
    } else {
      ToggleSelects(sel, t, s, f);
      var base := WithoutString(sel, s);
      UniqueNotesShrink(base, sel);
      UniqueNotesPush(base, Selection(s, f, NoteAt(t, s, f)));
    }
  }

  /**
   * When the cap pops a new position that had displaced another one on its
   * string, the string is left empty: the board loses a position.
   */
  lemma OverflowEmptiesString(sel: seq<Selection>, t: Tuning, s: int, f: nat)
    requires OnePerString(sel) && |UniqueNotes(sel)| <= 4
    requires FindPosition(sel, s, f) == -1 && FindString(sel, s) != -1
    requires NoteAt(t, s, f) !in UniqueNotes(WithoutString(sel, s))
    requires |UniqueNotes(WithoutString(sel, s))| == 4
    ensures |Toggled(sel, t, s, f)| == |sel| - 1
    ensures forall x :: x in Toggled(sel, t, s, f) ==> x.stringIdx != s
  {
    ToggleSelects(sel, t, s, f);
  }

  /** Re-deriving every selected note from a new tuning; positions and order stay. */
  function Retuned(sel: seq<Selection>, t: Tuning): (r: seq<Selection>)
    ensures |r| == |sel|
    ensures forall i :: 0 <= i < |r| ==> r[i].stringIdx == sel[i].stringIdx && r[i].fret == sel[i].fret
    ensures NotesFollowTuning(r, t)
    ensures OnePerString(sel) ==> OnePerString(r)
  {
    seq(|sel|, i requires 0 <= i < |sel| => sel[i].(note := NoteAt(t, sel[i].stringIdx, sel[i].fret)))
  }

  /** Retuning a selection whose notes already follow the tuning changes nothing. */
  lemma RetuneUnchanged(sel: seq<Selection>, t: Tuning)
    requires NotesFollowTuning(sel, t)
    ensures Retuned(sel, t) == sel
  {
    var r := Retuned(sel, t);
    forall i | 0 <= i < |sel| ensures r[i] == sel[i] {
      assert sel[i] in sel;
    }
  }

  /** Only the last tuning counts: retuning twice is retuning once to the second tuning. */
  lemma RetuneTwice(sel: seq<Selection>, t1: Tuning, t2: Tuning)
    ensures Retuned(Retuned(sel, t1), t2) == Retuned(sel, t2)
  {
    var a := Retuned(Retuned(sel, t1), t2);
    var b := Retuned(sel, t2);
    forall i | 0 <= i < |sel| ensures a[i] == b[i] {
    }
  }

  // ---------------------------------------------------------------------
  // Notes in board order
  // ---------------------------------------------------------------------

  /** The board order: by string, low E first, then by fret. */
  predicate PositionLess(a: Selection, b: Selection)
    ensures a.stringIdx < b.stringIdx ==> PositionLess(a, b)
    ensures PositionLess(a, b) ==> a.stringIdx <= b.stringIdx && !At(b, a.stringIdx, a.fret)
  {
    a.stringIdx < b.stringIdx || (a.stringIdx == b.stringIdx && a.fret < b.fret)
  }

  ghost predicate SortedByPosition(s: seq<Selection>) {
    forall i, j :: 0 <= i < j < |s| ==> !PositionLess(s[j], s[i])
  }

  /** The note names of a list of positions, in the same order. */
  function NotesOf(s: seq<Selection>): (r: seq<string>)
    ensures |r| == |s|
    ensures forall i :: 0 <= i < |s| ==> r[i] == s[i].note
  {
    if s == [] then [] else [s[0].note] + NotesOf(s[1..])
  }

  /** Inserts `x` after every entry that does not come after it. */
  function InsertPosition(x: Selection, s: seq<Selection>): (r: seq<Selection>)
    requires SortedByPosition(s)
    ensures SortedByPosition(r)
    ensures multiset(r) == multiset(s) + multiset{x}
  {
    if s == [] || PositionLess(x, s[0]) then [x] + s
    else
      SortedTail(s);
      var rest := InsertPosition(x, s[1..]);
      assert s == [s[0]] + s[1..];
      HeadStaysFirst(x, s, rest);
      [s[0]] + rest
  }

  /** The tail of a sorted list is sorted. */
  lemma SortedTail(s: seq<Selection>)
    requires SortedByPosition(s) && s != []
    ensures SortedByPosition(s[1..])
  {
    forall i, j | 0 <= i < j < |s| - 1 ensures !PositionLess(s[1..][j], s[1..][i]) {
      assert s[1..][j] == s[j + 1] && s[1..][i] == s[i + 1];
    }
  }

  /**
   * When `x` goes after the head of a sorted list, the head stays in
   * front of the tail with `x` inserted.
   */
  lemma HeadStaysFirst(x: Selection, s: seq<Selection>, rest: seq<Selection>)
    requires SortedByPosition(s) && |s| > 0 && !PositionLess(x, s[0])
    requires SortedByPosition(rest) && multiset(rest) == multiset(s[1..]) + multiset{x}
    ensures SortedByPosition([s[0]] + rest)
  {
    forall y | y in rest ensures !PositionLess(y, s[0]) {
      assert y in multiset(rest);
      if y != x {
        assert y in s[1..];
      }
    }
    var r := [s[0]] + rest;
    forall i, j | 0 <= i < j < |r| ensures !PositionLess(r[j], r[i]) {
      assert r[j] == rest[j - 1];
      if i > 0 {
        assert r[i] == rest[i - 1];
      } else {
        assert r[j] in rest;
      }
    }
  }

  /** Inserting a position adds its note to the notes, and takes none away. */
  lemma {:induction false} InsertPositionNotes(x: Selection, s: seq<Selection>)
    requires SortedByPosition(s)
    ensures multiset(NotesOf(InsertPosition(x, s))) == multiset(NotesOf(s)) + multiset{x.note}
  {
    if s == [] || PositionLess(x, s[0]) {
      assert NotesOf([x] + s) == [x.note] + NotesOf(s);
    } else {
      SortedTail(s);
      var rest := InsertPosition(x, s[1..]);
      assert InsertPosition(x, s) == [s[0]] + rest;
      InsertPositionNotes(x, s[1..]);
      assert NotesOf(s) == [s[0].note] + NotesOf(s[1..]);
      assert NotesOf([s[0]] + rest) == [s[0].note] + NotesOf(rest);
      assert multiset(NotesOf([s[0]] + rest)) == multiset{s[0].note} + multiset(NotesOf(rest));
      assert multiset(NotesOf(s)) == multiset{s[0].note} + multiset(NotesOf(s[1..]));
    }
  }

  /** The positions sorted into board order (a stable insertion sort). */
  function SortPositions(s: seq<Selection>): (r: seq<Selection>)
    ensures SortedByPosition(r)
    ensures multiset(r) == multiset(s)
    ensures multiset(NotesOf(r)) == multiset(NotesOf(s))
  {
    if s == [] then []
    else
      var init := s[..|s| - 1];
      assert s == init + [s[|s| - 1]];
      assert NotesOf(s) == NotesOf(init) + [s[|s| - 1].note];
      InsertPositionNotes(s[|s| - 1], SortPositions(init));
      InsertPosition(s[|s| - 1], SortPositions(init))
  }

  /**
   * The notes sent for identification: the selected notes in board order,
   * the same notes with the same multiplicities as the selection holds.
   */
  function SelectedNotes(sel: seq<Selection>): (r: seq<string>)
    ensures |r| == |sel|
    ensures multiset(r) == multiset(NotesOf(sel))
    ensures exists p :: SortedByPosition(p) && multiset(p) == multiset(sel) && r == NotesOf(p)
  {
    var sorted := SortPositions(sel);
    assert |sorted| == |multiset(sorted)| == |multiset(sel)| == |sel|;
    assert SortedByPosition(sorted) && multiset(sorted) == multiset(sel);
    NotesOf(sorted)
  }

  /**
   * The first note sent, the one the identifier takes as the bass, is the
   * note of a selected position that no other selected position precedes.
   */
  lemma SelectedNotesBass(sel: seq<Selection>)
    requires sel != []
    ensures exists x :: x in sel && SelectedNotes(sel)[0] == x.note
                        && forall y :: y in sel ==> !PositionLess(y, x)
  {
    var sorted := SortPositions(sel);
    assert |sorted| == |multiset(sorted)| == |multiset(sel)| == |sel|;
    var x := sorted[0];
    assert SelectedNotes(sel) == NotesOf(sorted);
    assert x in multiset(sel);
    SortedHeadFirst(sorted);
    forall y | y in sel ensures !PositionLess(y, x) {
      assert y in multiset(sorted);
    }
    assert x in sel;
  }

  /** Nothing in a list sorted into board order comes before its head. */
  lemma SortedHeadFirst(s: seq<Selection>)
    requires SortedByPosition(s) && s != []
    ensures forall y :: y in s ==> !PositionLess(y, s[0])
  {
    forall y | y in s ensures !PositionLess(y, s[0]) {
      var j :| 0 <= j < |s| && s[j] == y;
      if j > 0 {
        assert !PositionLess(s[j], s[0]);
      }
    }
  }

  /**
   * The list operations of a toggle, step by step: splice out the position
   * or the string's other entry, push the new position, pop it again past
   * four distinct notes.
   */
  method ToggleBoard(board: seq<Selection>, t: Tuning, s: int, f: nat) returns (r: seq<Selection>)
    requires OnePerString(board) && NotesFollowTuning(board, t)
    ensures r == Toggled(board, t, s, f)
    ensures OnePerString(r) && NotesFollowTuning(r, t)
  {
    ToggleKeepsBoard(board, t, s, f);
    r := board;
    var existing := FindPosition(r, s, f);
    if existing != -1 {
      r := RemoveAt(r, existing);
    } else {
      var conflict := FindString(r, s);
      if conflict != -1 {
        r := RemoveAt(r, conflict);
      }
      r := r + [Selection(s, f, NoteAt(t, s, f))];
    }
    if |UniqueNotes(r)| > 4 {
      r := r[..|r| - 1];
    }
  }

  // ---------------------------------------------------------------------
  // The store
  // ---------------------------------------------------------------------

  class GuitarStore {
    var selected: seq<Selection>
    var currentChord: Option<Identification>
    var tuning: Tuning
    var isScaleEnabled: bool
    var scaleRoot: string
    var scaleType: ScaleType
    var reverseLookupMode: bool
    var targetNotes: seq<string>

    /** The board a toggle starts from: empty when leaving reverse-lookup mode. */
    static function Cleared(lookupMode: bool, sel: seq<Selection>): seq<Selection> {
      if lookupMode then [] else sel
    }

    /** What every action keeps: one position per string, notes as the tuning sounds them. */
    ghost predicate Valid()
      reads this
    {
      OnePerString(selected) && NotesFollowTuning(selected, tuning)
    }

    constructor ()
      ensures Valid()
      ensures selected == [] && currentChord == None && tuning == Standard
      ensures !isScaleEnabled && scaleRoot == "C" && scaleType == Major
      ensures !reverseLookupMode && targetNotes == []
    {
      selected := [];
      currentChord := None;
      tuning := Standard;
      isScaleEnabled := false;
      scaleRoot := "C";
      scaleType := Major;
      reverseLookupMode := false;
      targetNotes := [];
    }

    /**
     * identify: with fewer than three positions the chord is cleared;
     * otherwise the identifier's reply replaces it, and a failed request
     * (`reply` is None) leaves it as it was.
     */
    method Identify(reply: Option<Identification>)
      modifies this`currentChord
      ensures |selected| < 3 ==> currentChord == None
      ensures |selected| >= 3 ==> currentChord == if reply.Some? then reply else old(currentChord)
    {
      if |selected| < 3 {
        currentChord := None;
        return;
      }
      if reply.Some? {
        currentChord := reply;
      }
    }

    /**
     * togglePosition: leaves reverse-lookup mode (starting from an empty
     * board), selects or deselects (s, f) under the one-per-string and
     * four-note rules, then identifies the result. Tuning, scale settings
     * and highlighted notes are left alone.
     */
    method TogglePosition(s: int, f: nat, reply: Option<Identification>)
      requires Valid()
      modifies this`selected, this`reverseLookupMode, this`currentChord
      ensures Valid() && !reverseLookupMode
      ensures selected == Toggled(Cleared(old(reverseLookupMode), old(selected)), tuning, s, f)
      ensures |selected| < 3 ==> currentChord == None
      ensures |selected| >= 3 ==> currentChord == if reply.Some? then reply else old(currentChord)
    {
      LeaveReverseLookup();
      selected := ToggleBoard(selected, tuning, s, f);
      Identify(reply);
    }

    /** The first step of a toggle: leaving reverse-lookup mode empties the board. */
    method LeaveReverseLookup()
      requires Valid()
      modifies this`reverseLookupMode, this`selected
      ensures Valid() && !reverseLookupMode
      ensures selected == Cleared(old(reverseLookupMode), old(selected))
    {
      if reverseLookupMode {
        reverseLookupMode := false;
        selected := [];
      }
    }

    /**
     * reverseLookup: on a successful reply, enters reverse-lookup mode,
     * clears the board and highlights the reply's notes; an error status
     * or a failed request (`reply` is None) changes nothing.
     */
    method ReverseLookup(chordName: string, reply: Option<ChordApi.Response>)
      requires Valid()
      modifies this`reverseLookupMode, this`selected, this`targetNotes
      ensures Valid()
      ensures reply.Some? && reply.value.NotesFound? ==>
        reverseLookupMode && selected == [] && targetNotes == reply.value.notes
      ensures !(reply.Some? && reply.value.NotesFound?) ==>
        reverseLookupMode == old(reverseLookupMode) && selected == old(selected) && targetNotes == old(targetNotes)
      ensures reply == Some(ChordApi.GetChordComposition(chordName)) && ParseChordName(chordName).Some? ==>
        reverseLookupMode && targetNotes == GetChordNotes(chordName) && targetNotes != []
    {
      if reply.None? || reply.value.HttpError? {
        return;
      }
      reverseLookupMode := true;
      selected := [];
      targetNotes := reply.value.notes;
    }

    /** reset: empty board, no chord, out of reverse-lookup mode. */
    method Reset()
      requires Valid()
      modifies this`selected, this`currentChord, this`reverseLookupMode
      ensures Valid()
      ensures selected == [] && currentChord == None && !reverseLookupMode
    {
      selected := [];
      currentChord := None;
      reverseLookupMode := false;
    }

    /**
     * setTuning: switches the tuning and renames every selected note after
     * it, keeping the positions and their order, then identifies again.
     */
    method SetTuning(t: Tuning, reply: Option<Identification>)
      requires Valid()
      modifies this`tuning, this`selected, this`currentChord
      ensures Valid()
      ensures tuning == t && selected == Retuned(old(selected), t)
      ensures |selected| < 3 ==> currentChord == None
      ensures |selected| >= 3 ==> currentChord == if reply.Some? then reply else old(currentChord)
    {
      tuning := t;
      selected := Retuned(selected, t);
      Identify(reply);
    }
  }
}
