/**
 * Chord identification and reverse lookup over the twelve pitch classes
 * (backend/chords.py).
 *
 * Note names map to indices modulo 12; every distinct note of a selection
 * is tried as a root, the interval set of the selection relative to that
 * root is compared exactly against a fixed table of chord interval sets,
 * and the matches are ranked by whether their root is the bass note.
 */
module Chords {
  import opened Wrappers

  /** The chromatic scale, sharps only, starting at C. */
  const Notes: seq<string> := ["C", "C#", "D", "D#", "E", "F", "F#", "G", "G#", "A", "A#", "B"]

  /** Flat spellings accepted on input and the sharp each one stands for. */
  const FlatToSharp: map<string, string> :=
    map["Db" := "C#", "Eb" := "D#", "Gb" := "F#", "Ab" := "G#", "Bb" := "A#"]

  /** A chord type: its name and its intervals in semitones above the root. */
  datatype ChordType = ChordType(name: string, tones: seq<int>)

  /**
   * The chord table, in the order the backend lists it. Each interval set
   * is a frozenset there; the sequences keep the listed order, and every
   * comparison goes through `ToneSet`.
   */
  const ChordDefinitions: seq<ChordType> := [
    ChordType("Major", [0, 4, 7]),
    ChordType("Minor", [0, 3, 7]),
    ChordType("Diminished", [0, 3, 6]),
    ChordType("Augmented", [0, 4, 8]),
    ChordType("Sus2", [0, 2, 7]),
    ChordType("Sus4", [0, 5, 7]),
    ChordType("Major 7th", [0, 4, 7, 11]),
    ChordType("Minor 7th", [0, 3, 7, 10]),
    ChordType("Dominant 7th", [0, 4, 7, 10]),
    ChordType("Diminished 7th", [0, 3, 6, 9]),
    ChordType("Half-Diminished 7th", [0, 3, 6, 10]),
    ChordType("Add9", [0, 4, 7, 2]),
    ChordType("Minor Add9", [0, 3, 7, 2]),
    ChordType("Major 6th", [0, 4, 7, 9]),
    ChordType("Minor 6th", [0, 3, 7, 9])
  ]

  /** The interval set of a chord type. */
  function ToneSet(t: ChordType): set<int> {
    set x | x in t.tones
  }

  /** The shape every entry of the chord table has: root first, distinct intervals within an octave. */
  ghost predicate WellFormedChordType(t: ChordType) {
    && |t.tones| >= 3
    && t.tones[0] == 0
    && (forall k :: 0 <= k < |t.tones| ==> 0 <= t.tones[k] < 12)
    && (forall a, b :: 0 <= a < b < |t.tones| ==> t.tones[a] != t.tones[b])
  }

  lemma ChordTableWellFormed()
    ensures forall t :: t in ChordDefinitions ==> WellFormedChordType(t)
  {
    forall i | 0 <= i < |ChordDefinitions|
      ensures WellFormedChordType(ChordDefinitions[i])
    {
      if i < 6 {
        TriadWellFormed(ChordDefinitions[i]);
      } else {
        TetradWellFormed(ChordDefinitions[i]);
      }
    }
  }

  /** A three-note chord type rooted at 0 with distinct intervals below 12 is well formed. */
  lemma TriadWellFormed(t: ChordType)
    requires |t.tones| == 3 && t.tones[0] == 0
    requires 0 < t.tones[1] < 12 && 0 < t.tones[2] < 12 && t.tones[1] != t.tones[2]
    ensures WellFormedChordType(t)
  {
  }

  /** A four-note chord type rooted at 0 with distinct intervals below 12 is well formed. */
  lemma TetradWellFormed(t: ChordType)
    requires |t.tones| == 4 && t.tones[0] == 0
    requires 0 < t.tones[1] < 12 && 0 < t.tones[2] < 12 && 0 < t.tones[3] < 12
    requires t.tones[1] != t.tones[2] && t.tones[1] != t.tones[3] && t.tones[2] != t.tones[3]
    ensures WellFormedChordType(t)
  {
  }

  /** Chord type names are distinct, so the table reads as a dictionary. */
  lemma ChordNamesDistinct()
    ensures forall a, b :: 0 <= a < b < |ChordDefinitions| ==> ChordDefinitions[a].name != ChordDefinitions[b].name
  {
    forall a, b | 0 <= a < b < |ChordDefinitions|
      ensures ChordDefinitions[a].name != ChordDefinitions[b].name
    {
      var s, u := ChordDefinitions[a].name, ChordDefinitions[b].name;
      assert |s| != |u| || s[1] != u[1] || s[|s| - 1] != u[|u| - 1] || s[6] != u[6];
    }
  }

  /** A well-formed chord type has at least three intervals, among them 0. */
  lemma ToneSetFacts(t: ChordType)
    requires WellFormedChordType(t)
    ensures 0 in ToneSet(t) && |ToneSet(t)| >= 3
    ensures forall x :: x in ToneSet(t) ==> 0 <= x < 12
  {
    assert t.tones[0] in t.tones && t.tones[1] in t.tones && t.tones[2] in t.tones;
    assert t.tones[0] != t.tones[1] && t.tones[0] != t.tones[2] && t.tones[1] != t.tones[2];
    var three := {t.tones[0], t.tones[1], t.tones[2]};
    assert |three| == 3;
    assert three <= ToneSet(t);
    assert ToneSet(t) == three + (ToneSet(t) - three);
  }

  // ---------------------------------------------------------------------
  // Note names
  // ---------------------------------------------------------------------

  /** Position of the first occurrence of `x` in `s`, or -1 (Python's list.index). */
  function IndexOf(s: seq<string>, x: string): (r: int)
    ensures -1 <= r < |s|
    ensures r == -1 <==> x !in s
    ensures 0 <= r ==> s[r] == x && x !in s[..r]
  {
    if x !in s then -1
    else if s[0] == x then 0
    else
      var r := 1 + IndexOf(s[1..], x);
      assert s[..r] == [s[0]] + s[1..][..r - 1];
      r
  }

  /**
   * get_note_index: the position of a sharp name in `Notes`, the position
   * of the corresponding sharp for the five flat names, and -1 otherwise.
   */
  function NoteIndex(note: string): (r: int)
    ensures -1 <= r < 12
    ensures r == -1 <==> note !in Notes && note !in FlatToSharp
    ensures 0 <= r && note in Notes ==> Notes[r] == note
    ensures 0 <= r && note !in Notes ==> Notes[r] == FlatToSharp[note]
  {
    if note in Notes then IndexOf(Notes, note)
    else if note in FlatToSharp then
      assert FlatToSharp[note] in Notes;
      IndexOf(Notes, FlatToSharp[note])
    else -1
  }

  /** The twelve names are distinct. */
  lemma NotesDistinct()
    ensures forall a, b :: 0 <= a < b < |Notes| ==> Notes[a] != Notes[b]
  {
    forall a, b | 0 <= a < b < |Notes|
      ensures Notes[a] != Notes[b]
    {
      assert Notes[a][0] != Notes[b][0] || |Notes[a]| != |Notes[b]|;
    }
  }

  /** Every sharp name maps back to its own position. */
  lemma NoteIndexOfNote(i: int)
    requires 0 <= i < 12
    ensures NoteIndex(Notes[i]) == i
  {
    NotesDistinct();
  }

  // ---------------------------------------------------------------------
  // Interval sets
  // ---------------------------------------------------------------------

  /**
   * get_intervals: the set of `(n - root) mod 12` over the given note
   * indices. Python's `%` with a positive modulus is never negative, like
   * Dafny's.
   */
  function Intervals(root: int, indices: set<int>): (r: set<int>)
    ensures forall x :: x in r ==> 0 <= x < 12
    ensures root in indices ==> 0 in r
  {
    assert root in indices ==> Interval(root, root) in (set i | i in indices :: Interval(root, i));
    set i | i in indices :: Interval(root, i)
  }

  /** The interval from `root` up to pitch class `n`, in 0..11. */
  function Interval(root: int, n: int): (d: int)
    ensures 0 <= d < 12
  {
    (n - root) % 12
  }

  /** The pitch class `x` semitones above `root`. */
  function Transpose(root: int, x: int): (n: int)
    ensures 0 <= n < 12
  {
    (root + x) % 12
  }

  /** Translation modulo 12 is injective on pitch classes. */
  lemma ShiftInjective(root: int, x: int, y: int)
    requires 0 <= x < 12 && 0 <= y < 12
    requires Interval(root, x) == Interval(root, y)
    ensures x == y
  {
    var q := (x - root) / 12;
    var p := (y - root) / 12;
    assert x - root == 12 * q + (x - root) % 12;
    assert y - root == 12 * p + (y - root) % 12;
    assert x - y == 12 * (q - p);
  }

  /** A pitch class outside a set has an interval outside that set's interval set. */
  lemma IntervalNotIn(root: int, x: int, rest: set<int>)
    requires 0 <= x < 12 && x !in rest
    requires forall i :: i in rest ==> 0 <= i < 12
    ensures Interval(root, x) !in Intervals(root, rest)
  {
    if Interval(root, x) in Intervals(root, rest) {
      var y :| y in rest && Interval(root, y) == Interval(root, x);
      ShiftInjective(root, x, y);
    }
  }

  /** Taking a pitch class out of a set takes at most its interval out of the interval set. */
  lemma IntervalsRemove(root: int, x: int, indices: set<int>)
    requires x in indices
    ensures Intervals(root, indices) == Intervals(root, indices - {x}) + {Interval(root, x)}
  {
  }

  /** Some element of a non-empty set. */
  ghost function Pick(s: set<int>): (x: int)
    requires s != {}
    ensures x in s
  {
    if forall y :: y !in s then
      assert false; 0
    else
      var x :| x in s; x
  }

  /** An interval set has as many elements as the pitch-class set it comes from. */
  lemma {:induction false} IntervalsSize(root: int, indices: set<int>)
    requires forall i :: i in indices ==> 0 <= i < 12
    ensures |Intervals(root, indices)| == |indices|
  {
    if indices != {} {
      var x := Pick(indices);
      IntervalsSize(root, indices - {x});
      IntervalNotIn(root, x, indices - {x});
      IntervalsRemove(root, x, indices);
    }
  }

  /** Shifting up by an interval and then measuring from the root gives the interval back. */
  lemma ShiftBack(root: int, x: int)
    requires 0 <= root < 12 && 0 <= x < 12
    ensures Interval(root, Transpose(root, x)) == x
  {
    if root + x >= 12 {
      assert Transpose(root, x) == root + x - 12;
    }
  }

  // ---------------------------------------------------------------------
  // Identification
  // ---------------------------------------------------------------------

  /** One match: a root name, a chord type, the display name and the bass note. */
  datatype Candidate = Candidate(root: string, chord: string, name: string, bass: string)

  /** The outcome of identify_chord. */
  datatype Identification =
    | NotFound(message: string)
    | Found(primary: Candidate, alternatives: seq<Candidate>)

  /** The candidate for root index `i` and chord type `t`. */
  function MakeCandidate(i: int, t: ChordType, bass: string): (c: Candidate)
    requires 0 <= i < 12
    ensures c.root == Notes[i] && c.chord == t.name && c.bass == bass
    ensures c.name == c.root + " " + c.chord
  {
    Candidate(Notes[i], t.name, Notes[i] + " " + t.name, bass)
  }

  /**
   * The distinct note names of a selection: never more than the selection
   * has entries, and holding the bass note of a non-empty one.
   */
  function NoteSet(notes: seq<string>): (r: set<string>)
    ensures notes != [] ==> notes[0] in r
    ensures |r| <= |notes|
  {
    DistinctNoMore(notes);
    set n | n in notes
  }

  /** A list has at least as many entries as distinct entries. */
  lemma {:induction false} DistinctNoMore(notes: seq<string>)
    ensures |set n | n in notes| <= |notes|
  {
    if notes != [] {
      var rest := notes[1..];
      DistinctNoMore(rest);
      assert notes == [notes[0]] + rest;
      assert (set n | n in notes) == (set n | n in rest) + {notes[0]};
    }
  }

  /**
   * The pitch-class indices of the distinct note names: -1 stands for an
   * unknown name, and there are never more indices than distinct names.
   */
  function IndexSet(notes: seq<string>): (r: set<int>)
    ensures forall j :: j in r ==> -1 <= j < 12
    ensures |r| <= |NoteSet(notes)|
  {
    IndexSetNoLarger(NoteSet(notes));
    set n | n in NoteSet(notes) :: NoteIndex(n)
  }

  /** `order` lists every element of `s` exactly once: an iteration order of the set. */
  ghost predicate Enumerates(order: seq<int>, s: set<int>) {
    && (forall i :: i in order <==> i in s)
    && (forall j, k :: 0 <= j < k < |order| ==> order[j] != order[k])
  }

  /** A chord type whose interval set matches, with root `i`, the pitch-class set. */
  ghost predicate Matches(i: int, t: ChordType, indices: set<int>) {
    t in ChordDefinitions && Intervals(i, indices) == ToneSet(t)
  }

  /** The matches for one root, in table order (the inner loop of identify_chord). */
  function RootCandidates(i: int, indices: set<int>, defs: seq<ChordType>, bass: string): (r: seq<Candidate>)
    requires 0 <= i < 12
    ensures forall c :: c in r ==>
      exists t :: t in defs && Intervals(i, indices) == ToneSet(t) && c == MakeCandidate(i, t, bass)
    ensures forall t :: t in defs && Intervals(i, indices) == ToneSet(t) ==> MakeCandidate(i, t, bass) in r
  {
    if defs == [] then []
    else
      var head := if Intervals(i, indices) == ToneSet(defs[0]) then [MakeCandidate(i, defs[0], bass)] else [];
      var rest := RootCandidates(i, indices, defs[1..], bass);
      assert forall t :: t in defs[1..] ==> t in defs;
      assert forall t :: t in defs ==> t == defs[0] || t in defs[1..];
      head + rest
  }

  /** All matches, roots in the given order, chord types in table order. */
  function CandidatesFor(order: seq<int>, indices: set<int>, bass: string): (r: seq<Candidate>)
    requires forall i :: i in order ==> 0 <= i < 12
    ensures forall c :: c in r ==>
      exists i, t :: i in order && Matches(i, t, indices) && c == MakeCandidate(i, t, bass)
    ensures forall i, t :: i in order && Matches(i, t, indices) ==> MakeCandidate(i, t, bass) in r
  {
    if order == [] then []
    else
      assert order[0] in order;
      assert forall i :: i in order[1..] ==> i in order;
      var head := RootCandidates(order[0], indices, ChordDefinitions, bass);
      var rest := CandidatesFor(order[1..], indices, bass);
      assert forall i :: i in order ==> i == order[0] || i in order[1..];
      head + rest
  }

  /** The candidates whose root is the bass note, in order. */
  function RootPosition(cands: seq<Candidate>, lowest: string): (r: seq<Candidate>)
    ensures forall c :: c in r <==> c in cands && c.root == lowest
  {
    if cands == [] then []
    else
      assert forall c :: c in cands <==> c == cands[0] || c in cands[1..];
      (if cands[0].root == lowest then [cands[0]] else []) + RootPosition(cands[1..], lowest)
  }

  /** The candidates whose root is not the bass note, in order. */
  function Inversions(cands: seq<Candidate>, lowest: string): (r: seq<Candidate>)
    ensures forall c :: c in r <==> c in cands && c.root != lowest
  {
    if cands == [] then []
    else
      assert forall c :: c in cands <==> c == cands[0] || c in cands[1..];
      (if cands[0].root != lowest then [cands[0]] else []) + Inversions(cands[1..], lowest)
  }

  /** Splitting by root position neither loses nor duplicates a candidate. */
  lemma {:induction false} SplitIsPermutation(cands: seq<Candidate>, lowest: string)
    ensures multiset(RootPosition(cands, lowest)) + multiset(Inversions(cands, lowest)) == multiset(cands)
  {
    if cands != [] {
      SplitIsPermutation(cands[1..], lowest);
      assert cands == [cands[0]] + cands[1..];
    }
  }

  /** The first root-position candidate is the earliest candidate whose root is the bass note. */
  lemma {:induction false} RootPositionFirst(cands: seq<Candidate>, lowest: string)
    requires exists c :: c in cands && c.root == lowest
    ensures RootPosition(cands, lowest) != []
    ensures exists k :: (0 <= k < |cands| && cands[k] == RootPosition(cands, lowest)[0]
      && cands[k].root == lowest && forall j :: 0 <= j < k ==> cands[j].root != lowest)
  {
    if cands[0].root != lowest {
      var c :| c in cands && c.root == lowest;
      assert c in cands[1..];
      RootPositionFirst(cands[1..], lowest);
      var k :| 0 <= k < |cands[1..]| && cands[1..][k] == RootPosition(cands[1..], lowest)[0]
        && cands[1..][k].root == lowest && forall j :: 0 <= j < k ==> cands[1..][j].root != lowest;
      assert cands[k + 1] == RootPosition(cands, lowest)[0];
      forall j | 0 <= j < k + 1
        ensures cands[j].root != lowest
      {
        if j > 0 { assert cands[j] == cands[1..][j - 1]; }
      }
    }
  }

  /** No candidate is in root position exactly when the root-position list is empty. */
  lemma {:induction false} RootPositionEmpty(cands: seq<Candidate>, lowest: string)
    ensures RootPosition(cands, lowest) == [] <==> forall c :: c in cands ==> c.root != lowest
  {
    if cands != [] {
      RootPositionEmpty(cands[1..], lowest);
      assert forall c :: c in cands ==> c == cands[0] || c in cands[1..];
    }
  }

  /**
   * The ranking step of identify_chord: the first root-position candidate
   * is primary and the rest follow the other root-position candidates;
   * with none, the first candidate becomes a slash chord over the bass.
   */
  function Rank(cands: seq<Candidate>, lowest: string): (r: Identification)
    requires cands != []
    ensures r.Found?
    ensures (exists c :: c in cands && c.root == lowest) ==>
      exists k :: 0 <= k < |cands| && r.primary == cands[k] && cands[k].root == lowest
        && forall j :: 0 <= j < k ==> cands[j].root != lowest
    ensures (forall c :: c in cands ==> c.root != lowest) ==>
      && r.primary == cands[0].(name := cands[0].name + "/" + lowest)
      && r.alternatives == cands[1..]
    ensures multiset([RankedBase(cands, lowest)] + r.alternatives) == multiset(cands)
    ensures r.primary.root == RankedBase(cands, lowest).root
    ensures r.primary.chord == RankedBase(cands, lowest).chord
  {
    var roots := RootPosition(cands, lowest);
    if roots != [] then
      RankRootsCase(cands, lowest);
      Found(roots[0], roots[1..] + Inversions(cands, lowest))
    else
      RankSlashCase(cands, lowest);
      Found(cands[0].(name := cands[0].name + "/" + lowest), cands[1..])
  }

  /** With a root-position candidate, promoting the first one keeps every candidate. */
  lemma RankRootsCase(cands: seq<Candidate>, lowest: string)
    requires RootPosition(cands, lowest) != []
    ensures exists c :: c in cands && c.root == lowest
    ensures exists k :: (0 <= k < |cands| && RootPosition(cands, lowest)[0] == cands[k]
      && cands[k].root == lowest && forall j :: 0 <= j < k ==> cands[j].root != lowest)
    ensures multiset([RootPosition(cands, lowest)[0]] + (RootPosition(cands, lowest)[1..] + Inversions(cands, lowest)))
      == multiset(cands)
  {
    var roots := RootPosition(cands, lowest);
    assert roots[0] in roots;
    RootPositionFirst(cands, lowest);
    SplitIsPermutation(cands, lowest);
    RootsFirstPermutation(roots, Inversions(cands, lowest));
  }

  /** With no root-position candidate, taking the first candidate keeps every candidate. */
  lemma RankSlashCase(cands: seq<Candidate>, lowest: string)
    requires cands != [] && RootPosition(cands, lowest) == []
    ensures forall c :: c in cands ==> c.root != lowest
    ensures multiset([cands[0]] + cands[1..]) == multiset(cands)
  {
    assert cands == [cands[0]] + cands[1..];
  }

  /** The candidate `Rank` promotes, before any slash is appended to its name. */
  function RankedBase(cands: seq<Candidate>, lowest: string): Candidate
    requires cands != []
  {
    var roots := RootPosition(cands, lowest);
    if roots != [] then roots[0] else cands[0]
  }

  /** Taking off the head of the first list and appending the second loses nothing. */
  lemma RootsFirstPermutation(roots: seq<Candidate>, others: seq<Candidate>)
    requires roots != []
    ensures multiset([roots[0]] + (roots[1..] + others)) == multiset(roots) + multiset(others)
  {
    assert [roots[0]] + (roots[1..] + others) == roots + others;
  }

  /**
   * identify_chord. `order` is the iteration order of the pitch-class set,
   * which Python leaves unspecified; every order is allowed.
   */
  function IdentifyChord(notes: seq<string>, order: seq<int>): (r: Identification)
    requires Enumerates(order, IndexSet(notes))
    ensures |NoteSet(notes)| < 3 ==> r == NotFound("Select at least 3 unique notes.")
    ensures |NoteSet(notes)| >= 3 && -1 in IndexSet(notes) ==> r == NotFound("Invalid notes provided.")
    ensures |NoteSet(notes)| >= 3 && -1 !in IndexSet(notes) && r.NotFound? ==>
      r.message == "No specific chord found for these notes."
  {
    if |NoteSet(notes)| < 3 then NotFound("Select at least 3 unique notes.")
    else
      var indices := IndexSet(notes);
      if -1 in indices then NotFound("Invalid notes provided.")
      else
        // the bass field is `notes[0] if notes else ""`; notes is non-empty here
        assert notes[0] in NoteSet(notes);
        var cands := CandidatesFor(order, indices, notes[0]);
        if cands == [] then NotFound("No specific chord found for these notes.")
        else Rank(cands, notes[0])
  }

  /** With no unknown name, every root tried is a pitch class. */
  lemma OrderInRange(notes: seq<string>, order: seq<int>)
    requires Enumerates(order, IndexSet(notes))
    requires -1 !in IndexSet(notes)
    ensures forall i :: i in order ==> 0 <= i < 12
  {
    forall i | i in order
      ensures 0 <= i < 12
    {
      assert i in IndexSet(notes);
      var n :| n in NoteSet(notes) && i == NoteIndex(n);
    }
  }

  /** A successful identification is the ranking of the candidate list. */
  lemma IdentifyRanks(notes: seq<string>, order: seq<int>)
    requires Enumerates(order, IndexSet(notes))
    requires IdentifyChord(notes, order).Found?
    ensures |notes| > 0 && -1 !in IndexSet(notes)
    ensures forall i :: i in order ==> 0 <= i < 12
    ensures CandidatesFor(order, IndexSet(notes), notes[0]) != []
    ensures IdentifyChord(notes, order) == Rank(CandidatesFor(order, IndexSet(notes), notes[0]), notes[0])
  {
    assert |NoteSet(notes)| >= 3;
    OrderInRange(notes, order);
  }

  /**
   * A chord is found exactly when there are at least three distinct names,
   * all known, and some pitch class of the selection, taken as the root,
   * gives an interval set that is in the chord table.
   */
  lemma IdentifyFoundIff(notes: seq<string>, order: seq<int>)
    requires Enumerates(order, IndexSet(notes))
    ensures IdentifyChord(notes, order).Found? <==>
      && |NoteSet(notes)| >= 3
      && -1 !in IndexSet(notes)
      && exists i, t :: i in IndexSet(notes) && Matches(i, t, IndexSet(notes))
  {
    var indices := IndexSet(notes);
    if |NoteSet(notes)| >= 3 && -1 !in indices {
      assert notes[0] in NoteSet(notes);
      OrderInRange(notes, order);
      var cands := CandidatesFor(order, indices, notes[0]);
      if cands != [] {
        assert cands[0] in cands;
        var i, t :| i in order && Matches(i, t, indices) && cands[0] == MakeCandidate(i, t, notes[0]);
        assert i in indices;
      }
      if exists i, t :: i in indices && Matches(i, t, indices) {
        var i, t :| i in indices && Matches(i, t, indices);
        assert i in order;
        assert MakeCandidate(i, t, notes[0]) in cands;
      }
    }
  }

  /**
   * Every chord reported, primary or alternative, has a root among the
   * selected pitch classes whose interval set is exactly a table entry,
   * and is named after that root and that entry.
   */
  lemma IdentifySound(notes: seq<string>, order: seq<int>)
    requires Enumerates(order, IndexSet(notes))
    requires IdentifyChord(notes, order).Found?
    ensures var r := IdentifyChord(notes, order);
      forall c :: c in [r.primary] + r.alternatives ==>
        exists i, t :: (i in IndexSet(notes) && Matches(i, t, IndexSet(notes))
          && c.root == Notes[i] && c.chord == t.name)
  {
    IdentifyRanks(notes, order);
    var indices := IndexSet(notes);
    var cands := CandidatesFor(order, indices, notes[0]);
    var r := IdentifyChord(notes, order);
    var base := RankedBase(cands, notes[0]);
    assert base in cands by {
      assert base in multiset([base] + r.alternatives);
    }
    forall c | c in [r.primary] + r.alternatives
      ensures exists i, t :: (i in indices && Matches(i, t, indices)
        && c.root == Notes[i] && c.chord == t.name)
    {
      var d := if c in r.alternatives then c else base;
      assert d in multiset([base] + r.alternatives);
      assert d in cands;
      var i, t :| i in order && Matches(i, t, indices) && d == MakeCandidate(i, t, notes[0]);
      assert i in indices;
    }
  }

  /**
   * Conversely, every root among the selected pitch classes whose interval
   * set is a table entry is reported, as primary or as an alternative.
   */
  lemma IdentifyComplete(notes: seq<string>, order: seq<int>, i: int, t: ChordType)
    requires Enumerates(order, IndexSet(notes))
    requires IdentifyChord(notes, order).Found?
    requires i in IndexSet(notes) && Matches(i, t, IndexSet(notes))
    ensures var r := IdentifyChord(notes, order);
      exists c :: c in [r.primary] + r.alternatives && c.root == Notes[i] && c.chord == t.name
  {
    IdentifyRanks(notes, order);
    var indices := IndexSet(notes);
    var cands := CandidatesFor(order, indices, notes[0]);
    var r := IdentifyChord(notes, order);
    assert i in order;
    var c := MakeCandidate(i, t, notes[0]);
    assert c in cands;
    var base := RankedBase(cands, notes[0]);
    assert c in multiset([base] + r.alternatives);
    if c == base {
      assert r.primary in [r.primary] + r.alternatives;
    } else {
      assert c in r.alternatives;
    }
  }

  // ---------------------------------------------------------------------
  // Reverse lookup
  // ---------------------------------------------------------------------

  /** Python's `s.split(" ", 1)`: the text before and after the first space. */
  function SplitOnce(s: string): (r: Option<(string, string)>)
    ensures r.None? <==> ' ' !in s
    ensures r.Some? ==> s == r.value.0 + " " + r.value.1 && ' ' !in r.value.0
  {
    if s == [] then None
    else if s[0] == ' ' then Some(([], s[1..]))
    else
      match SplitOnce(s[1..])
      case None => None
      case Some(parts) => Some(([s[0]] + parts.0, parts.1))
  }

  /** The first space of `a + " " + b` is the one after `a` when `a` has none. */
  lemma {:induction false} SplitOnceJoin(a: string, b: string)
    requires ' ' !in a
    ensures SplitOnce(a + " " + b) == Some((a, b))
  {
    if a != [] {
      assert a[0] in a;
      SplitOnceJoin(a[1..], b);
      assert (a + " " + b)[1..] == a[1..] + " " + b;
      assert [a[0]] + a[1..] == a;
    } else {
      assert a + " " + b == [' '] + b;
    }
  }

  /** The table entry with the given name (a dictionary lookup). */
  function ChordTypeNamed(defs: seq<ChordType>, name: string): (r: Option<ChordType>)
    ensures r.Some? <==> exists t :: t in defs && t.name == name
    ensures r.Some? ==> r.value in defs && r.value.name == name
  {
    if defs == [] then None
    else if defs[0].name == name then Some(defs[0])
    else
      var r := ChordTypeNamed(defs[1..], name);
      assert forall t :: t in defs ==> t == defs[0] || t in defs[1..];
      r
  }

  /** Names in the chord table are distinct, so a name finds its own entry. */
  lemma ChordTypeNamedEntry(j: int)
    requires 0 <= j < |ChordDefinitions|
    ensures ChordTypeNamed(ChordDefinitions, ChordDefinitions[j].name) == Some(ChordDefinitions[j])
  {
    var r := ChordTypeNamed(ChordDefinitions, ChordDefinitions[j].name);
    ChordNamesDistinct();
    var a :| 0 <= a < |ChordDefinitions| && ChordDefinitions[a] == r.value;
    assert a == j;
  }

  /** A chord name "Root Type" read as a root index and a chord type, if both are known. */
  function ParseChordName(chordName: string): (r: Option<(int, ChordType)>)
    ensures r.None? <==>
      || SplitOnce(chordName).None?
      || NoteIndex(SplitOnce(chordName).value.0) == -1
      || ChordTypeNamed(ChordDefinitions, SplitOnce(chordName).value.1).None?
    ensures r.Some? ==>
      && r.value.0 == NoteIndex(SplitOnce(chordName).value.0)
      && r.value.1.name == SplitOnce(chordName).value.1
    ensures r.Some? ==> 0 <= r.value.0 < 12 && r.value.1 in ChordDefinitions
  {
    match SplitOnce(chordName)
    case None => None
    case Some(parts) =>
      var i := NoteIndex(parts.0);
      var t := ChordTypeNamed(ChordDefinitions, parts.1);
      if i == -1 || t.None? then None else Some((i, t.value))
  }

  /** Putting a name in front adds exactly that name to the distinct names. */
  lemma NoteSetCons(n: string, rest: seq<string>)
    ensures NoteSet([n] + rest) == {n} + NoteSet(rest)
  {
    assert forall m :: m in [n] + rest <==> m == n || m in rest;
  }

  /** The names above a root of a non-empty interval list: the first one's, and the rest's. */
  lemma NamesAboveCons(i: int, tones: seq<int>)
    requires tones != []
    ensures (set x | x in tones :: NoteAbove(i, x))
      == {NoteAbove(i, tones[0])} + (set x | x in tones[1..] :: NoteAbove(i, x))
  {
    assert tones == [tones[0]] + tones[1..];
  }

  /** The note name `x` semitones above root index `i`. */
  function NoteAbove(i: int, x: int): string
  {
    Notes[Transpose(i, x)]
  }

  /** One note name per interval, in the order the intervals are listed. */
  function TransposeTones(i: int, tones: seq<int>): (r: seq<string>)
    ensures |r| == |tones|
    ensures NoteSet(r) == set x | x in tones :: NoteAbove(i, x)
  {
    if tones == [] then []
    else
      var rest := TransposeTones(i, tones[1..]);
      var r := [NoteAbove(i, tones[0])] + rest;
      NoteSetCons(NoteAbove(i, tones[0]), rest);
      NamesAboveCons(i, tones);
      r
  }

  /**
   * get_chord_notes: the empty list when the name has no space, its root
   * is unknown or its type is not in the table; otherwise one note per
   * interval of the chord type, transposed to the root.
   */
  function GetChordNotes(chordName: string): (r: seq<string>)
    ensures r == [] <==> ParseChordName(chordName).None?
    ensures ParseChordName(chordName).Some? ==>
      var (i, t) := ParseChordName(chordName).value;
      |r| == |t.tones| && NoteSet(r) == set x | x in t.tones :: NoteAbove(i, x)
  {
    match ParseChordName(chordName)
    case None => []
    case Some(p) =>
      ChordTableWellFormed();
      assert WellFormedChordType(p.1);
      TransposeTones(p.0, p.1.tones)
  }

  /** The note-name set of a transposed chord indexes back to the transposed pitch classes. */
  lemma TransposedIndexSet(notes: seq<string>, i: int, t: ChordType)
    requires NoteSet(notes) == set x | x in t.tones :: NoteAbove(i, x)
    ensures IndexSet(notes) == set x | x in t.tones :: Transpose(i, x)
  {
    forall j | j in IndexSet(notes)
      ensures j in set x | x in t.tones :: Transpose(i, x)
    {
      var n :| n in NoteSet(notes) && j == NoteIndex(n);
      var x :| x in t.tones && n == NoteAbove(i, x);
      NoteIndexOfNote(Transpose(i, x));
    }
    forall j | j in set x | x in t.tones :: Transpose(i, x)
      ensures j in IndexSet(notes)
    {
      var x :| x in t.tones && j == Transpose(i, x);
      assert NoteAbove(i, x) in NoteSet(notes);
      NoteIndexOfNote(j);
    }
  }

  /** Measuring a transposed chord from its root gives back the chord's interval set. */
  lemma TransposedIntervals(i: int, t: ChordType, indices: set<int>)
    requires 0 <= i < 12 && WellFormedChordType(t)
    requires indices == set x | x in t.tones :: Transpose(i, x)
    ensures i in indices
    ensures forall j :: j in indices ==> 0 <= j < 12
    ensures Intervals(i, indices) == ToneSet(t)
  {
    assert t.tones[0] == 0 && Transpose(i, 0) == i;
    forall y | y in Intervals(i, indices)
      ensures y in ToneSet(t)
    {
      var j :| j in indices && y == Interval(i, j);
      var x :| x in t.tones && j == Transpose(i, x);
      ShiftBack(i, x);
    }
    forall x | x in ToneSet(t)
      ensures x in Intervals(i, indices)
    {
      ShiftBack(i, x);
      assert Transpose(i, x) in indices;
    }
  }

  /** The distinct names of a selection are at least as many as its pitch classes. */
  lemma {:induction false} IndexSetNoLarger(names: set<string>)
    ensures |set n | n in names :: NoteIndex(n)| <= |names|
  {
    if names != {} {
      var n :| n in names;
      var rest := names - {n};
      IndexSetNoLarger(rest);
      assert (set m | m in names :: NoteIndex(m)) == (set m | m in rest :: NoteIndex(m)) + {NoteIndex(n)};
    }
  }

  /**
   * Reverse lookup round trip: the notes of a resolvable chord name, in
   * any order and with any repetition, identify as a chord with the same
   * root and the same chord type.
   */
  lemma ReverseLookupRoundTrip(chordName: string, notes: seq<string>, order: seq<int>)
    requires ParseChordName(chordName).Some?
    requires NoteSet(notes) == NoteSet(GetChordNotes(chordName))
    requires Enumerates(order, IndexSet(notes))
    ensures var r := IdentifyChord(notes, order);
      && r.Found?
      && exists c :: (c in [r.primary] + r.alternatives
        && c.root == Notes[ParseChordName(chordName).value.0]
        && c.chord == ParseChordName(chordName).value.1.name)
  {
    var p := ParseChordName(chordName).value;
    var i, t := p.0, p.1;
    ChordTableWellFormed();
    assert WellFormedChordType(t);
    var indices := IndexSet(notes);
    TransposedIndexSet(notes, i, t);
    TransposedIntervals(i, t, indices);
    assert Matches(i, t, indices);
    // at least three distinct names, none of them unknown
    IntervalsSize(i, indices);
    ToneSetFacts(t);
    IndexSetNoLarger(NoteSet(notes));
    assert -1 !in indices;
    IdentifyFoundIff(notes, order);
    IdentifyComplete(notes, order, i, t);
  }
}
