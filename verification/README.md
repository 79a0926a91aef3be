# Chord Coordinator core, modelled in Dafny

Chord Coordinator is a guitar tool. The backend identifies chords from the notes
picked on a fretboard and looks up the notes of a named chord. The frontend
keeps the fretboard selection, a notebook of favourite shapes, a metronome
and a tone generator. This project models the logic of those parts and
proves properties of the model:

- `chords.dfy` (module `Chords`, from `backend/chords.py`) holds the note and
  chord tables. It models note indexing with flat spellings,
  interval sets modulo 12, chord identification and reverse lookup.
  - Identification tries every distinct note as a root.
  - It compares interval sets exactly against the fifteen chord types.
  - It ranks root-position matches first, and otherwise gives a slash-chord
    name.

  Python's set iteration order is not specified. It is a parameter `order`,
  constrained only to enumerate the pitch-class set, and every property
  holds for every such order.
- `chord_api.dfy` (module `ChordApi`, from `backend/main.py`) models the
  catalogue of 180 picker names and the reverse-lookup endpoint with its 404
  mapping. The `/api/identify` endpoint returns `identify_chord` unchanged,
  so `Chords.IdentifyChord` stands for it.
- `fretboard.dfy` (module `Fretboard`, from `frontend/src/stores/guitar.ts`)
  holds the tunings and scale tables, note names per fret, string labels,
  scale notes and the notes sent for identification. The store is a class
  `GuitarStore` whose methods update its fields as the Pinia store does.
  Its toggle keeps one position per string and a cap of four distinct notes.
  The server's replies are parameters of the methods that await them.
- `notebook.dfy` (module `Notebook`, from `frontend/src/stores/notebook.ts`)
  models the favourites list as a class `NotebookStore`. A favourite is
  compared through its textual key:
  - each position is written `"string-fret"`;
  - the keys are sorted and joined with a bar character.

  The proofs show that this text identifies exactly the multiset of
  string/fret pairs.
- `metronome.dfy` (module `Metronome`, from
  `frontend/src/composables/useMetronome.ts`) models the look-ahead
  scheduler as a class `Metronome`.
  - Clicks are handed to the audio clock up to 0.1 s ahead.
  - Every fourth beat is accented.
  - Each click arms a visual callback.
  - The audio clock's current time is a parameter.

  The callback writes the click's beat into the same counter the scheduler
  numbers from. That behaviour is modelled as written, and
  `SecondClickAt120` shows its consequence at 120 bpm: once the first
  click's callback has fired, the second click is numbered 0 again and
  accented, like the first.
- `tone_generator.dfy` (module `ToneGenerator`, from
  `frontend/src/composables/useToneGenerator.ts`) models the class
  `ToneGenerator`. It covers:
  - reference tones toggled by frequency;
  - timed tones whose end callback forgets their frequency;
  - strums that start one string every 50 ms.

  Oscillators are numbered tokens. `stopped` records the ones stopped
  outright, and `pendingEnds` records the end callbacks still to run.
- `wrappers.dfy` (module `Wrappers`) holds the `Option` type.

## Model

| member | source | states |
|---|---|---|
| Chords.ChordTableWellFormed | backend/chords.py:26-42 | every chord type in the table has root interval 0 and at least three distinct intervals, all within one octave |
| Chords.ChordNamesDistinct | backend/chords.py:26-42 | the fifteen chord type names are pairwise distinct, so the table reads as a dictionary |
| Chords.ToneSetFacts | backend/chords.py:26-42 | a well-formed chord type's interval set contains 0, has at least three members, all in 0..11 |
| Chords.IndexOf | backend/chords.py:46 | `list.index`: the first position holding the name, or -1 exactly when the name is absent |
| Chords.NoteIndex | backend/chords.py:44-52 | -1 exactly for a name that is neither a sharp name nor one of the five flats; otherwise the position of the name, or of the sharp a flat stands for |
| Chords.NotesDistinct | backend/chords.py:4 | the twelve note names are pairwise distinct |
| Chords.NoteIndexOfNote | backend/chords.py:44-46 | the index of the i-th note name is i |
| Chords.Intervals | backend/chords.py:54-59 | every interval lies in 0..11, and the root itself gives interval 0 |
| Chords.Interval | backend/chords.py:57 | Python's `%` on a negative difference still gives an interval in 0..11 |
| Chords.Transpose | backend/chords.py:160 | a transposed note index lies in 0..11 |
| Chords.ShiftInjective | backend/chords.py:57 | two pitch classes at the same interval from one root are the same pitch class |
| Chords.IntervalNotIn | backend/chords.py:54-59 | a pitch class outside a set has an interval outside the set's intervals |
| Chords.IntervalsRemove | backend/chords.py:54-59 | the interval set splits into the intervals of the other indices plus the one removed |
| Chords.IntervalsSize | backend/chords.py:54-59 | the interval set has exactly as many members as the pitch-class set |
| Chords.ShiftBack | backend/chords.py:57 | transposing by x and measuring the interval from the same root gives back x |
| Chords.MakeCandidate | backend/chords.py:88-94 | a candidate carries the root name, the chord type name, the name "root type" and the bass note |
| Chords.RootCandidates | backend/chords.py:80-94 | for one root, the candidates are exactly the table entries whose interval set equals the selection's intervals from that root |
| Chords.CandidatesFor | backend/chords.py:77-94 | over all roots, a candidate is produced exactly for each matching (root, chord type) |
| Chords.RootPosition | backend/chords.py:118 | keeps exactly the candidates whose root is the bass note |
| Chords.Inversions | backend/chords.py:119 | keeps exactly the candidates whose root is not the bass note |
| Chords.SplitIsPermutation | backend/chords.py:118-119 | splitting the candidates by whether the root is the bass loses and duplicates none |
| Chords.RootPositionFirst | backend/chords.py:117-122 | when some candidate's root is the bass, the first root-position match is the first such candidate in order |
| Chords.RootPositionEmpty | backend/chords.py:117-121 | there is no root-position match exactly when no candidate's root is the bass |
| Chords.Rank | backend/chords.py:114-136 | a non-empty candidate list always gives a found chord; the primary is the first candidate rooted on the bass; with none, it is the first candidate renamed "name/bass" and the rest are the alternatives in order; the primary (before the rename) and the alternatives are exactly the candidates, as a multiset |
| Chords.RootsFirstPermutation | backend/chords.py:122-124 | the primary followed by the other root matches and then the inversions is a reordering of both lists |
| Chords.NoteSet | backend/chords.py:66 | the distinct names are no more than the notes given, and include the bass note |
| Chords.IndexSet | backend/chords.py:70 | every index is a pitch class or -1, and there are no more indices than distinct names |
| Chords.IdentifyChord | backend/chords.py:61-136 | fewer than three distinct notes gives "Select at least 3 unique notes."; an unknown note gives "Invalid notes provided."; any other failure is "No specific chord found for these notes." |
| Chords.OrderInRange | backend/chords.py:70-77 | once every note is known, every root tried is a pitch class |
| Chords.IdentifyRanks | backend/chords.py:96-136 | a found result is the ranking of the candidate list, with the first note sent as the bass |
| Chords.IdentifyFoundIff | backend/chords.py:61-97 | a chord is found exactly when there are three or more distinct, known notes and some note of the selection, as root, matches some table entry |
| Chords.IdentifySound | backend/chords.py:74-136 | every reported chord (primary and alternatives) is rooted on a selected note and matches the selection's interval set |
| Chords.IdentifyComplete | backend/chords.py:74-136 | every matching (root, chord type) is reported, as primary or alternative |
| Chords.SplitOnce | backend/chords.py:142-147 | `split(" ", 1)`: no split exactly when there is no space; otherwise the text is head + " " + tail with no space in the head |
| Chords.SplitOnceJoin | backend/chords.py:142 | splitting "a b" with a space-free `a` gives back `a` and `b` |
| Chords.ChordTypeNamed | backend/chords.py:154-157 | the dictionary lookup succeeds exactly for a table name and returns that entry |
| Chords.ChordTypeNamedEntry | backend/chords.py:154-157 | looking up the name of table entry j returns entry j |
| Chords.ParseChordName | backend/chords.py:142-155 | parsing fails exactly when the name has no space, its root is not a known note or its type is not in the table; otherwise it yields the root's pitch class and the table entry named by the rest |
| Chords.TransposeTones | backend/chords.py:157-163 | one note per interval, naming exactly the transposed intervals (the list order is not promised) |
| Chords.GetChordNotes | backend/chords.py:138-163 | the empty list exactly when the name does not parse; otherwise one note per interval of the chord type, naming the intervals transposed to the root (the list order is not promised) |
| Chords.TransposedIndexSet | backend/chords.py:157-161 | the note indices of a chord's note names are the transposed intervals |
| Chords.TransposedIntervals | backend/chords.py:54-59 | measured from the root, the transposed intervals give back the chord type's interval set, and the root is among them |
| Chords.IndexSetNoLarger | backend/chords.py:66-70 | there are never more distinct note indices than distinct note names |
| Chords.ReverseLookupRoundTrip | backend/chords.py:61-163 | identifying the notes that reverse lookup gives for a chord name finds a chord, and that named chord is among the results |
| ChordApi.AvailableChords | backend/main.py:46-53 | the catalogue holds 180 names; slot 15·i+j is "root type" for root i in chromatic order and entry j in table order; every name resolves to notes |
| ChordApi.CatalogueResolves | backend/main.py:46-53 | a list laid out like the catalogue holds only names that reverse lookup resolves |
| ChordApi.PickerName | backend/main.py:52 | a picker name "root type" parses back to its own root and chord type |
| ChordApi.PickerNameResolves | backend/main.py:52 | a picker name resolves to one note per interval of its chord type |
| ChordApi.GetChordComposition | backend/main.py:55-60 | a 404 "Chord not found" exactly when the name does not parse; otherwise the chord's non-empty note list |
| ChordApi.PickerNamesNeverNotFound | backend/main.py:46-60 | the endpoint never answers 404 for a name the catalogue offers |
| Fretboard.ScaleIntervals | frontend/src/stores/guitar.ts:41-47 | each scale starts at 0, has at least five steps, and rises strictly within one octave |
| Fretboard.BaseMidi | frontend/src/stores/guitar.ts:113 | a string the tuning lists has its own base; any other string gets 40, low E |
| Fretboard.NoteAt | frontend/src/stores/guitar.ts:113-116 | the note at a fret is one of the twelve chromatic names (MIDI 40 is the base of a string the tuning lacks) |
| Fretboard.NoteAtOctave | frontend/src/stores/guitar.ts:115 | twelve frets up sounds the same note name |
| Fretboard.StringsLabels | frontend/src/stores/guitar.ts:70-72 | one label per string, naming the open string's note |
| Fretboard.ScaleNotes | frontend/src/stores/guitar.ts:63-68 | empty when the scale is off; otherwise one distinct note per scale step, starting at the root |
| Fretboard.ScaleAbove | frontend/src/stores/guitar.ts:65-67 | the scale steps above a root name distinct notes, starting at the root |
| Fretboard.ScaleStepsDistinct | frontend/src/stores/guitar.ts:67 | different steps within an octave give different note names |
| Fretboard.FindPosition | frontend/src/stores/guitar.ts:94-96 | the first entry at (string, fret), or -1 exactly when there is none |
| Fretboard.FindString | frontend/src/stores/guitar.ts:106 | the first entry on the string, or -1 exactly when there is none |
| Fretboard.RemoveAt | frontend/src/stores/guitar.ts:98-108 | `splice(k, 1)` removes exactly entry k and keeps the others in order |
| Fretboard.WithoutString | frontend/src/stores/guitar.ts:106-109 | only existing entries remain, and with one entry per string none remains on that string |
| Fretboard.Placed | frontend/src/stores/guitar.ts:94-123 | the select-or-deselect step changes the board by at most one entry either way |
| Fretboard.PlacedFlips | frontend/src/stores/guitar.ts:94-123 | on a board with one position per string, the select-or-deselect step flips whether the clicked position is selected, in both directions |
| Fretboard.Toggled | frontend/src/stores/guitar.ts:94-135 | a toggle adds at most one entry and removes at most two (a deselect above the cap also pops) |
| Fretboard.ToggleUnselects | frontend/src/stores/guitar.ts:94-135 | on a board with one position per string, clicking a selected position leaves it unselected, even when the cap pops |
| Fretboard.ToggleEntries | frontend/src/stores/guitar.ts:86-135 | a toggle only keeps existing entries or adds the clicked position |
| Fretboard.ToggleKeepsOnePerString | frontend/src/stores/guitar.ts:103-135 | a toggle keeps at most one position per string |
| Fretboard.PlacedKeepsOnePerString | frontend/src/stores/guitar.ts:94-123 | the select-or-deselect step keeps at most one position per string |
| Fretboard.PushKeepsOnePerString | frontend/src/stores/guitar.ts:118-122 | pushing onto a cleared string keeps one position per string |
| Fretboard.RemoveKeepsOnePerString | frontend/src/stores/guitar.ts:98-108 | splicing out an entry keeps one position per string |
| Fretboard.ToggleKeepsTuningNotes | frontend/src/stores/guitar.ts:111-122 | after a toggle every note is still the one the tuning sounds at its position |
| Fretboard.ToggleFromEmpty | frontend/src/stores/guitar.ts:87-122 | on an empty board a toggle selects exactly the clicked position |
| Fretboard.ToggleKeepsBoard | frontend/src/stores/guitar.ts:86-135 | both board invariants survive a toggle |
| Fretboard.UniqueNotes | frontend/src/stores/guitar.ts:127 | there are never more distinct notes than selected positions |
| Fretboard.NotesNoMore | frontend/src/stores/guitar.ts:127 | the set of a list's notes is no larger than the list |
| Fretboard.UniqueNotesShrink | frontend/src/stores/guitar.ts:127 | dropping entries never adds distinct notes |
| Fretboard.UniqueNotesPush | frontend/src/stores/guitar.ts:127 | a pushed entry adds its note to the distinct notes |
| Fretboard.ToggleDeselects | frontend/src/stores/guitar.ts:94-135 | within the cap, clicking a selected position removes exactly that entry |
| Fretboard.ToggleSelects | frontend/src/stores/guitar.ts:101-135 | within the cap, clicking a new position clears its string and pushes it, unless it would make a fifth distinct note; then the push is popped |
| Fretboard.ToggleKeepsCap | frontend/src/stores/guitar.ts:125-135 | a toggle never takes the selection past four distinct notes |
| Fretboard.OverflowEmptiesString | frontend/src/stores/guitar.ts:106-135 | when a click on an occupied string would make a fifth note, the string's old entry is gone and the new one is popped, so the board loses a position |
| Fretboard.Retuned | frontend/src/stores/guitar.ts:193-200 | retuning keeps every string and fret and renames each note to the new tuning |
| Fretboard.RetuneUnchanged | frontend/src/stores/guitar.ts:193-200 | retuning to the tuning already in force changes nothing |
| Fretboard.RetuneTwice | frontend/src/stores/guitar.ts:190-200 | retuning twice is retuning once to the last tuning |
| Fretboard.TuningsSixStrings | frontend/src/stores/guitar.ts:32-39 | every tuning on offer sets six strings, and no two tunings share a name |
| Fretboard.PositionLess | frontend/src/stores/guitar.ts:78-81 | a lower string always comes first; an entry that comes first is on the same or a lower string and is not at the other entry's position |
| Fretboard.NotesOf | frontend/src/stores/guitar.ts:82 | one note per position, the i-th note being the i-th position's note |
| Fretboard.InsertPosition | frontend/src/stores/guitar.ts:78-81 | inserting into a board-ordered list keeps it ordered and adds exactly that entry |
| Fretboard.InsertPositionNotes | frontend/src/stores/guitar.ts:78-82 | inserting adds exactly its note to the notes |
| Fretboard.SortPositions | frontend/src/stores/guitar.ts:78-81 | the sort orders by string, then fret, and is a permutation, also of the notes |
| Fretboard.SelectedNotes | frontend/src/stores/guitar.ts:73-83 | one note per selected position, in board order: the notes of a permutation of the selection sorted by string, then fret; the same notes with the same multiplicities |
| Fretboard.SelectedNotesBass | frontend/src/stores/guitar.ts:73-83 | the first note sent, taken by the backend as the bass, belongs to a position no other position precedes |
| Fretboard.SortedHeadFirst | frontend/src/stores/guitar.ts:78-81 | in the sorted list no entry comes before the first |
| Fretboard.ToggleBoard | frontend/src/stores/guitar.ts:94-135 | the toggle on the board as a list gives the toggled selection and keeps both board invariants |
| Fretboard.GuitarStore.constructor | frontend/src/stores/guitar.ts:50-60 | an empty board in Standard tuning, scale off at C Major, not in reverse-lookup mode |
| Fretboard.GuitarStore.Identify | frontend/src/stores/guitar.ts:140-157 | fewer than three positions clears the chord; otherwise a reply replaces it and a failed request leaves it |
| Fretboard.GuitarStore.TogglePosition | frontend/src/stores/guitar.ts:86-138 | the board becomes the toggle of the old board (emptied first when leaving reverse-lookup mode), the invariants hold, and identification follows |
| Fretboard.GuitarStore.LeaveReverseLookup | frontend/src/stores/guitar.ts:87-92 | leaving reverse-lookup mode empties the board; otherwise nothing changes |
| Fretboard.GuitarStore.ReverseLookup | frontend/src/stores/guitar.ts:159-182 | a successful reply enters reverse-lookup mode, clears the board and highlights the notes; an error or failed request changes nothing; for a parsable name the highlighted notes are the chord's |
| Fretboard.GuitarStore.Reset | frontend/src/stores/guitar.ts:184-188 | an empty board, no chord, not in reverse-lookup mode |
| Fretboard.GuitarStore.SetTuning | frontend/src/stores/guitar.ts:190-202 | the tuning is replaced, the board retuned in place and identified again |
| Notebook.NatToString | frontend/src/stores/notebook.ts:55 | decimal text of a fret: digits only, a single digit exactly below 10 |
| Notebook.NatToStringInjective | frontend/src/stores/notebook.ts:55 | different frets give different text |
| Notebook.IntToString | frontend/src/stores/notebook.ts:55 | decimal text of a string index, with a leading '-' exactly when negative |
| Notebook.IntToStringInjective | frontend/src/stores/notebook.ts:55 | different string indices give different text |
| Notebook.PairsOf | frontend/src/stores/notebook.ts:55 | the (string, fret) pair of every position, in order |
| Notebook.Key | frontend/src/stores/notebook.ts:55 | the "string-fret" key is non-empty and never contains the bar character |
| Notebook.AfterLastDashJoin | frontend/src/stores/notebook.ts:55 | the text after the last '-' of "a-b" is b when b has no '-' |
| Notebook.SplitAtLastDash | frontend/src/stores/notebook.ts:55 | "a-b" with a dash-free b splits back uniquely |
| Notebook.KeyInjective | frontend/src/stores/notebook.ts:55 | different pairs give different keys |
| Notebook.KeysOf | frontend/src/stores/notebook.ts:55 | one key per pair, in order |
| Notebook.KeysOfPermutation | frontend/src/stores/notebook.ts:55 | the same pairs in any order give the same keys, as a multiset |
| Notebook.KeysOfReflectPermutation | frontend/src/stores/notebook.ts:55 | the same keys, as a multiset, come only from the same pairs |
| Notebook.StrLeqTotal | frontend/src/stores/notebook.ts:55 | the default string order of `sort()` compares any two strings |
| Notebook.StrLeqAntisymmetric | frontend/src/stores/notebook.ts:55 | strings ordered both ways are equal |
| Notebook.StrLeqTransitive | frontend/src/stores/notebook.ts:55 | the string order is transitive |
| Notebook.InsertString | frontend/src/stores/notebook.ts:55 | inserting into a sorted list keeps it sorted and adds exactly that string |
| Notebook.StrLeq | frontend/src/stores/notebook.ts:55 | the default `sort()` order puts a string before every string it is a prefix of |
| Notebook.SortStrings | frontend/src/stores/notebook.ts:55 | `sort()` gives a sorted permutation |
| Notebook.SortedHeadLeast | frontend/src/stores/notebook.ts:55 | the head of a sorted list comes before every member |
| Notebook.SortedUnique | frontend/src/stores/notebook.ts:55 | two sorted lists with the same members are equal, so the sorted keys are canonical |
| Notebook.Join | frontend/src/stores/notebook.ts:55 | joining with the bar character starts with the first key, followed by a bar when more keys follow |
| Notebook.BeforeFirstBarJoin | frontend/src/stores/notebook.ts:55 | the text before the first bar of the joined keys is the first key |
| Notebook.PosString | frontend/src/stores/notebook.ts:54-55 | the text is empty only for no positions, is the single key for one position, and holds a bar for two or more |
| Notebook.JoinInjective | frontend/src/stores/notebook.ts:55 | joining non-empty bar-free keys is injective |
| Notebook.SamePairsSameText | frontend/src/stores/notebook.ts:54-55 | the same pairs in any order give the same position text |
| Notebook.SameTextSamePairs | frontend/src/stores/notebook.ts:54-55 | the same position text comes only from the same pairs |
| Notebook.PosStringSame | frontend/src/stores/notebook.ts:54-58 | two shapes have the same text exactly when they have the same string/fret pairs as a multiset (notes are ignored) |
| Notebook.SameShape | frontend/src/stores/notebook.ts:58 | a favourite matches by tuning name and position text exactly when it has the tuning name and the same string/fret pairs |
| Notebook.NewFavorite | frontend/src/stores/notebook.ts:29-35 | the record pushed carries the given id, no custom name, and the given shape under the given tuning |
| Notebook.IsFavorited | frontend/src/stores/notebook.ts:52-59 | true exactly when some favourite has the tuning name and the same position text |
| Notebook.IsFavoritedIff | frontend/src/stores/notebook.ts:52-59 | true exactly when some favourite has the tuning name and the same string/fret pairs |
| Notebook.FirstIndex | frontend/src/stores/notebook.ts:39 | `findIndex`: the first index satisfying the test, or -1 exactly when none does |
| Notebook.FirstWithShape | frontend/src/stores/notebook.ts:66 | the first favourite with the tuning name and the same position text, or -1 |
| Notebook.FavoriteIdByPositions | frontend/src/stores/notebook.ts:61-67 | an id exactly when the shape is favourited, and it is the id of the first favourite with the same pairs |
| Notebook.FindFavorite | frontend/src/stores/notebook.ts:39-46 | the first favourite with the id, or -1 exactly when none has it |
| Notebook.Removed | frontend/src/stores/notebook.ts:38-43 | without the id nothing changes; otherwise exactly the first favourite with the id goes and the others keep their order |
| Notebook.Renamed | frontend/src/stores/notebook.ts:45-50 | only the first favourite with the id gets the custom name; everything else is unchanged |
| Notebook.AddedIsFavorited | frontend/src/stores/notebook.ts:27-59 | a shape just added is favourited |
| Notebook.FirstIndexAppend | frontend/src/stores/notebook.ts:66 | appending a matching element makes it the first match only when there was none |
| Notebook.AddedFavoriteId | frontend/src/stores/notebook.ts:27-67 | after adding a shape its id is found, unless an earlier favourite already had that shape, whose id is kept |
| Notebook.RenameKeepsFavorited | frontend/src/stores/notebook.ts:45-59 | renaming never changes whether a shape is favourited |
| Notebook.NotebookStore.constructor | frontend/src/stores/notebook.ts:18-20 | the favourites are the saved list |
| Notebook.NotebookStore.AddFavorite | frontend/src/stores/notebook.ts:27-36 | the new favourite, without a custom name, is appended, and its shape is then favourited |
| Notebook.NotebookStore.RemoveFavorite | frontend/src/stores/notebook.ts:38-43 | the list becomes the list with the first favourite of that id removed |
| Notebook.NotebookStore.UpdateCustomName | frontend/src/stores/notebook.ts:45-50 | the list becomes the list with the first favourite of that id renamed |
| Metronome.ClickFrequency | frontend/src/composables/useMetronome.ts:32 | 1000 Hz exactly on beats divisible by four, 800 Hz otherwise |
| Metronome.SecondsPerBeat | frontend/src/composables/useMetronome.ts:55 | a positive beat length whose product with the tempo is 60 seconds |
| Metronome.TickTime | frontend/src/composables/useMetronome.ts:55-56 | with a positive beat length, every beat after the first is scheduled after the start |
| Metronome.TickTimeClosedForm | frontend/src/composables/useMetronome.ts:53-57 | adding the beat length n times is start + n · beat length |
| Metronome.TickTimeIncreasing | frontend/src/composables/useMetronome.ts:55-56 | later beats are scheduled strictly later |
| Metronome.Ticks | frontend/src/composables/useMetronome.ts:53-58 | n clicks, the i-th numbered from the counter plus i, at the i-th beat time, with its accent |
| Metronome.TicksSpacing | frontend/src/composables/useMetronome.ts:54-57 | consecutive clicks are one beat number and one beat length apart |
| Metronome.TicksIncreasing | frontend/src/composables/useMetronome.ts:53-57 | the scheduled clicks are in strictly increasing time order |
| Metronome.TicksStep | frontend/src/composables/useMetronome.ts:53-58 | one more loop turn appends exactly the next click |
| Metronome.BeatsBeforeUnique | frontend/src/composables/useMetronome.ts:53 | only one click count fills the window up to now + 0.1 s |
| Metronome.BeatsToReach | frontend/src/composables/useMetronome.ts:53-57 | at a positive tempo some beat reaches the window's end, so the loop stops |
| Metronome.TickTimeBelow | frontend/src/composables/useMetronome.ts:53 | a beat before the window's end comes before the first beat past it |
| Metronome.Metronome.constructor | frontend/src/composables/useMetronome.ts:4-11 | stopped, at the saved tempo, or 120 when none or 0 was saved |
| Metronome.Metronome.SetBpm | frontend/src/composables/useMetronome.ts:5 | the tempo becomes the value set |
| Metronome.Metronome.ScheduleNote | frontend/src/composables/useMetronome.ts:25-49 | with a context, one accented-or-not click is scheduled and its visual callback armed; without one nothing happens |
| Metronome.Metronome.Scheduler | frontend/src/composables/useMetronome.ts:51-60 | exactly the beats before now + 0.1 s are scheduled from the counter on, the next beat time is past that window, and the timer is re-armed; without a context nothing changes |
| Metronome.Metronome.ScheduleAhead | frontend/src/composables/useMetronome.ts:53-58 | the loop schedules exactly the beats before now + 0.1 s and leaves the next beat time past it |
| Metronome.Metronome.Toggle | frontend/src/composables/useMetronome.ts:62-76 | starting numbers beats from 0 at the current audio time and schedules at once, first an accented beat 0 now; stopping disarms the timer and schedules nothing, whatever the tempo |
| Metronome.Metronome.FireFlash | frontend/src/composables/useMetronome.ts:45-48 | a visual callback writes its click's beat into the shared counter and stamps the time |
| Metronome.SecondClickAt120 | frontend/src/composables/useMetronome.ts:45-72 | at 120 bpm the first flash resets the counter before the second beat is scheduled, so the second click is again an accented beat 0 |
| ToneGenerator.StrumPlan | frontend/src/composables/useToneGenerator.ts:89-119 | one strike per frequency in order, string k starting 0.05·k s after now and sounding 1.5 s, so starts strictly increase |
| ToneGenerator.ToneGenerator.constructor | frontend/src/composables/useToneGenerator.ts:4-13 | nothing playing, no current tone, no context, no oscillators |
| ToneGenerator.ToneGenerator.StopTone | frontend/src/composables/useToneGenerator.ts:21-40 | with a frequency, only its oscillator is stopped and forgotten; without one, all are; the current tone is cleared once nothing plays |
| ToneGenerator.ToneGenerator.StopOne | frontend/src/composables/useToneGenerator.ts:22-39 | the frequency's oscillator, if any, is stopped and forgotten |
| ToneGenerator.ToneGenerator.StopAll | frontend/src/composables/useToneGenerator.ts:29-39 | every tracked oscillator is stopped and forgotten; nothing plays and there is no current tone |
| ToneGenerator.Untimed | frontend/src/composables/useToneGenerator.ts:47 | no duration means a manual toggle, and any non-zero duration means a timed tone |
| ToneGenerator.ToneGenerator.PlayTone | frontend/src/composables/useToneGenerator.ts:42-87 | an untimed tone already playing is toggled off; an untimed new tone plays alone; a timed tone joins the others with a fresh oscillator and an armed end callback |
| ToneGenerator.ToneGenerator.PlayAlone | frontend/src/composables/useToneGenerator.ts:55-86 | every tone stops and the frequency alone plays |
| ToneGenerator.ToneGenerator.StartOscillator | frontend/src/composables/useToneGenerator.ts:59-86 | a fresh oscillator becomes the tracked one at the frequency and the current tone; a timed one arms its end callback |
| ToneGenerator.ToneGenerator.OscEnded | frontend/src/composables/useToneGenerator.ts:72-77 | the end callback forgets whatever oscillator is tracked at its frequency and leaves the current tone alone |
| ToneGenerator.ToneGenerator.Strum | frontend/src/composables/useToneGenerator.ts:89-119 | creates the context and plans the strum; strummed oscillators are not tracked |
| ToneGenerator.PressTwice | frontend/src/composables/useToneGenerator.ts:46-57 | pressing a tuning button twice plays the tone, then stops it with nothing left playing |
| ToneGenerator.OverlappingTimedTones | frontend/src/composables/useToneGenerator.ts:69-84 | when a timed tone ends after a newer one started at the same frequency, the newer one is no longer tracked |

## Left out

- The pitch analyser and `/api/tuner/analyze` (`backend/analyzer.py`) are not part of this model. Neither are the LLM endpoint (`backend/llm.py`), the teacher store, the router and the Vue components.
- Network requests (`fetch`) are left out. Their replies are parameters of the methods that await them (`Identify`, `TogglePosition`, `SetTuning`, `ReverseLookup`), and `None` stands for a request that failed.
- The order in which overlapping asynchronous replies arrive is left out, because each store method is modelled as one atomic step.
- `localStorage` is left out: loading and persisting favourites and the tempo. The saved values are constructor parameters.
- `crypto.randomUUID` and `Date.now` are parameters of `AddFavorite` and `FireFlash`.
- Web Audio is left out: gain envelopes, oscillator types, `connect`/`disconnect`, `audioContext.resume` and `close`. Oscillators are tokens, and the audio clock's current time is a parameter.
- Timers are left out. The 25 ms scheduler re-run is only the `timerArmed` flag, and the visual callbacks are the `flashes` list, fired by `FireFlash` in any order the caller picks.
- `onUnmounted` clean-up in the metronome and the tone generator is left out.
- Floating point is left out: times, tempos and frequencies are exact reals, so rounding in `60.0 / bpm` and in the accumulated beat times is not modelled.
- Metronome.Metronome.Scheduler: requires a positive tempo when a context exists. A zero tempo is left out because `60.0 / 0` is Infinity, which is not a real: in the source it sets the next note time to Infinity and the loop stops after one click. At a negative tempo the source's loop never ends. A NaN tempo is not modelled.
- Metronome.Metronome.Toggle: requires a positive tempo when starting, for the same reason. Stopping never reads the tempo and is allowed at any tempo.
- ToneGenerator.Untimed: a NaN duration (which the source also treats as no duration) is not modelled.
- Chords.GetChordNotes: returns the notes in the order the chord table lists the intervals. The source iterates a frozenset, whose order Python leaves undefined (CPython's hash order in practice, e.g. "C Major 7th" gives C, B, E, G). The contracts state only the length and the set of notes, which hold for every order. The same applies to Chords.TransposeTones.
- Fretboard.NoteAt: frets and tuning bases are naturals, so the note index is always 0..11. The `|| 'C'` fallback in the source is unreachable in the model and is left out. Negative frets and bases are not modelled.
- Fretboard.ScaleNotes: requires the root to be one of the twelve names. For any other root the source indexes the scale at -1.
- Fretboard.GuitarStore.SetTuning: modelled as written. It does not re-apply the four-note cap, so retuning can leave five distinct notes on the board. For that reason the store's invariant does not include the cap, and `ToggleKeepsCap` states it per toggle.
- Notebook.StrLeq: compares characters one by one, which agrees with the UTF-16 code-unit order of `sort()` on the ASCII digits, dashes and bars that keys contain.
- The `name`, `createdAt` and `note` fields of a favourite are carried but never compared, as in the source.
