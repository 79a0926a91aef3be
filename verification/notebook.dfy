/**
 * The favourites notebook of the frontend (frontend/src/stores/notebook.ts):
 * a list of saved chord shapes, appended to, removed from and renamed by id,
 * and the "is this shape already saved" queries, which compare shapes by
 * their string/fret pairs rendered as text, sorted and joined.
 */
module Notebook {
  import opened Wrappers
  import opened Fretboard

  /** A saved chord shape. `customName` is absent until the user renames it. */
  datatype Favorite = Favorite(
    id: string,
    name: string,
    customName: Option<string>,
    tuningName: string,
    positions: seq<Selection>,
    createdAt: int)

  // ---------------------------------------------------------------------
  // Position keys: `${string}-${fret}`
  // ---------------------------------------------------------------------

  /** The decimal digit for 0..9. */
  function Digit(d: int): char
    requires 0 <= d < 10
  {
    (48 + d) as char
  }

  /** The decimal rendering of a natural number, without leading zeros. */
  function NatToString(n: nat): (r: string)
    ensures |r| >= 1 && (|r| == 1 <==> n < 10)
    ensures forall k :: 0 <= k < |r| ==> '0' <= r[k] <= '9'
  {
    if n < 10 then [Digit(n)] else NatToString(n / 10) + [Digit(n % 10)]
  }

  /** Different numbers render differently. */
  lemma {:induction false} NatToStringInjective(n: nat, m: nat)
    requires NatToString(n) == NatToString(m)
    ensures n == m
  {
    var a, b := NatToString(n), NatToString(m);
    if n < 10 {
      assert a[0] as int == 48 + n && b[0] as int == 48 + m;
    } else {
      assert a[|a| - 1] as int == 48 + n % 10 && b[|b| - 1] as int == 48 + m % 10;
      assert a[..|a| - 1] == NatToString(n / 10) && b[..|b| - 1] == NatToString(m / 10);
      NatToStringInjective(n / 10, m / 10);
    }
  }

  /** The decimal rendering of an integer, with a leading '-' when negative. */
  function IntToString(i: int): (r: string)
    ensures |r| >= 1 && (r[0] == '-' <==> i < 0)
    ensures forall k :: 0 < k < |r| ==> '0' <= r[k] <= '9'
  {
    if i < 0 then "-" + NatToString(-i) else NatToString(i)
  }

  lemma IntToStringInjective(i: int, j: int)
    requires IntToString(i) == IntToString(j)
    ensures i == j
  {
    if i < 0 {
      assert IntToString(i)[1..] == NatToString(-i) && IntToString(j)[1..] == NatToString(-j);
      NatToStringInjective(-i, -j);
    } else {
      NatToStringInjective(i, j);
    }
  }

  /** The string/fret pair of a position; its note name plays no part. */
  function PairsOf(pos: seq<Selection>): (r: seq<(int, nat)>)
    ensures |r| == |pos|
    ensures forall i :: 0 <= i < |pos| ==> r[i] == (pos[i].stringIdx, pos[i].fret)
  {
    seq(|pos|, i requires 0 <= i < |pos| => (pos[i].stringIdx, pos[i].fret))
  }

  /** The key of one position, "string-fret": never empty, never holding the '|' separator. */
  function Key(p: (int, nat)): (r: string)
    ensures r != [] && '|' !in r
  {
    IntToString(p.0) + "-" + NatToString(p.1)
  }

  /** The number of characters after the last '-' (all of them when there is none). */
  function AfterLastDash(s: string): nat {
    if s == [] || s[|s| - 1] == '-' then 0 else 1 + AfterLastDash(s[..|s| - 1])
  }

  lemma {:induction false} AfterLastDashJoin(a: string, b: string)
    requires '-' !in b
    ensures AfterLastDash(a + "-" + b) == |b|
    decreases |b|
  {
    var s := a + "-" + b;
    if b != [] {
      var b' := b[..|b| - 1];
      assert s[..|s| - 1] == a + "-" + b';
      assert s[|s| - 1] == b[|b| - 1];
      assert '-' !in b' by {
        forall k | 0 <= k < |b'| ensures b'[k] != '-' { assert b'[k] == b[k]; }
      }
      AfterLastDashJoin(a, b');
    }
  }

  /** A string `a + "-" + b` with no '-' in `b` splits back into `a` and `b`. */
  lemma SplitAtLastDash(a1: string, b1: string, a2: string, b2: string)
    requires '-' !in b1 && '-' !in b2
    requires a1 + "-" + b1 == a2 + "-" + b2
    ensures a1 == a2 && b1 == b2
  {
    var s := a1 + "-" + b1;
    AfterLastDashJoin(a1, b1);
    AfterLastDashJoin(a2, b2);
    assert a1 == s[..|a1|] && a2 == s[..|a2|];
    assert b1 == s[|a1| + 1..] && b2 == s[|a2| + 1..];
  }

  /** Different positions have different keys. */
  lemma KeyInjective(p: (int, nat), q: (int, nat))
    requires Key(p) == Key(q)
    ensures p == q
  {
    var b1, b2 := NatToString(p.1), NatToString(q.1);
    assert '-' !in b1 by {
      forall k | 0 <= k < |b1| ensures b1[k] != '-' { }
    }
    assert '-' !in b2 by {
      forall k | 0 <= k < |b2| ensures b2[k] != '-' { }
    }
    SplitAtLastDash(IntToString(p.0), b1, IntToString(q.0), b2);
    IntToStringInjective(p.0, q.0);
    NatToStringInjective(p.1, q.1);
  }

  /** The keys of a list of pairs, in the same order. */
  function KeysOf(ps: seq<(int, nat)>): (r: seq<string>)
    ensures |r| == |ps|
    ensures forall i :: 0 <= i < |ps| ==> r[i] == Key(ps[i])
  {
    seq(|ps|, i requires 0 <= i < |ps| => Key(ps[i]))
  }

  lemma KeysOfConcat(a: seq<(int, nat)>, b: seq<(int, nat)>)
    ensures KeysOf(a + b) == KeysOf(a) + KeysOf(b)
  {
  }

  /** The keys of a non-empty list: the key of its head, then the keys of the rest. */
  lemma KeysOfCons(xs: seq<(int, nat)>)
    requires xs != []
    ensures multiset(KeysOf(xs)) == multiset(KeysOf(xs[1..])) + multiset{Key(xs[0])}
  {
    assert xs == [xs[0]] + xs[1..];
    KeysOfConcat([xs[0]], xs[1..]);
    assert KeysOf([xs[0]]) == [Key(xs[0])];
    assert KeysOf(xs) == [Key(xs[0])] + KeysOf(xs[1..]);
  }

  /** A key among the keys of a list marks where its pair is. */
  lemma KeyIndex(ys: seq<(int, nat)>, x: (int, nat)) returns (k: int)
    requires Key(x) in multiset(KeysOf(ys))
    ensures 0 <= k < |ys| && ys[k] == x
  {
    assert Key(x) in KeysOf(ys);
    k :| 0 <= k < |ys| && KeysOf(ys)[k] == Key(x);
    KeyInjective(ys[k], x);
  }

  /** Splicing one element out of a list of pairs splices its key out of the keys. */
  lemma KeysOfRemove(ys: seq<(int, nat)>, k: int)
    requires 0 <= k < |ys|
    ensures multiset(KeysOf(ys)) == multiset(KeysOf(RemoveAt(ys, k))) + multiset{Key(ys[k])}
  {
    var before, after := ys[..k], ys[k + 1..];
    assert ys == before + [ys[k]] + after;
    assert RemoveAt(ys, k) == before + after;
    KeysOfConcat(before + [ys[k]], after);
    KeysOfConcat(before, [ys[k]]);
    KeysOfConcat(before, after);
    assert KeysOf([ys[k]]) == [Key(ys[k])];
    assert KeysOf(ys) == KeysOf(before) + [Key(ys[k])] + KeysOf(after);
  }

  /** Equal multisets stay equal after taking the same element out of both. */
  lemma MultisetCancel<T>(a: multiset<T>, b: multiset<T>, x: T)
    requires a + multiset{x} == b + multiset{x}
    ensures a == b
  {
    forall y ensures a[y] == b[y] {
      assert (a + multiset{x})[y] == (b + multiset{x})[y];
    }
  }

  /** The same pairs in any order give the same keys in some order. */
  lemma {:induction false} KeysOfPermutation(xs: seq<(int, nat)>, ys: seq<(int, nat)>)
    requires multiset(xs) == multiset(ys)
    ensures multiset(KeysOf(xs)) == multiset(KeysOf(ys))
    decreases |xs|
  {
    if xs != [] {
      var x, rest := xs[0], xs[1..];
      assert x in multiset(ys);
      assert x in ys;
      var k :| 0 <= k < |ys| && ys[k] == x;
      var ys' := RemoveAt(ys, k);
      assert xs == [x] + rest;
      assert multiset(xs) == multiset(rest) + multiset{x};
      MultisetCancel(multiset(rest), multiset(ys'), x);
      KeysOfPermutation(rest, ys');
      KeysOfRemove(ys, k);
      KeysOfCons(xs);
    } else {
      assert |ys| == |multiset(ys)| == 0;
    }
  }

  /** A list whose head sits at `k` in another, and whose tail matches the rest of it, is a permutation of it. */
  lemma ConsPermutation<T>(xs: seq<T>, ys: seq<T>, k: int)
    requires xs != [] && 0 <= k < |ys| && ys[k] == xs[0]
    requires multiset(xs[1..]) == multiset(RemoveAt(ys, k))
    ensures multiset(xs) == multiset(ys)
  {
    assert xs == [xs[0]] + xs[1..];
  }

  /** Keys that agree up to order come from pairs that agree up to order. */
  lemma {:induction false} KeysOfReflectPermutation(xs: seq<(int, nat)>, ys: seq<(int, nat)>)
    requires multiset(KeysOf(xs)) == multiset(KeysOf(ys))
    ensures multiset(xs) == multiset(ys)
    decreases |xs|
  {
    if xs != [] {
      var x, rest := xs[0], xs[1..];
      KeysOfCons(xs);
      assert Key(x) in multiset(KeysOf(ys));
      var k := KeyIndex(ys, x);
      var ys' := RemoveAt(ys, k);
      KeysOfRemove(ys, k);
      MultisetCancel(multiset(KeysOf(rest)), multiset(KeysOf(ys')), Key(x));
      KeysOfReflectPermutation(rest, ys');
      ConsPermutation(xs, ys, k);
    } else {
      assert |ys| == |KeysOf(ys)| == |multiset(KeysOf(ys))| == 0;
    }
  }

  // ---------------------------------------------------------------------
  // Sorting keys: JavaScript's default sort, by character codes
  // ---------------------------------------------------------------------

  /** Lexicographic order on strings, by character code. */
  predicate StrLeq(a: string, b: string)
    ensures a <= b ==> StrLeq(a, b)
  {
    |a| == 0 || (|b| != 0 && (a[0] < b[0] || (a[0] == b[0] && StrLeq(a[1..], b[1..]))))
  }

  lemma {:induction false} StrLeqTotal(a: string, b: string)
    ensures StrLeq(a, b) || StrLeq(b, a)
  {
    if |a| != 0 && |b| != 0 && a[0] == b[0] {
      StrLeqTotal(a[1..], b[1..]);
    }
  }

  lemma {:induction false} StrLeqAntisymmetric(a: string, b: string)
    requires StrLeq(a, b) && StrLeq(b, a)
    ensures a == b
  {
    if |a| != 0 && |b| != 0 {
      StrLeqAntisymmetric(a[1..], b[1..]);
      assert a == [a[0]] + a[1..] && b == [b[0]] + b[1..];
    }
  }

  lemma {:induction false} StrLeqTransitive(a: string, b: string, c: string)
    requires StrLeq(a, b) && StrLeq(b, c)
    ensures StrLeq(a, c)
  {
    if |a| != 0 && |b| != 0 && |c| != 0 && a[0] == b[0] == c[0] {
      StrLeqTransitive(a[1..], b[1..], c[1..]);
    }
  }

  ghost predicate SortedStrings(xs: seq<string>) {
    forall i, j :: 0 <= i < j < |xs| ==> StrLeq(xs[i], xs[j])
  }

  /** Inserts `x` before the first entry it does not come after. */
  function InsertString(x: string, xs: seq<string>): (r: seq<string>)
    requires SortedStrings(xs)
    ensures SortedStrings(r)
    ensures multiset(r) == multiset(xs) + multiset{x}
  {
    if xs == [] then [x]
    else if StrLeq(x, xs[0]) then
      LeastBeforeSorted(x, xs);
      PrependSorted(x, xs);
      [x] + xs
    else
      StrLeqTotal(x, xs[0]);
      SortedStringsTail(xs);
      var rest := InsertString(x, xs[1..]);
      assert xs == [xs[0]] + xs[1..];
      HeadBeforeInserted(x, xs, rest);
      PrependSorted(xs[0], rest);
      [xs[0]] + rest
  }

  /** The tail of an ascending list is ascending. */
  lemma SortedStringsTail(xs: seq<string>)
    requires SortedStrings(xs) && xs != []
    ensures SortedStrings(xs[1..])
  {
    forall i, j | 0 <= i < j < |xs| - 1 ensures StrLeq(xs[1..][i], xs[1..][j]) {
      assert xs[1..][i] == xs[i + 1] && xs[1..][j] == xs[j + 1];
    }
  }

  /** A string no later than the head of an ascending list is no later than any entry. */
  lemma LeastBeforeSorted(x: string, xs: seq<string>)
    requires SortedStrings(xs) && xs != [] && StrLeq(x, xs[0])
    ensures forall j :: 0 <= j < |xs| ==> StrLeq(x, xs[j])
  {
    forall j | 0 < j < |xs| ensures StrLeq(x, xs[j]) {
      StrLeqTransitive(x, xs[0], xs[j]);
    }
  }

  /** The head of an ascending list comes no later than anything inserted after it. */
  lemma HeadBeforeInserted(x: string, xs: seq<string>, rest: seq<string>)
    requires SortedStrings(xs) && xs != [] && StrLeq(xs[0], x)
    requires multiset(rest) == multiset(xs[1..]) + multiset{x}
    ensures forall j :: 0 <= j < |rest| ==> StrLeq(xs[0], rest[j])
  {
    forall j | 0 <= j < |rest| ensures StrLeq(xs[0], rest[j]) {
      assert rest[j] in multiset(rest);
      if rest[j] != x {
        assert rest[j] in xs[1..];
        var k :| 0 <= k < |xs| - 1 && xs[1..][k] == rest[j];
        assert xs[k + 1] == rest[j];
      }
    }
  }

  /** Putting a string no later than every entry in front of an ascending list keeps it ascending. */
  lemma PrependSorted(h: string, t: seq<string>)
    requires SortedStrings(t) && forall j :: 0 <= j < |t| ==> StrLeq(h, t[j])
    ensures SortedStrings([h] + t)
  {
    forall i, j | 0 <= i < j < |t| + 1 ensures StrLeq(([h] + t)[i], ([h] + t)[j]) {
      assert ([h] + t)[j] == t[j - 1];
      if i > 0 {
        assert ([h] + t)[i] == t[i - 1];
      }
    }
  }

  /** The keys in ascending order (an insertion sort). */
  function SortStrings(xs: seq<string>): (r: seq<string>)
    ensures SortedStrings(r)
    ensures multiset(r) == multiset(xs)
  {
    if xs == [] then []
    else
      assert xs == xs[..|xs| - 1] + [xs[|xs| - 1]];
      InsertString(xs[|xs| - 1], SortStrings(xs[..|xs| - 1]))
  }

  /** The head of a sorted list comes no later than anything in it. */
  lemma SortedHeadLeast(a: seq<string>, x: string)
    requires SortedStrings(a) && a != [] && x in a
    ensures StrLeq(a[0], x)
  {
    var i :| 0 <= i < |a| && a[i] == x;
    if i == 0 { StrLeqTotal(x, x); }
  }

  /** Two ascending lists with the same elements are the same list. */
  lemma {:induction false} SortedUnique(a: seq<string>, b: seq<string>)
    requires SortedStrings(a) && SortedStrings(b) && multiset(a) == multiset(b)
    ensures a == b
    decreases |a|
  {
    if a == [] {
      assert |b| == |multiset(b)| == 0;
    } else {
      assert |b| == |multiset(b)| == |multiset(a)| == |a|;
      assert a[0] in multiset(b) && b[0] in multiset(a);
      SortedHeadLeast(b, a[0]);
      SortedHeadLeast(a, b[0]);
      StrLeqAntisymmetric(a[0], b[0]);
      var a', b' := a[1..], b[1..];
      assert a == [a[0]] + a' && b == [b[0]] + b';
      assert multiset(a) == multiset(a') + multiset{a[0]};
      assert multiset(b) == multiset(b') + multiset{a[0]};
      MultisetCancel(multiset(a'), multiset(b'), a[0]);
      SortedStringsTail(a);
      SortedStringsTail(b);
      SortedUnique(a', b');
    }
  }

  // ---------------------------------------------------------------------
  // Joining keys with '|'
  // ---------------------------------------------------------------------

  /** The entries separated by '|'. */
  function Join(xs: seq<string>): (r: string)
    ensures |xs| >= 1 ==> |r| >= |xs[0]| && r[..|xs[0]|] == xs[0]
    ensures |xs| >= 2 ==> |r| > |xs[0]| && r[|xs[0]|] == '|'
    ensures |xs| == 1 ==> r == xs[0]
  {
    if |xs| == 0 then ""
    else if |xs| == 1 then xs[0]
    else xs[0] + "|" + Join(xs[1..])
  }

  /** The number of characters before the first '|' (all of them when there is none). */
  function BeforeFirstBar(s: string): nat {
    if s == [] || s[0] == '|' then 0 else 1 + BeforeFirstBar(s[1..])
  }

  lemma {:induction false} BeforeFirstBarPrefix(x: string, rest: string)
    requires '|' !in x
    requires rest == [] || rest[0] == '|'
    ensures BeforeFirstBar(x + rest) == |x|
    decreases |x|
  {
    if x != [] {
      assert (x + rest)[1..] == x[1..] + rest;
      assert '|' !in x[1..] by {
        forall k | 0 <= k < |x[1..]| ensures x[1..][k] != '|' { assert x[1..][k] == x[k + 1]; }
      }
      BeforeFirstBarPrefix(x[1..], rest);
    } else {
      assert x + rest == rest;
    }
  }

  /** The first entry of a join of '|'-free entries is what comes before the first '|'. */
  lemma BeforeFirstBarJoin(xs: seq<string>)
    requires |xs| >= 1 && forall x :: x in xs ==> '|' !in x
    ensures BeforeFirstBar(Join(xs)) == |xs[0]|
  {
    assert xs[0] in xs;
    if |xs| == 1 {
      BeforeFirstBarPrefix(xs[0], []);
      assert xs[0] + [] == xs[0];
    } else {
      BeforeFirstBarPrefix(xs[0], "|" + Join(xs[1..]));
      assert Join(xs) == xs[0] + ("|" + Join(xs[1..]));
    }
  }

  /** Entries that are non-empty and free of '|' can be read back from their join. */
  lemma {:induction false} JoinInjective(a: seq<string>, b: seq<string>)
    requires forall x :: x in a ==> x != [] && '|' !in x
    requires forall x :: x in b ==> x != [] && '|' !in x
    requires Join(a) == Join(b)
    ensures a == b
    decreases |a|
  {
    var s := Join(a);
    assert |a| == 0 <==> |b| == 0 by {
      if |a| > 0 { assert a[0] in a; }
      if |b| > 0 { assert b[0] in b; }
    }
    if |a| != 0 {
      BeforeFirstBarJoin(a);
      BeforeFirstBarJoin(b);
      var n := |a[0]|;
      assert a[0] == s[..n] == b[0];
      assert (|a| == 1) == (|b| == 1);
      if |a| == 1 {
        assert a == [a[0]] && b == [b[0]];
      } else {
        assert s == a[0] + "|" + Join(a[1..]) && s == b[0] + "|" + Join(b[1..]);
        assert Join(a[1..]) == s[n + 1..] == Join(b[1..]);
        assert forall x :: x in a[1..] ==> x in a;
        assert forall x :: x in b[1..] ==> x in b;
        JoinInjective(a[1..], b[1..]);
        assert a == [a[0]] + a[1..] && b == [b[0]] + b[1..];
      }
    }
  }

  /** The text a shape is compared by: its keys, sorted and joined with '|'. */
  function PosString(pos: seq<Selection>): (r: string)
    ensures r == [] <==> pos == []
    ensures |pos| == 1 ==> r == Key((pos[0].stringIdx, pos[0].fret))
    ensures |pos| >= 2 ==> '|' in r
  {
    var keys := KeysOf(PairsOf(pos));
    var sorted := SortStrings(keys);
    assert |sorted| == |multiset(sorted)| == |multiset(keys)| == |pos|;
    SortedKeysSeparable(pos);
    assert |pos| >= 1 ==> sorted[0] in sorted && sorted[0] in multiset(keys);
    assert |pos| == 1 ==> keys == [Key((pos[0].stringIdx, pos[0].fret))];
    var r := Join(sorted);
    assert |pos| >= 2 ==> r[|sorted[0]|] in r;
    r
  }

  /** The same string/fret pairs, in any order, give the same text. */
  lemma SamePairsSameText(a: seq<Selection>, b: seq<Selection>)
    requires multiset(PairsOf(a)) == multiset(PairsOf(b))
    ensures PosString(a) == PosString(b)
  {
    KeysOfPermutation(PairsOf(a), PairsOf(b));
    SortedUnique(SortStrings(KeysOf(PairsOf(a))), SortStrings(KeysOf(PairsOf(b))));
  }

  /** Sorted keys are non-empty and free of the separator. */
  lemma SortedKeysSeparable(pos: seq<Selection>)
    ensures forall x :: x in SortStrings(KeysOf(PairsOf(pos))) ==> x != [] && '|' !in x
  {
    var ks := KeysOf(PairsOf(pos));
    forall x | x in SortStrings(ks) ensures x != [] && '|' !in x {
      assert x in multiset(SortStrings(ks));
      assert x in multiset(ks);
    }
  }

  /** The same text comes only from the same string/fret pairs. */
  lemma SameTextSamePairs(a: seq<Selection>, b: seq<Selection>)
    requires PosString(a) == PosString(b)
    ensures multiset(PairsOf(a)) == multiset(PairsOf(b))
  {
    SortedKeysSeparable(a);
    SortedKeysSeparable(b);
    JoinInjective(SortStrings(KeysOf(PairsOf(a))), SortStrings(KeysOf(PairsOf(b))));
    KeysOfReflectPermutation(PairsOf(a), PairsOf(b));
  }

  /**
   * Two shapes have the same text exactly when they hold the same
   * string/fret pairs, in whatever order and with whatever note names.
   */
  lemma PosStringSame(a: seq<Selection>, b: seq<Selection>)
    ensures PosString(a) == PosString(b) <==> multiset(PairsOf(a)) == multiset(PairsOf(b))
  {
    if multiset(PairsOf(a)) == multiset(PairsOf(b)) {
      SamePairsSameText(a, b);
    }
    if PosString(a) == PosString(b) {
      SameTextSamePairs(a, b);
    }
  }

  // ---------------------------------------------------------------------
  // Queries
  // ---------------------------------------------------------------------

  /** Whether a favourite is the given shape in the given tuning, as the notebook compares them: by text. */
  predicate SameShape(f: Favorite, positions: seq<Selection>, tuningName: string)
    ensures SameShape(f, positions, tuningName) <==> SamePairs(f, positions, tuningName)
  {
    PosStringSame(f.positions, positions);
    f.tuningName == tuningName && PosString(f.positions) == PosString(positions)
  }

  /** The same tuning name and the same string/fret pairs, in any order. */
  predicate SamePairs(f: Favorite, positions: seq<Selection>, tuningName: string) {
    f.tuningName == tuningName && multiset(PairsOf(f.positions)) == multiset(PairsOf(positions))
  }

  /** isFavorited: whether some favourite has the shape (`.some` over the list). */
  function IsFavorited(favs: seq<Favorite>, positions: seq<Selection>, tuningName: string): (r: bool)
    ensures r <==> exists i :: 0 <= i < |favs| && SameShape(favs[i], positions, tuningName)
  {
    if favs == [] then false
    else
      assert forall i :: 1 <= i < |favs| ==> favs[i] == favs[1..][i - 1];
      SameShape(favs[0], positions, tuningName) || IsFavorited(favs[1..], positions, tuningName)
  }

  /**
   * What isFavorited means: some favourite has the same tuning name and
   * the same string/fret pairs, regardless of their order and note names.
   */
  lemma IsFavoritedIff(favs: seq<Favorite>, positions: seq<Selection>, tuningName: string)
    ensures IsFavorited(favs, positions, tuningName) <==>
      exists i :: 0 <= i < |favs| && SamePairs(favs[i], positions, tuningName)
  {
  }

  /** The index of the first element satisfying `p`, or -1 (JavaScript's findIndex; find yields that element). */
  function FirstIndex<T>(xs: seq<T>, p: T -> bool): (k: int)
    ensures -1 <= k < |xs|
    ensures k == -1 <==> forall j :: 0 <= j < |xs| ==> !p(xs[j])
    ensures k >= 0 ==> p(xs[k]) && forall j :: 0 <= j < k ==> !p(xs[j])
  {
    if xs == [] then -1
    else if p(xs[0]) then 0
    else
      var k := FirstIndex(xs[1..], p);
      assert forall j :: 1 <= j < |xs| ==> xs[j] == xs[1..][j - 1];
      if k == -1 then -1 else k + 1
  }

  /** The index of the first favourite with the shape, or -1. */
  function FirstWithShape(favs: seq<Favorite>, positions: seq<Selection>, tuningName: string): (k: int)
    ensures -1 <= k < |favs|
    ensures k == -1 <==> forall j :: 0 <= j < |favs| ==> !SameShape(favs[j], positions, tuningName)
    ensures k >= 0 ==> SameShape(favs[k], positions, tuningName)
                       && forall j :: 0 <= j < k ==> !SameShape(favs[j], positions, tuningName)
  {
    FirstIndex(favs, f => SameShape(f, positions, tuningName))
  }

  /**
   * getFavoriteIdByPositions: the id of the first favourite with the same
   * tuning name and string/fret pairs; present exactly when isFavorited holds.
   */
  function FavoriteIdByPositions(favs: seq<Favorite>, positions: seq<Selection>, tuningName: string): (r: Option<string>)
    ensures r.Some? <==> IsFavorited(favs, positions, tuningName)
    ensures r.Some? ==> exists k :: 0 <= k < |favs| && favs[k].id == r.value
                                    && SamePairs(favs[k], positions, tuningName)
                                    && forall j :: 0 <= j < k ==> !SamePairs(favs[j], positions, tuningName)
  {
    var k := FirstWithShape(favs, positions, tuningName);
    if k == -1 then None else Some(favs[k].id)
  }

  // ---------------------------------------------------------------------
  // Edits
  // ---------------------------------------------------------------------

  /** The index of the first favourite with the given id, or -1. */
  function FindFavorite(favs: seq<Favorite>, id: string): (r: int)
    ensures -1 <= r < |favs|
    ensures r == -1 <==> forall k :: 0 <= k < |favs| ==> favs[k].id != id
    ensures r >= 0 ==> favs[r].id == id && forall k :: 0 <= k < r ==> favs[k].id != id
  {
    FirstIndex(favs, (f: Favorite) => f.id == id)
  }

  /** The favourite saved by addFavorite: no custom name yet. */
  function NewFavorite(id: string, name: string, positions: seq<Selection>, tuningName: string, now: int): (r: Favorite)
    ensures r.id == id && r.customName == None
    ensures SameShape(r, positions, tuningName)
  {
    Favorite(id, name, None, tuningName, positions, now)
  }

  /**
   * removeFavorite on a list: only the first favourite with the id goes,
   * the others stay in order; without such a favourite nothing changes.
   */
  function Removed(favs: seq<Favorite>, id: string): (r: seq<Favorite>)
    ensures FindFavorite(favs, id) == -1 ==> r == favs
    ensures FindFavorite(favs, id) != -1 ==>
      |r| == |favs| - 1 && multiset(r) + multiset{favs[FindFavorite(favs, id)]} == multiset(favs)
    ensures forall i :: 0 <= i < |r| && i < FindFavorite(favs, id) ==> r[i] == favs[i]
    ensures forall i :: 0 <= i < |r| && FindFavorite(favs, id) != -1 && i >= FindFavorite(favs, id) ==> r[i] == favs[i + 1]
  {
    var k := FindFavorite(favs, id);
    if k != -1 then RemoveAt(favs, k) else favs
  }

  /**
   * updateCustomName on a list: only the first favourite with the id gets
   * the custom name, nothing else about it or the others changes.
   */
  function Renamed(favs: seq<Favorite>, id: string, customName: string): (r: seq<Favorite>)
    ensures |r| == |favs|
    ensures forall i :: 0 <= i < |favs| && i != FindFavorite(favs, id) ==> r[i] == favs[i]
    ensures FindFavorite(favs, id) != -1 ==>
      r[FindFavorite(favs, id)] == favs[FindFavorite(favs, id)].(customName := Some(customName))
  {
    var k := FindFavorite(favs, id);
    if k != -1 then favs[k := favs[k].(customName := Some(customName))] else favs
  }

  /** A shape just added is favourited. */
  lemma AddedIsFavorited(favs: seq<Favorite>, id: string, name: string, positions: seq<Selection>,
                         tuningName: string, now: int)
    ensures IsFavorited(favs + [NewFavorite(id, name, positions, tuningName, now)], positions, tuningName)
  {
    var all := favs + [NewFavorite(id, name, positions, tuningName, now)];
    assert all[|favs|].positions == positions;
  }

  /** Appending an element that satisfies `p` finds it only when nothing earlier does. */
  lemma FirstIndexAppend<T>(xs: seq<T>, x: T, p: T -> bool)
    requires p(x)
    ensures FirstIndex(xs + [x], p) == if FirstIndex(xs, p) == -1 then |xs| else FirstIndex(xs, p)
  {
    var ys := xs + [x];
    assert forall j :: 0 <= j < |xs| ==> ys[j] == xs[j];
    assert ys[|xs|] == x;
  }

  /** After an add, the shape's id is the earlier favourite's if there was one, else the new id. */
  lemma AddedFavoriteId(favs: seq<Favorite>, id: string, name: string,
                        positions: seq<Selection>, tuningName: string, now: int)
    ensures FavoriteIdByPositions(favs + [NewFavorite(id, name, positions, tuningName, now)], positions, tuningName)
      == if IsFavorited(favs, positions, tuningName) then FavoriteIdByPositions(favs, positions, tuningName) else Some(id)
  {
    var nf := NewFavorite(id, name, positions, tuningName, now);
    FirstIndexAppend(favs, nf, f => SameShape(f, positions, tuningName));
    var k := FirstWithShape(favs, positions, tuningName);
    if k != -1 {
      assert (favs + [nf])[k] == favs[k];
    }
  }

  /** Renaming never changes which shapes are favourited. */
  lemma RenameKeepsFavorited(favs: seq<Favorite>, id: string, customName: string,
                             positions: seq<Selection>, tuningName: string)
    ensures IsFavorited(Renamed(favs, id, customName), positions, tuningName) == IsFavorited(favs, positions, tuningName)
  {
    var r := Renamed(favs, id, customName);
    assert forall i :: 0 <= i < |favs| ==> r[i].positions == favs[i].positions && r[i].tuningName == favs[i].tuningName;
  }

  // ---------------------------------------------------------------------
  // The store
  // ---------------------------------------------------------------------

  class NotebookStore {
    var favorites: seq<Favorite>

    /** The store starts from the list saved earlier (read from storage by the caller). */
    constructor (saved: seq<Favorite>)
      ensures favorites == saved
    {
      favorites := saved;
    }

    /** addFavorite: appends one favourite; `id` and `now` stand for the fresh UUID and the clock. */
    method AddFavorite(name: string, positions: seq<Selection>, tuningName: string, id: string, now: int)
      modifies this
      ensures favorites == old(favorites) + [NewFavorite(id, name, positions, tuningName, now)]
      ensures IsFavorited(favorites, positions, tuningName)
    {
      favorites := favorites + [Favorite(id, name, None, tuningName, positions, now)];
      AddedIsFavorited(old(favorites), id, name, positions, tuningName, now);
    }

    /** removeFavorite: splices out the first favourite with the id, if any. */
    method RemoveFavorite(id: string)
      modifies this
      ensures favorites == Removed(old(favorites), id)
    {
      var index := FindFavorite(favorites, id);
      if index != -1 {
        favorites := RemoveAt(favorites, index);
      }
    }

    /** updateCustomName: sets the custom name of the first favourite with the id, if any. */
    method UpdateCustomName(id: string, customName: string)
      modifies this
      ensures favorites == Renamed(old(favorites), id, customName)
    {
      var index := FindFavorite(favorites, id);
      if index != -1 {
        favorites := favorites[index := favorites[index].(customName := Some(customName))];
      }
    }
  }
}
