/**
 * The selection of src/app.tsx: the letters of the clicked cells kept as one string.
 * Adding a letter is `Array.from(combo + letter).sort().join("")`, removing one is
 * `combo.replace(letter, "")`.
 */
module Selection {
  import opened Topology
  import opened Analysis

  /** Letters never decrease from left to right: the order `sort()` leaves single letters in. */
  predicate Ascending(s: string)
  {
    forall i, j :: 0 <= i < j < |s| ==> s[i] <= s[j]
  }

  /** Puts `c` into the ascending string `s`, after the letters not above it. */
  function Insert(s: string, c: char): string
  {
    if |s| == 0 || c < s[0] then [c] + s else [s[0]] + Insert(s[1..], c)
  }

  /** `Array.from(s).sort().join("")` on letters: the letters of `s` inserted one by one from the left. */
  function Sort(s: string): string
  {
    if |s| == 0 then "" else Insert(Sort(s[..|s| - 1]), s[|s| - 1])
  }

  /** `s.replace(c, "")`: `s` without the first occurrence of `c`, or `s` itself when `c` does not occur. */
  function RemoveFirst(s: string, c: char): string
  {
    if |s| == 0 then s else if s[0] == c then s[1..] else [s[0]] + RemoveFirst(s[1..], c)
  }

  // ---------------------------------------------------------------------------
  // Lemmas

  /** Inserting adds `c` to the letters and keeps all the others. */
  lemma {:induction false} InsertLetters(s: string, c: char)
    ensures multiset(Insert(s, c)) == multiset(s) + multiset{c}
    ensures forall x :: x in Insert(s, c) <==> x == c || x in s
  {
    if |s| > 0 && c >= s[0] {
      InsertLetters(s[1..], c);
      assert s == [s[0]] + s[1..];
    }
  }

  /** Sorting rearranges the letters and keeps them all. */
  lemma {:induction false} SortLetters(s: string)
    ensures multiset(Sort(s)) == multiset(s)
  {
    if |s| > 0 {
      SortLetters(s[..|s| - 1]);
      InsertLetters(Sort(s[..|s| - 1]), s[|s| - 1]);
      assert s == s[..|s| - 1] + [s[|s| - 1]];
    }
  }

  /** Removing takes one `c` out of the letters when there is one, and changes nothing otherwise. */
  lemma {:induction false} RemoveLetters(s: string, c: char)
    ensures c in s ==> multiset(RemoveFirst(s, c)) == multiset(s) - multiset{c}
    ensures c !in s ==> RemoveFirst(s, c) == s
    ensures forall x :: x in RemoveFirst(s, c) ==> x in s
  {
    if |s| > 0 {
      assert s == [s[0]] + s[1..];
      if s[0] != c {
        RemoveLetters(s[1..], c);
      }
    }
  }

  /** A letter not above any letter of an ascending string can go in front of it. */
  lemma ConsAscending(x: char, s: string)
    requires Ascending(s) && forall y :: y in s ==> x <= y
    ensures Ascending([x] + s)
  {
    forall i, j | 0 <= i < j < |s| + 1
      ensures ([x] + s)[i] <= ([x] + s)[j]
    {
      assert ([x] + s)[j] == s[j - 1];
      if i > 0 {
        assert ([x] + s)[i] == s[i - 1];
      } else {
        assert s[j - 1] in s;
      }
    }
  }

  /** A letter below every letter of an increasing string can go in front of it. */
  lemma ConsIncreasing(x: char, s: string)
    requires Increasing(s) && forall y :: y in s ==> x < y
    ensures Increasing([x] + s)
  {
    forall i, j | 0 <= i < j < |s| + 1
      ensures ([x] + s)[i] < ([x] + s)[j]
    {
      assert ([x] + s)[j] == s[j - 1];
      if i > 0 {
        assert ([x] + s)[i] == s[i - 1];
      } else {
        assert s[j - 1] in s;
      }
    }
  }

  /** Inserting keeps a string ascending. */
  lemma {:induction false} InsertAscends(s: string, c: char)
    requires Ascending(s)
    ensures Ascending(Insert(s, c))
  {
    if |s| == 0 || c < s[0] {
      ConsAscending(c, s);
    } else {
      InsertAscends(s[1..], c);
      InsertLetters(s[1..], c);
      ConsAscending(s[0], Insert(s[1..], c));
    }
  }

  /** Inserting a new letter keeps a string strictly increasing. */
  lemma {:induction false} InsertIncreases(s: string, c: char)
    requires Increasing(s) && c !in s
    ensures Increasing(Insert(s, c))
  {
    if |s| == 0 || c < s[0] {
      ConsIncreasing(c, s);
    } else {
      assert c != s[0];
      InsertIncreases(s[1..], c);
      InsertLetters(s[1..], c);
      ConsIncreasing(s[0], Insert(s[1..], c));
    }
  }

  /** Removing a letter keeps a string strictly increasing. */
  lemma {:induction false} RemoveIncreases(s: string, c: char)
    requires Increasing(s)
    ensures Increasing(RemoveFirst(s, c))
  {
    if |s| > 0 && s[0] != c {
      RemoveIncreases(s[1..], c);
      RemoveLetters(s[1..], c);
      ConsIncreasing(s[0], RemoveFirst(s[1..], c));
    }
  }

  /** Sorting gives an ascending string. */
  lemma {:induction false} SortAscends(s: string)
    ensures Ascending(Sort(s))
  {
    if |s| > 0 {
      SortAscends(s[..|s| - 1]);
      InsertAscends(Sort(s[..|s| - 1]), s[|s| - 1]);
    }
  }

  /** A letter not below any letter of `s` goes to the end. */
  lemma {:induction false} InsertLast(s: string, c: char)
    requires Ascending(s) && forall i :: 0 <= i < |s| ==> s[i] <= c
    ensures Insert(s, c) == s + [c]
  {
    if |s| > 0 {
      InsertLast(s[1..], c);
    }
  }

  /** Sorting an ascending string leaves it as it is. */
  lemma {:induction false} SortKeepsSorted(s: string)
    requires Ascending(s)
    ensures Sort(s) == s
  {
    if |s| > 0 {
      var init := s[..|s| - 1];
      SortKeepsSorted(init);
      InsertLast(init, s[|s| - 1]);
      assert init + [s[|s| - 1]] == s;
    }
  }

  /** The `click` step on a sorted selection: sorting after appending `c` is inserting `c`. */
  lemma AddToSelection(s: string, c: char)
    requires Ascending(s)
    ensures Sort(s + [c]) == Insert(s, c)
  {
    assert (s + [c])[..|s|] == s;
    SortKeepsSorted(s);
  }

  /** The last letter of an ascending string is its largest. */
  lemma LastIsLargest(s: string, x: char)
    requires Ascending(s) && x in s
    ensures x <= s[|s| - 1]
  {
    var i :| 0 <= i < |s| && s[i] == x;
  }

  /** Dropping the last letter keeps a string ascending and takes that letter out of its multiset. */
  lemma DropLast(s: string)
    requires Ascending(s) && |s| > 0
    ensures Ascending(s[..|s| - 1])
    ensures multiset(s) == multiset(s[..|s| - 1]) + multiset{s[|s| - 1]}
  {
    assert s == s[..|s| - 1] + [s[|s| - 1]];
  }

  /** Two ascending strings with the same letters are the same string. */
  lemma {:induction false} SameLettersSameString(a: string, b: string)
    requires Ascending(a) && Ascending(b) && multiset(a) == multiset(b)
    ensures a == b
    decreases |a|
  {
    assert |a| == |multiset(a)| && |b| == |multiset(b)|;
    if |a| > 0 {
      var x, y := a[|a| - 1], b[|b| - 1];
      assert x in multiset(b) && y in multiset(a);
      LastIsLargest(b, x);
      LastIsLargest(a, y);
      var a', b' := a[..|a| - 1], b[..|b| - 1];
      DropLast(a);
      DropLast(b);
      Cancel(multiset(a'), multiset(b'), x);
      SameLettersSameString(a', b');
    }
  }

  /** A strictly increasing string is ascending. */
  lemma IncreasingAscends(s: string)
    requires Increasing(s)
    ensures Ascending(s)
  {
  }

  /** Taking one `c` out of a multiset that holds it and putting it back gives the multiset back. */
  lemma PutBack(m: multiset<char>, c: char)
    requires c in m
    ensures m - multiset{c} + multiset{c} == m
  {
  }

  /** Removing a letter of the selection and clicking it again gives the selection back. */
  lemma RemoveThenAdd(s: string, c: char)
    requires Increasing(s) && c in s
    ensures Sort(RemoveFirst(s, c) + [c]) == s
  {
    var r := RemoveFirst(s, c);
    RemoveIncreases(s, c);
    IncreasingAscends(r);
    IncreasingAscends(s);
    AddToSelection(r, c);
    InsertAscends(r, c);
    InsertLetters(r, c);
    RemoveLetters(s, c);
    PutBack(multiset(s), c);
    SameLettersSameString(Insert(r, c), s);
  }

  /** Adding a new letter and clicking it again gives the selection back. */
  lemma AddThenRemove(s: string, c: char)
    requires Increasing(s) && c !in s
    ensures RemoveFirst(Sort(s + [c]), c) == s
  {
    IncreasingAscends(s);
    AddToSelection(s, c);
    InsertIncreases(s, c);
    InsertLetters(s, c);
    var r := RemoveFirst(Insert(s, c), c);
    RemoveLetters(Insert(s, c), c);
    RemoveIncreases(Insert(s, c), c);
    IncreasingAscends(r);
    assert multiset(r) == multiset(s) + multiset{c} - multiset{c};
    SameLettersSameString(r, s);
  }

  /** What clicking a new letter does to a selection: it is inserted in its place, and the selection grows by one. */
  lemma AddLetter(s: string, c: char)
    requires Increasing(s) && c !in s
    ensures Sort(s + [c]) == Insert(s, c)
    ensures Increasing(Insert(s, c)) && |Insert(s, c)| == |s| + 1
    ensures forall x :: x in Insert(s, c) <==> x == c || x in s
  {
    IncreasingAscends(s);
    AddToSelection(s, c);
    InsertIncreases(s, c);
    InsertLetters(s, c);
    assert |multiset(Insert(s, c))| == |multiset(s)| + 1;
  }

  /** What clicking a selected letter does: it is taken out, and the selection shrinks by one. */
  lemma DropLetter(s: string, c: char)
    requires Increasing(s) && c in s
    ensures Increasing(RemoveFirst(s, c)) && |RemoveFirst(s, c)| == |s| - 1
    ensures c !in RemoveFirst(s, c) && forall x :: x in RemoveFirst(s, c) ==> x in s
  {
    RemoveIncreases(s, c);
    RemoveLetters(s, c);
    assert |multiset(RemoveFirst(s, c))| == |multiset(s)| - 1;
    assert Distinct(s);
    DistinctOnce(s, c);
    assert multiset(RemoveFirst(s, c))[c] == 0;
  }

  /**
   * Whatever order the three cells of a line are selected in, the selection is the line's
   * combination id, the key it has in `sums`.
   */
  lemma SelectionIsId(p: string, t: string)
    requires t in Combinations() && multiset(p) == multiset(t)
    ensures Sort(p) == t
  {
    CombinationIdsIncrease(t);
    IncreasingAscends(t);
    SortAscends(p);
    SortLetters(p);
    SameLettersSameString(Sort(p), t);
  }
}
