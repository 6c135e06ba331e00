/**
 * The counting behind `randomize` in src/hexagon.ts, as functions of the cell values:
 * the sum of each combination, how many combinations share each sum (`rarity`), the sums
 * ordered by that count (`sortedByRarity`), and the combinations that hit one sum.
 */
module Analysis {
  import opened Topology

  /** The numbers of the letters of `c`, added from left to right as the `for ... of` loop does. */
  function LineSum(c: string, values: map<char, int>): int
    requires forall i :: 0 <= i < |c| ==> c[i] in values
  {
    if |c| == 0 then 0 else LineSum(c[..|c| - 1], values) + values[c[|c| - 1]]
  }

  /** Every letter of every combination has a value. */
  predicate Valued(combos: seq<string>, values: map<char, int>)
  {
    forall k, i :: 0 <= k < |combos| && 0 <= i < |combos[k]| ==> combos[k][i] in values
  }

  /** The sum of each combination, in the order of `combos`. */
  function LineSums(combos: seq<string>, values: map<char, int>): (r: seq<int>)
    requires Valued(combos, values)
    ensures |r| == |combos|
    ensures forall k :: 0 <= k < |combos| ==> r[k] == LineSum(combos[k], values)
  {
    if |combos| == 0 then [] else LineSums(combos[..|combos| - 1], values) + [LineSum(combos[|combos| - 1], values)]
  }

  /** The `sums` table: each combination mapped to its sum. */
  function SumsMap(combos: seq<string>, values: map<char, int>): map<string, int>
    requires Valued(combos, values)
  {
    if |combos| == 0 then map[]
    else
      var c := combos[|combos| - 1];
      SumsMap(combos[..|combos| - 1], values)[c := LineSum(c, values)]
  }

  /** The entries of a `sums` table read in the order of `combos`. */
  function SumsInOrder(combos: seq<string>, sums: map<string, int>): (r: seq<int>)
    requires forall c :: c in combos ==> c in sums
    ensures |r| == |combos|
    ensures forall k :: 0 <= k < |combos| ==> r[k] == sums[combos[k]]
  {
    if |combos| == 0 then [] else SumsInOrder(combos[..|combos| - 1], sums) + [sums[combos[|combos| - 1]]]
  }

  /** How often `x` occurs in `xs`. */
  function Count(xs: seq<int>, x: int): nat
  {
    if |xs| == 0 then 0 else Count(xs[..|xs| - 1], x) + (if xs[|xs| - 1] == x then 1 else 0)
  }

  /**
   * The `rarity` table built by the counting loop: for each sum met, a counter that
   * starts at 0 the first time and is incremented every time.
   */
  function Tally(xs: seq<int>): map<int, nat>
  {
    if |xs| == 0 then map[]
    else
      Counted(Tally(xs[..|xs| - 1]), xs[|xs| - 1])
  }

  /** The counter update of `randomize`: the counter of `x` is created at 0 when missing, then incremented. */
  function Counted(m: map<int, nat>, x: int): map<int, nat>
  {
    m[x := (if x in m then m[x] else 0) + 1]
  }

  /** The distinct elements of `xs` in the order they first occur. */
  function Keys(xs: seq<int>): seq<int>
  {
    if |xs| == 0 then []
    else
      var ks := Keys(xs[..|xs| - 1]);
      var x := xs[|xs| - 1];
      if x in xs[..|xs| - 1] then ks else ks + [x]
  }

  /** The counts of the keys `ks` added up. */
  function SumOfCounts(ks: seq<int>, m: map<int, nat>): int
    requires forall i :: 0 <= i < |ks| ==> ks[i] in m
  {
    if |ks| == 0 then 0 else SumOfCounts(ks[..|ks| - 1], m) + m[ks[|ks| - 1]]
  }

  /** `s` lists keys of `m` with non-increasing counts. */
  predicate ByCountDescending(s: seq<int>, m: map<int, nat>)
  {
    (forall i :: 0 <= i < |s| ==> s[i] in m) &&
    forall i, j :: 0 <= i < j < |s| ==> m[s[i]] >= m[s[j]]
  }

  /**
   * Inserts `k` into `sorted` after every key whose count is at least `k`'s, the position a
   * binary insertion with the comparator `(a, b) => a[1] > b[1] ? -1 : 1` settles on.
   */
  function InsertByCount(k: int, sorted: seq<int>, m: map<int, nat>): (r: seq<int>)
    requires k in m && ByCountDescending(sorted, m)
    ensures multiset(r) == multiset(sorted) + multiset{k}
    ensures ByCountDescending(r, m)
  {
    if |sorted| == 0 then [k]
    else if m[sorted[0]] >= m[k] then
      var rest := InsertByCount(k, sorted[1..], m);
      assert sorted == [sorted[0]] + sorted[1..];
      InsertAfter(sorted[0], k, sorted[1..], rest, m);
      [sorted[0]] + rest
    else
      [k] + sorted
  }

  /** Putting `s0` in front keeps the order when its count is at least that of every key behind it. */
  lemma InsertAfter(s0: int, k: int, tail: seq<int>, rest: seq<int>, m: map<int, nat>)
    requires s0 in m && k in m && m[s0] >= m[k]
    requires ByCountDescending([s0] + tail, m) && ByCountDescending(rest, m)
    requires multiset(rest) == multiset(tail) + multiset{k}
    ensures ByCountDescending([s0] + rest, m)
  {
    forall j | 0 <= j < |rest|
      ensures m[s0] >= m[rest[j]]
    {
      assert rest[j] in multiset(rest);
      if rest[j] != k {
        assert rest[j] in tail;
        var i :| 0 <= i < |tail| && tail[i] == rest[j];
        assert ([s0] + tail)[0] == s0 && ([s0] + tail)[i + 1] == tail[i];
      }
    }
    var r := [s0] + rest;
    forall i, j | 0 <= i < j < |r|
      ensures m[r[i]] >= m[r[j]]
    {
      if i > 0 {
        assert r[i] == rest[i - 1] && r[j] == rest[j - 1];
      }
    }
  }

  /** The keys `ks` sorted by non-increasing count, each inserted in turn into the keys before it. */
  function SortByCount(ks: seq<int>, m: map<int, nat>): (r: seq<int>)
    requires forall i :: 0 <= i < |ks| ==> ks[i] in m
    ensures multiset(r) == multiset(ks)
    ensures ByCountDescending(r, m)
  {
    if |ks| == 0 then []
    else
      assert ks == ks[..|ks| - 1] + [ks[|ks| - 1]];
      InsertByCount(ks[|ks| - 1], SortByCount(ks[..|ks| - 1], m), m)
  }

  /** The combinations whose entry in `sums` is `t`, in the order of `combos`: the `giveUp` filter. */
  function Matching(combos: seq<string>, sums: map<string, int>, t: int): seq<string>
  {
    if |combos| == 0 then []
    else
      var c := combos[|combos| - 1];
      Matching(combos[..|combos| - 1], sums, t) + (if c in sums && sums[c] == t then [c] else [])
  }

  // ---------------------------------------------------------------------------
  // Lemmas

  /** A line whose cells hold numbers in [lo, hi] sums to between |c| * lo and |c| * hi. */
  lemma {:induction false} LineSumBounds(c: string, values: map<char, int>, lo: int, hi: int)
    requires forall i :: 0 <= i < |c| ==> c[i] in values && lo <= values[c[i]] <= hi
    ensures |c| * lo <= LineSum(c, values) <= |c| * hi
  {
    if |c| > 0 {
      LineSumBounds(c[..|c| - 1], values, lo, hi);
    }
  }

  /** The `sums` table has exactly the combinations as keys, each mapped to its own sum. */
  lemma {:induction false} SumsMapEntries(combos: seq<string>, values: map<char, int>)
    requires Valued(combos, values)
    ensures SumsMap(combos, values).Keys == set c | c in combos
    ensures forall c :: c in combos ==> SumsMap(combos, values)[c] == LineSum(c, values)
  {
    if |combos| > 0 {
      var init := combos[..|combos| - 1];
      SumsMapEntries(init, values);
      assert forall c :: c in combos <==> c in init || c == combos[|combos| - 1];
    }
  }

  /** Reading the `sums` table in combination order gives the sums of the combinations. */
  lemma SumsInOrderOfSumsMap(combos: seq<string>, values: map<char, int>)
    requires Valued(combos, values)
    ensures forall c :: c in combos ==> c in SumsMap(combos, values)
    ensures SumsInOrder(combos, SumsMap(combos, values)) == LineSums(combos, values)
  {
    SumsMapEntries(combos, values);
  }

  /** One more combination: its sum is appended to the sums and entered in the `sums` table. */
  lemma NextCombination(combos: seq<string>, j: nat, values: map<char, int>)
    requires Valued(combos, values) && j < |combos|
    ensures Valued(combos[..j], values) && Valued(combos[..j + 1], values)
    ensures forall i :: 0 <= i < |combos[j]| ==> combos[j][i] in values
    ensures LineSums(combos[..j + 1], values) == LineSums(combos[..j], values) + [LineSum(combos[j], values)]
    ensures SumsMap(combos[..j + 1], values) == SumsMap(combos[..j], values)[combos[j] := LineSum(combos[j], values)]
  {
    assert combos[..j + 1][..j] == combos[..j];
  }

  /** One more sum: its counter is created at 0 if new, then incremented; a new sum joins the keys. */
  lemma NextTally(xs: seq<int>, x: int)
    ensures x in Tally(xs) <==> x in xs
    ensures Tally(xs + [x]) == Counted(Tally(xs), x)
    ensures Keys(xs + [x]) == if x in Tally(xs) then Keys(xs) else Keys(xs) + [x]
  {
    TallyCounts(xs);
    assert (xs + [x])[..|xs|] == xs;
  }

  /** A sum is a key of `rarity` iff some combination has it, and its entry is how many do. */
  lemma {:induction false} TallyCounts(xs: seq<int>)
    ensures forall x :: x in Tally(xs) <==> x in xs
    ensures forall x :: x in Tally(xs) ==> Tally(xs)[x] == Count(xs, x)
    ensures forall x :: x !in xs ==> Count(xs, x) == 0
    ensures forall x :: x in xs ==> Count(xs, x) > 0
  {
    if |xs| > 0 {
      var init := xs[..|xs| - 1];
      TallyCounts(init);
      assert forall x :: x in xs <==> x in init || x == xs[|xs| - 1];
    }
  }

  /** The keys are listed once each, and they are the elements of `xs`. */
  lemma {:induction false} KeysAreElements(xs: seq<int>)
    ensures Distinct(Keys(xs))
    ensures forall x :: x in Keys(xs) <==> x in xs
  {
    if |xs| > 0 {
      var init := xs[..|xs| - 1];
      KeysAreElements(init);
      assert forall x :: x in xs <==> x in init || x == xs[|xs| - 1];
    }
  }

  lemma {:induction false} SumOfCountsUnchanged(ks: seq<int>, m: map<int, nat>, x: int, v: nat)
    requires forall i :: 0 <= i < |ks| ==> ks[i] in m
    requires x !in ks
    ensures SumOfCounts(ks, m[x := v]) == SumOfCounts(ks, m)
  {
    if |ks| > 0 {
      SumOfCountsUnchanged(ks[..|ks| - 1], m, x, v);
    }
  }

  lemma {:induction false} SumOfCountsBump(ks: seq<int>, m: map<int, nat>, x: int)
    requires forall i :: 0 <= i < |ks| ==> ks[i] in m
    requires Distinct(ks) && x in ks
    ensures SumOfCounts(ks, m[x := m[x] + 1]) == SumOfCounts(ks, m) + 1
  {
    var init := ks[..|ks| - 1];
    var last := ks[|ks| - 1];
    if last == x {
      assert x !in init;
      SumOfCountsUnchanged(init, m, x, m[x] + 1);
    } else {
      assert x in init;
      assert Distinct(init) by {
        forall i, j | 0 <= i < j < |init| ensures init[i] != init[j] {
          assert init[i] == ks[i] && init[j] == ks[j];
        }
      }
      SumOfCountsBump(init, m, x);
    }
  }

  /** The counts of `rarity` add up to the number of combinations. */
  lemma {:induction false} TallyAddsUp(xs: seq<int>)
    ensures forall i :: 0 <= i < |Keys(xs)| ==> Keys(xs)[i] in Tally(xs)
    ensures SumOfCounts(Keys(xs), Tally(xs)) == |xs|
  {
    KeysAreElements(xs);
    TallyCounts(xs);
    if |xs| > 0 {
      var init := xs[..|xs| - 1];
      var x := xs[|xs| - 1];
      TallyAddsUp(init);
      KeysAreElements(init);
      TallyCounts(init);
      var m := Tally(init);
      if x in init {
        SumOfCountsBump(Keys(init), m, x);
      } else {
        SumOfCountsUnchanged(Keys(init), m, x, 1);
        assert Keys(xs) == Keys(init) + [x];
        assert Keys(xs)[..|Keys(xs)| - 1] == Keys(init);
      }
    }
  }

  /** `giveUp` lists as many combinations as `rarity` counts for the target. */
  lemma {:induction false} MatchingCount(combos: seq<string>, sums: map<string, int>, t: int)
    requires forall c :: c in combos ==> c in sums
    ensures |Matching(combos, sums, t)| == Count(SumsInOrder(combos, sums), t)
  {
    if |combos| > 0 {
      var init := combos[..|combos| - 1];
      MatchingCount(init, sums, t);
      assert SumsInOrder(combos, sums)[..|combos| - 1] == SumsInOrder(init, sums);
    }
  }

  /** A combination is listed by `giveUp` iff its sum is the target. */
  lemma {:induction false} MatchingMembers(combos: seq<string>, sums: map<string, int>, t: int)
    ensures forall c :: c in Matching(combos, sums, t) <==> c in combos && c in sums && sums[c] == t
  {
    if |combos| > 0 {
      var init := combos[..|combos| - 1];
      MatchingMembers(init, sums, t);
      assert forall c :: c in combos <==> c in init || c == combos[|combos| - 1];
    }
  }

  /** `giveUp` lists no combination twice when the combinations are distinct. */
  lemma {:induction false} MatchingDistinct(combos: seq<string>, sums: map<string, int>, t: int)
    requires Distinct(combos)
    ensures Distinct(Matching(combos, sums, t))
  {
    if |combos| > 0 {
      var init := combos[..|combos| - 1];
      var c := combos[|combos| - 1];
      assert Distinct(init) by {
        forall i, j | 0 <= i < j < |init| ensures init[i] != init[j] {
          assert init[i] == combos[i] && init[j] == combos[j];
        }
      }
      MatchingDistinct(init, sums, t);
      MatchingMembers(init, sums, t);
      assert c !in init;
      DistinctConcat(Matching(init, sums, t), if c in sums && sums[c] == t then [c] else []);
    }
  }

  /** A list without repeats has as many distinct elements as entries. */
  lemma {:induction false} DistinctCard<T>(s: seq<T>)
    requires Distinct(s)
    ensures |set x | x in s| == |s|
  {
    if |s| > 0 {
      var init := s[..|s| - 1];
      var x := s[|s| - 1];
      assert Distinct(init) by {
        forall i, j | 0 <= i < j < |init| ensures init[i] != init[j] {
          assert init[i] == s[i] && init[j] == s[j];
        }
      }
      DistinctCard(init);
      assert x !in init;
      assert (set y | y in s) == (set y | y in init) + {x};
    }
  }

  /** An element of a list without repeats occurs in it once. */
  lemma {:induction false} DistinctOnce<T>(s: seq<T>, x: T)
    requires Distinct(s)
    ensures multiset(s)[x] <= 1
  {
    if |s| > 0 {
      var init := s[..|s| - 1];
      assert s == init + [s[|s| - 1]];
      assert Distinct(init) by {
        forall i, j | 0 <= i < j < |init| ensures init[i] != init[j] {
          assert init[i] == s[i] && init[j] == s[j];
        }
      }
      DistinctOnce(init, x);
      if x == s[|s| - 1] {
        assert x !in init;
      }
    }
  }

  /**
   * The tables `randomize` builds from `values`: each combination mapped to its sum, the
   * count of each sum, and the sums that occur ordered by decreasing count.
   */
  ghost predicate Tables(combos: seq<string>, values: map<char, int>, sums: map<string, int>, rarity: map<int, nat>, sorted: seq<int>)
  {
    Valued(combos, values) &&
    var lineSums := LineSums(combos, values);
    sums == SumsMap(combos, values) &&
    rarity == Tally(lineSums) &&
    (forall i :: 0 <= i < |Keys(lineSums)| ==> Keys(lineSums)[i] in rarity) &&
    sorted == SortByCount(Keys(lineSums), rarity)
  }

  /**
   * What a round reads of the tables: a sum for every combination and for nothing else, `rarity` counting the
   * entries of `sums`, and `sorted` listing each counted sum exactly once, by non-increasing count.
   */
  ghost predicate Consistent(combos: seq<string>, sums: map<string, int>, rarity: map<int, nat>, sorted: seq<int>)
  {
    (forall c :: c in sums <==> c in combos) &&
    rarity == Tally(SumsInOrder(combos, sums)) &&
    Distinct(sorted) &&
    (forall s :: s in sorted <==> s in rarity) &&
    ByCountDescending(sorted, rarity)
  }

  /** Tables built from the numbers agree with one another. */
  lemma TablesAgree(combos: seq<string>, values: map<char, int>, sums: map<string, int>, rarity: map<int, nat>, sorted: seq<int>)
    requires Tables(combos, values, sums, rarity, sorted)
    ensures Consistent(combos, sums, rarity, sorted)
  {
    var lineSums := LineSums(combos, values);
    SumsMapEntries(combos, values);
    SumsInOrderOfSumsMap(combos, values);
    KeysAreElements(lineSums);
    TallyCounts(lineSums);
    PermutationKeepsDistinct(Keys(lineSums), sorted);
  }

  /** A rearrangement of a list without repeats has the same elements and no repeats. */
  lemma PermutationKeepsDistinct<T>(s: seq<T>, t: seq<T>)
    requires Distinct(s) && multiset(t) == multiset(s)
    ensures Distinct(t)
    ensures forall x :: x in t <==> x in s
  {
    forall x
      ensures x in t <==> x in s
    {
      assert x in t <==> x in multiset(t);
      assert x in s <==> x in multiset(s);
    }
    forall i, j | 0 <= i < j < |t|
      ensures t[i] != t[j]
    {
      if t[i] == t[j] {
        var x := t[i];
        assert t == t[..i] + [x] + t[i + 1..j] + [x] + t[j + 1..];
        assert multiset(t)[x] >= 2;
        DistinctOnce(s, x);
      }
    }
  }

  /** `sums`, `rarity` and `entries` are the tables of the first `j` combinations. */
  ghost predicate TabulatedUpTo(combos: seq<string>, j: nat, values: map<char, int>, sums: map<string, int>, rarity: map<int, nat>, entries: seq<int>)
  {
    j <= |combos| && Valued(combos[..j], values) &&
    sums == SumsMap(combos[..j], values) &&
    rarity == Tally(LineSums(combos[..j], values)) &&
    entries == Keys(LineSums(combos[..j], values))
  }

  /** One iteration of the tabulating loop: the sum `s` of the next combination is recorded and counted. */
  lemma TabulateStep(combos: seq<string>, j: nat, values: map<char, int>, sums: map<string, int>, rarity: map<int, nat>, entries: seq<int>, s: int)
    requires Valued(combos, values) && j < |combos|
    requires TabulatedUpTo(combos, j, values, sums, rarity, entries)
    requires s == LineSum(combos[j], values)
    ensures TabulatedUpTo(combos, j + 1, values, sums[combos[j] := s], Counted(rarity, s), if s in rarity then entries else entries + [s])
  {
    NextCombination(combos, j, values);
    NextTally(LineSums(combos[..j], values), s);
  }

  /** The letters of each combination have values. */
  lemma ValuedAt(combos: seq<string>, j: nat, values: map<char, int>)
    requires Valued(combos, values) && j < |combos|
    ensures forall i :: 0 <= i < |combos[j]| ==> combos[j][i] in values
  {
  }

  /** After the last combination the loop has built the tables, and they agree with one another. */
  lemma TabulateDone(combos: seq<string>, values: map<char, int>, sums: map<string, int>, rarity: map<int, nat>, entries: seq<int>)
    requires Valued(combos, values)
    requires TabulatedUpTo(combos, |combos|, values, sums, rarity, entries)
    ensures forall i :: 0 <= i < |entries| ==> entries[i] in rarity
    ensures Tables(combos, values, sums, rarity, SortByCount(entries, rarity))
    ensures Consistent(combos, sums, rarity, SortByCount(entries, rarity))
  {
    assert combos[..|combos|] == combos;
    TallyAddsUp(LineSums(combos, values));
    TablesAgree(combos, values, sums, rarity, SortByCount(entries, rarity));
  }

  // ---------------------------------------------------------------------------
  // What the tables mean

  /** `sums` has exactly the combinations as keys, each mapped to the sum of its cells' numbers. */
  lemma SumsOfTables(combos: seq<string>, values: map<char, int>, sums: map<string, int>, rarity: map<int, nat>, sorted: seq<int>)
    requires Tables(combos, values, sums, rarity, sorted)
    ensures forall c :: c in sums <==> c in combos
    ensures forall c :: c in combos ==> sums[c] == LineSum(c, values)
  {
    SumsMapEntries(combos, values);
  }

  /**
   * `rarity[s]` is the number of combinations whose sum is `s` (the length of the `giveUp`
   * list for `s`), and only sums that occur are keys.
   */
  lemma RarityOfTables(combos: seq<string>, sums: map<string, int>, rarity: map<int, nat>, sorted: seq<int>)
    requires Consistent(combos, sums, rarity, sorted)
    ensures forall s :: s in rarity <==> |Matching(combos, sums, s)| > 0
    ensures forall s :: s in rarity ==> rarity[s] == |Matching(combos, sums, s)|
  {
    TallyCounts(SumsInOrder(combos, sums));
    forall s
      ensures s in rarity <==> |Matching(combos, sums, s)| > 0
      ensures s in rarity ==> rarity[s] == |Matching(combos, sums, s)|
    {
      MatchingCount(combos, sums, s);
    }
  }

  /** The counts in `rarity`, read in the order of `sorted`, add up to the number of combinations. */
  lemma CountsAddUp(combos: seq<string>, values: map<char, int>, sums: map<string, int>, rarity: map<int, nat>, sorted: seq<int>)
    requires Tables(combos, values, sums, rarity, sorted)
    ensures forall i :: 0 <= i < |sorted| ==> sorted[i] in rarity
    ensures SumOfCounts(sorted, rarity) == |combos|
  {
    var lineSums := LineSums(combos, values);
    TallyAddsUp(lineSums);
    assert multiset(sorted) == multiset(Keys(lineSums));
    forall i | 0 <= i < |sorted|
      ensures sorted[i] in rarity
    {
      assert sorted[i] in multiset(Keys(lineSums));
    }
    SumOfCountsPermutation(Keys(lineSums), sorted, rarity);
  }

  /** `sortedByRarity` lists every key of `rarity` exactly once, by non-increasing count. */
  lemma SortedOfTables(combos: seq<string>, values: map<char, int>, sums: map<string, int>, rarity: map<int, nat>, sorted: seq<int>)
    requires Tables(combos, values, sums, rarity, sorted)
    ensures Distinct(sorted) && forall s :: s in sorted <==> s in rarity
    ensures forall i, j :: 0 <= i < j < |sorted| ==> rarity[sorted[i]] >= rarity[sorted[j]]
  {
    TablesAgree(combos, values, sums, rarity, sorted);
  }

  /** Adding up counts does not depend on the order of the keys. */
  lemma {:induction false} SumOfCountsPermutation(ks: seq<int>, ls: seq<int>, m: map<int, nat>)
    requires forall i :: 0 <= i < |ks| ==> ks[i] in m
    requires multiset(ls) == multiset(ks)
    ensures forall i :: 0 <= i < |ls| ==> ls[i] in m
    ensures SumOfCounts(ls, m) == SumOfCounts(ks, m)
    decreases |ks|
  {
    SameElements(ks, ls, m);
    if |ks| > 0 {
      var x := ks[|ks| - 1];
      var init := ks[..|ks| - 1];
      RemoveAt(ks, |ks| - 1);
      assert Without(ks, |ks| - 1) == init;
      assert x in multiset(ls);
      var i :| 0 <= i < |ls| && ls[i] == x;
      var rest := Without(ls, i);
      RemoveAt(ls, i);
      Cancel(multiset(rest), multiset(init), x);
      SumOfCountsPermutation(init, rest, m);
      SumOfCountsRemove(ls, i, m);
    }
  }

  /** Two multisets equal after adding the same element were equal before. */
  lemma Cancel<T>(a: multiset<T>, b: multiset<T>, x: T)
    requires a + multiset{x} == b + multiset{x}
    ensures a == b
  {
    assert a == (a + multiset{x}) - multiset{x};
    assert b == (b + multiset{x}) - multiset{x};
  }

  /** Lists with the same multiset hold the same keys. */
  lemma SameElements(ks: seq<int>, ls: seq<int>, m: map<int, nat>)
    requires forall i :: 0 <= i < |ks| ==> ks[i] in m
    requires multiset(ls) == multiset(ks)
    ensures forall i :: 0 <= i < |ls| ==> ls[i] in m
  {
    forall i | 0 <= i < |ls|
      ensures ls[i] in m
    {
      assert ls[i] in multiset(ks);
    }
  }

  /** Taking the key at `i` out of the list takes its count out of the sum. */
  lemma SumOfCountsRemove(ls: seq<int>, i: int, m: map<int, nat>)
    requires 0 <= i < |ls|
    requires forall j :: 0 <= j < |ls| ==> ls[j] in m
    ensures forall j :: 0 <= j < |ls| - 1 ==> Without(ls, i)[j] in m
    ensures SumOfCounts(ls, m) == SumOfCounts(Without(ls, i), m) + m[ls[i]]
  {
    var front := ls[..i] + [ls[i]];
    assert ls == front + ls[i + 1..];
    assert front[..|front| - 1] == ls[..i];
    SumOfCountsConcat(front, ls[i + 1..], m);
    SumOfCountsConcat(ls[..i], ls[i + 1..], m);
  }

  /** `ls` with the element at `i` taken out. */
  function Without(ls: seq<int>, i: int): (r: seq<int>)
    requires 0 <= i < |ls|
    ensures |r| == |ls| - 1
  {
    ls[..i] + ls[i + 1..]
  }

  /** Taking out the element at `i` takes it out of the multiset. */
  lemma RemoveAt(ls: seq<int>, i: int)
    requires 0 <= i < |ls|
    ensures multiset(ls) == multiset(Without(ls, i)) + multiset{ls[i]}
  {
    assert ls == ls[..i] + [ls[i]] + ls[i + 1..];
  }

  /** Adding up the counts of two lists of keys one after the other. */
  lemma {:induction false} SumOfCountsConcat(ks: seq<int>, ls: seq<int>, m: map<int, nat>)
    requires forall i :: 0 <= i < |ks| ==> ks[i] in m
    requires forall i :: 0 <= i < |ls| ==> ls[i] in m
    ensures forall i :: 0 <= i < |ks + ls| ==> (ks + ls)[i] in m
    ensures SumOfCounts(ks + ls, m) == SumOfCounts(ks, m) + SumOfCounts(ls, m)
  {
    if |ls| == 0 {
      assert ks + ls == ks;
    } else {
      var init := ls[..|ls| - 1];
      assert (ks + ls)[..|ks + ls| - 1] == ks + init;
      SumOfCountsConcat(ks, init, m);
    }
  }
}
