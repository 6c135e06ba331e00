/**
 * The fixed shape of the hexagon board built by `generateHexagon` in src/hexagon.ts:
 * five rows of lettered cells, three directional links per cell, and the straight
 * lines of three cells ("combinations") that follow one direction twice.
 */
module Topology {
  import opened Wrappers

  /** The link directions, in the numeric order of the `directions` enum. */
  datatype Direction = DownLeft | DownRight | Right

  /** The directions the enumeration visits for each cell, in that order. */
  const Directions: seq<Direction> := [DownLeft, DownRight, Right]

  /** The row layout `"abc|defg|hijkl|mnop|qrs"` split at the bars. */
  const Rows: seq<string> := ["abc", "defg", "hijkl", "mnop", "qrs"]

  /** Every cell letter, `a` to `s`, in row-major order: the order the cells are created and enumerated. */
  const Letters: string := "abcdefghijklmnopqrs"

  /** The `connection` record of a cell: a neighbour letter per direction, `None` when unset. */
  datatype Connection = Connection(downLeft: Option<char>, downRight: Option<char>, right: Option<char>)
  {
    function Toward(d: Direction): Option<char>
    {
      match d
      case DownLeft => downLeft
      case DownRight => downRight
      case Right => right
    }
  }

  /** `s[k]` as JavaScript reads it: undefined outside the string, negative `k` included. */
  function At(s: string, k: int): Option<char>
  {
    if 0 <= k < |s| then Some(s[k]) else None
  }

  /** The row after row `r`, or undefined after the last row. */
  function NextRow(r: nat): Option<string>
    requires r < |Rows|
  {
    if r + 1 < |Rows| then Some(Rows[r + 1]) else None
  }

  /**
   * The links `fillRow` gives to cell `i` of `row`: `right` is the next letter of the row;
   * on a widening step (the next row is longer) the down links are indices i and i + 1 of
   * the next row, on a narrowing step i - 1 and i; without a next row both are unset.
   */
  function FillLinks(row: string, next: Option<string>, i: int): Connection
  {
    var upperHalf := next.Some? && |row| < |next.value|;
    Connection(
      if next.Some? then At(next.value, if upperHalf then i else i - 1) else None,
      if next.Some? then At(next.value, if upperHalf then i + 1 else i) else None,
      At(row, i + 1))
  }

  /**
   * The neighbours of each cell as read off the drawn board
   *         a b c
   *        d e f g
   *       h i j k l
   *        m n o p
   *         q r s
   * (down-left, down-right, right); letters that are not cells have none.
   */
  function Drawn(l: char): Connection
  {
    match l
    case 'a' => Connection(Some('d'), Some('e'), Some('b'))
    case 'b' => Connection(Some('e'), Some('f'), Some('c'))
    case 'c' => Connection(Some('f'), Some('g'), None)
    case 'd' => Connection(Some('h'), Some('i'), Some('e'))
    case 'e' => Connection(Some('i'), Some('j'), Some('f'))
    case 'f' => Connection(Some('j'), Some('k'), Some('g'))
    case 'g' => Connection(Some('k'), Some('l'), None)
    case 'h' => Connection(None, Some('m'), Some('i'))
    case 'i' => Connection(Some('m'), Some('n'), Some('j'))
    case 'j' => Connection(Some('n'), Some('o'), Some('k'))
    case 'k' => Connection(Some('o'), Some('p'), Some('l'))
    case 'l' => Connection(Some('p'), None, None)
    case 'm' => Connection(None, Some('q'), Some('n'))
    case 'n' => Connection(Some('q'), Some('r'), Some('o'))
    case 'o' => Connection(Some('r'), Some('s'), Some('p'))
    case 'p' => Connection(Some('s'), None, None)
    case 'q' => Connection(None, None, Some('r'))
    case 'r' => Connection(None, None, Some('s'))
    case 's' => Connection(None, None, None)
    case _ => Connection(None, None, None)
  }

  /** The neighbours of each letter: the `connection` of its cell. */
  type Adjacency = char -> Connection

  /** The line of three cells that starts at `l` and steps twice toward `d`, if both steps exist. */
  function LineFrom(adj: Adjacency, l: char, d: Direction): Option<string>
  {
    var second := adj(l).Toward(d);
    if second.None? then None
    else
      var third := adj(second.value).Toward(d);
      if third.None? then None else Some([l, second.value, third.value])
  }

  /** What `combinations.push` adds for one cell and direction: the line, or nothing. */
  function Found(line: Option<string>): seq<string>
  {
    if line.Some? then [line.value] else []
  }

  /** The lines found at `l` over the first `n` directions, in enumeration order. */
  function LinesAt(adj: Adjacency, l: char, n: nat): seq<string>
    requires n <= |Directions|
  {
    if n == 0 then [] else LinesAt(adj, l, n - 1) + Found(LineFrom(adj, l, Directions[n - 1]))
  }

  /** The lines found by visiting the first `k` letters in order, each over all three directions. */
  function LinesUpTo(adj: Adjacency, cells: string, k: nat): seq<string>
    requires k <= |cells|
  {
    if k == 0 then [] else LinesUpTo(adj, cells, k - 1) + LinesAt(adj, cells[k - 1], 3)
  }

  /** The lines toward `d` among those found by visiting the first `k` letters. */
  function LinesToward(adj: Adjacency, cells: string, k: nat, d: Direction): seq<string>
    requires k <= |cells|
  {
    if k == 0 then [] else LinesToward(adj, cells, k - 1, d) + Found(LineFrom(adj, cells[k - 1], d))
  }

  /** The ids the enumeration finds on the board, in the order it finds them. */
  function Combinations(): seq<string>
  {
    LinesUpTo(Drawn, Letters, |Letters|)
  }

  /**
   * Every set neighbour of a cell is a cell with a later letter, and the neighbours
   * of one cell in two different directions differ.
   */
  ghost predicate Forward(adj: Adjacency)
  {
    (forall l, d :: IsCell(l) && adj(l).Toward(d).Some? ==>
      IsCell(adj(l).Toward(d).value) && l < adj(l).Toward(d).value) &&
    (forall l, d, e :: d != e && adj(l).Toward(d).Some? ==> adj(l).Toward(d) != adj(l).Toward(e))
  }

  /** A cell letter: `a` to `s`, the letters the rows hand out (see `IsLetter`). */
  predicate IsCell(c: char)
  {
    'a' <= c <= 's'
  }

  /** No element occurs twice. */
  predicate Distinct<T(==)>(s: seq<T>)
  {
    forall i, j :: 0 <= i < j < |s| ==> s[i] != s[j]
  }

  /** Letters strictly increase from left to right, which makes the string its own sorted form. */
  predicate Increasing(s: string)
  {
    forall i, j :: 0 <= i < j < |s| ==> s[i] < s[j]
  }

  /** The lines toward each direction, as read off the drawn board. */
  const DownLeftLines: seq<string> := ["adh", "bei", "cfj", "eim", "fjn", "gko", "jnq", "kor", "lps"]
  const DownRightLines: seq<string> := ["aej", "bfk", "cgl", "din", "ejo", "fkp", "hmq", "inr", "jos"]
  const RightLines: seq<string> := ["abc", "def", "efg", "hij", "ijk", "jkl", "mno", "nop", "qrs"]

  // ---------------------------------------------------------------------------
  // The board

  /** The cells are created row by row, so row-major order is the letter order. */
  lemma LettersAreRows()
    ensures Letters == Rows[0] + Rows[1] + Rows[2] + Rows[3] + Rows[4]
  {
  }

  lemma LettersIncrease()
    ensures Increasing(Letters)
  {
  }

  /** The `fillRow` rule gives every cell exactly the neighbours of the drawn board. */
  lemma FillRowMatchesDrawing(r: nat, i: nat)
    requires r < |Rows| && i < |Rows[r]|
    ensures FillLinks(Rows[r], NextRow(r), i) == Drawn(Rows[r][i])
  {
    if r == 0 {
      if i == 0 {} else if i == 1 {} else {}
    } else if r == 1 {
      if i == 0 {} else if i == 1 {} else if i == 2 {} else {}
    } else if r == 2 {
      if i == 0 {} else if i == 1 {} else if i == 2 {} else if i == 3 {} else {}
    } else if r == 3 {
      if i == 0 {} else if i == 1 {} else if i == 2 {} else {}
    } else {
      if i == 0 {} else if i == 1 {} else {}
    }
  }

  /** Where each row starts in the row-major lettering; `RowStart(5)` is the number of cells. */
  function RowStart(r: nat): nat
    requires r <= |Rows|
  {
    if r == 0 then 0 else RowStart(r - 1) + |Rows[r - 1]|
  }

  /** Row `r` holds the `|Rows[r]|` consecutive letters from `a` + `RowStart(r)`. */
  lemma RowLetters(r: nat, k: nat)
    requires r < |Rows| && k < |Rows[r]|
    ensures Rows[r][k] as int == 'a' as int + RowStart(r) + k
  {
    if r == 0 {
      assert forall j | 0 <= j < 3 :: "abc"[j] as int == 'a' as int + j;
    } else if r == 1 {
      assert forall j | 0 <= j < 4 :: "defg"[j] as int == 'a' as int + 3 + j;
    } else if r == 2 {
      assert forall j | 0 <= j < 5 :: "hijkl"[j] as int == 'a' as int + 7 + j;
    } else if r == 3 {
      assert forall j | 0 <= j < 4 :: "mnop"[j] as int == 'a' as int + 12 + j;
    } else {
      assert forall j | 0 <= j < 3 :: "qrs"[j] as int == 'a' as int + 16 + j;
    }
  }

  /** The `k`-th cell created is the `k`-th letter of the alphabet. */
  lemma LettersFromA()
    ensures forall i | 0 <= i < |Letters| :: Letters[i] as int == 'a' as int + i
  {
    LettersAreRows();
    forall r, k | 0 <= r < |Rows| && 0 <= k < |Rows[r]|
      ensures Rows[r][k] as int == 'a' as int + RowStart(r) + k
    {
      RowLetters(r, k);
    }
  }

  /** The cells are exactly the letters `a` to `s`. */
  lemma IsLetter(c: char)
    ensures c in Letters <==> IsCell(c)
  {
    LettersFromA();
    if 'a' <= c <= 's' {
      assert Letters[c as int - 'a' as int] == c;
    }
  }

  /** Every neighbour that is set is a cell with a later letter. */
  lemma NeighbourIsLaterCell(l: char, d: Direction)
    requires IsCell(l) && Drawn(l).Toward(d).Some?
    ensures IsCell(Drawn(l).Toward(d).value)
    ensures l < Drawn(l).Toward(d).value
  {
    match d
    case DownLeft =>
    case DownRight =>
    case Right =>
  }

  /** The neighbours of one cell in two different directions are different cells. */
  lemma NeighboursDiffer(l: char, d: Direction, e: Direction)
    requires d != e && Drawn(l).Toward(d).Some?
    ensures Drawn(l).Toward(d) != Drawn(l).Toward(e)
  {
  }

  /** The drawn board links forward. */
  lemma DrawnIsForward()
    ensures Forward(Drawn)
  {
    forall l, d | IsCell(l) && Drawn(l).Toward(d).Some?
      ensures IsCell(Drawn(l).Toward(d).value) && l < Drawn(l).Toward(d).value
    {
      NeighbourIsLaterCell(l, d);
    }
    forall l, d, e | d != e && Drawn(l).Toward(d).Some?
      ensures Drawn(l).Toward(d) != Drawn(l).Toward(e)
    {
      NeighboursDiffer(l, d, e);
    }
  }

  // ---------------------------------------------------------------------------
  // The enumeration, over any forward adjacency

  /** A line from `l` toward `d` is `l`, its neighbour and that neighbour's neighbour, in increasing letter order. */
  lemma LineShape(adj: Adjacency, l: char, d: Direction)
    requires Forward(adj) && IsCell(l) && LineFrom(adj, l, d).Some?
    ensures var t := LineFrom(adj, l, d).value;
      |t| == 3 && t[0] == l && adj(l).Toward(d) == Some(t[1]) && adj(t[1]).Toward(d) == Some(t[2])
      && IsCell(t[1]) && IsCell(t[2]) && Increasing(t)
  {
  }

  lemma {:induction false} LinesAtMembers(adj: Adjacency, l: char, n: nat)
    requires n <= |Directions|
    ensures forall t :: t in LinesAt(adj, l, n) <==> exists j :: 0 <= j < n && LineFrom(adj, l, Directions[j]) == Some(t)
  {
    if n > 0 {
      LinesAtMembers(adj, l, n - 1);
    }
  }

  /** A triple is found iff it is a line from one of the visited letters toward some direction. */
  lemma {:induction false} LinesUpToMembers(adj: Adjacency, cells: string, k: nat)
    requires k <= |cells|
    ensures forall t :: t in LinesUpTo(adj, cells, k) <==> exists i, d :: 0 <= i < k && LineFrom(adj, cells[i], d) == Some(t)
  {
    if k > 0 {
      LinesUpToMembers(adj, cells, k - 1);
      LinesAtMembers(adj, cells[k - 1], 3);
      forall t | exists i, d :: 0 <= i < k && LineFrom(adj, cells[i], d) == Some(t)
        ensures t in LinesUpTo(adj, cells, k)
      {
        var i, d :| 0 <= i < k && LineFrom(adj, cells[i], d) == Some(t);
        if i == k - 1 {
          var j := match d case DownLeft => 0 case DownRight => 1 case Right => 2;
          assert LineFrom(adj, cells[k - 1], Directions[j]) == Some(t);
        }
      }
    }
  }

  lemma DistinctConcat<T>(a: seq<T>, b: seq<T>)
    requires Distinct(a) && Distinct(b)
    requires forall x :: x in a ==> x !in b
    ensures Distinct(a + b)
  {
    forall i, j | 0 <= i < j < |a + b|
      ensures (a + b)[i] != (a + b)[j]
    {
      if i < |a| && |a| <= j {
        assert (a + b)[i] in a && (a + b)[j] in b;
      }
    }
  }

  /** The lines found at one cell are distinct, and each starts with that cell. */
  lemma {:induction false} LinesAtDistinct(adj: Adjacency, l: char, n: nat)
    requires Forward(adj) && IsCell(l) && n <= |Directions|
    ensures Distinct(LinesAt(adj, l, n))
    ensures forall t :: t in LinesAt(adj, l, n) ==> |t| == 3 && t[0] == l
  {
    if n > 0 {
      LinesAtDistinct(adj, l, n - 1);
      var d := Directions[n - 1];
      var line := LineFrom(adj, l, d);
      assert LinesAt(adj, l, n) == LinesAt(adj, l, n - 1) + Found(line);
      if line.Some? {
        LineNotAmong(adj, l, n - 1, d);
        DistinctConcat(LinesAt(adj, l, n - 1), [line.value]);
      }
    }
  }

  /** The line from `l` toward `d` is not among those found toward the other directions. */
  lemma {:induction false} LineNotAmong(adj: Adjacency, l: char, n: nat, d: Direction)
    requires Forward(adj) && n <= |Directions| && LineFrom(adj, l, d).Some?
    requires forall j :: 0 <= j < n ==> Directions[j] != d
    ensures LineFrom(adj, l, d).value !in LinesAt(adj, l, n)
  {
    if n > 0 {
      LineNotAmong(adj, l, n - 1, d);
      var e := Directions[n - 1];
      assert e != d;
      if LineFrom(adj, l, e).Some? {
        assert adj(l).Toward(e) != adj(l).Toward(d);
      }
    }
  }

  /** Every letter names a cell. */
  lemma LettersAreCells()
    ensures forall i :: 0 <= i < |Letters| ==> IsCell(Letters[i])
  {
  }

  /** Visiting increasing cells, no line is found twice. */
  lemma {:induction false} LinesUpToDistinct(adj: Adjacency, cells: string, k: nat)
    requires Forward(adj) && k <= |cells| && Increasing(cells)
    requires forall i :: 0 <= i < |cells| ==> IsCell(cells[i])
    ensures Distinct(LinesUpTo(adj, cells, k))
  {
    if k > 0 {
      LinesUpToDistinct(adj, cells, k - 1);
      var l := cells[k - 1];
      LinesAtDistinct(adj, l, 3);
      LinesUpToMembers(adj, cells, k - 1);
      forall u | u in LinesUpTo(adj, cells, k - 1)
        ensures u !in LinesAt(adj, l, 3)
      {
        var i, d :| 0 <= i < k - 1 && LineFrom(adj, cells[i], d) == Some(u);
        LineShape(adj, cells[i], d);
      }
      DistinctConcat(LinesUpTo(adj, cells, k - 1), LinesAt(adj, l, 3));
    }
  }

  /** The lines found depend only on the cells visited so far. */
  lemma {:induction false} LinesTowardPrefix(adj: Adjacency, s: string, t: string, k: nat, d: Direction)
    requires k <= |s| && k <= |t| && s[..k] == t[..k]
    ensures LinesToward(adj, s, k, d) == LinesToward(adj, t, k, d)
  {
    if k > 0 {
      assert s[..k - 1] == s[..k][..k - 1] && t[..k - 1] == t[..k][..k - 1];
      assert s[k - 1] == s[..k][k - 1] && t[k - 1] == t[..k][k - 1];
      LinesTowardPrefix(adj, s, t, k - 1, d);
    }
  }

  /** Visiting `a` then the first `j` cells of `b` finds the lines of `a`, then those of `b`. */
  lemma {:induction false} LinesTowardConcat(adj: Adjacency, a: string, b: string, j: nat, d: Direction)
    requires j <= |b|
    ensures LinesToward(adj, a + b, |a| + j, d) == LinesToward(adj, a, |a|, d) + LinesToward(adj, b, j, d)
  {
    if j == 0 {
      assert (a + b)[..|a|] == a[..|a|];
      LinesTowardPrefix(adj, a + b, a, |a|, d);
    } else {
      LinesTowardConcat(adj, a, b, j - 1, d);
      assert (a + b)[|a| + j - 1] == b[j - 1];
    }
  }

  /** Visiting the rows one after the other finds the lines of each row in turn. */
  lemma TowardByRows(d: Direction)
    ensures LinesToward(Drawn, Letters, |Letters|, d) ==
      LinesToward(Drawn, "abc", 3, d) + LinesToward(Drawn, "defg", 4, d) + LinesToward(Drawn, "hijkl", 5, d)
      + LinesToward(Drawn, "mnop", 4, d) + LinesToward(Drawn, "qrs", 3, d)
  {
    var r0, r1, r2, r3, r4 := "abc", "defg", "hijkl", "mnop", "qrs";
    assert Letters == r0 + r1 + r2 + r3 + r4;
    LinesTowardConcat(Drawn, r0, r1, 4, d);
    LinesTowardConcat(Drawn, r0 + r1, r2, 5, d);
    LinesTowardConcat(Drawn, r0 + r1 + r2, r3, 4, d);
    LinesTowardConcat(Drawn, r0 + r1 + r2 + r3, r4, 3, d);
  }

  /** Assembles the lines toward `d` from what each row contributes. */
  lemma TowardFromRows(d: Direction, x0: seq<string>, x1: seq<string>, x2: seq<string>, x3: seq<string>, x4: seq<string>)
    requires LinesToward(Drawn, "abc", 3, d) == x0
    requires LinesToward(Drawn, "defg", 4, d) == x1
    requires LinesToward(Drawn, "hijkl", 5, d) == x2
    requires LinesToward(Drawn, "mnop", 4, d) == x3
    requires LinesToward(Drawn, "qrs", 3, d) == x4
    ensures LinesToward(Drawn, Letters, |Letters|, d) == x0 + x1 + x2 + x3 + x4
  {
    TowardByRows(d);
  }

  // What each row contributes toward each direction, one evaluation at a time.
  lemma AbcDownLeft() ensures LinesToward(Drawn, "abc", 3, DownLeft) == ["adh", "bei", "cfj"] {}
  lemma AbcDownRight() ensures LinesToward(Drawn, "abc", 3, DownRight) == ["aej", "bfk", "cgl"] {}
  lemma AbcRight() ensures LinesToward(Drawn, "abc", 3, Right) == ["abc"] {}
  lemma DefgDownLeft() ensures LinesToward(Drawn, "defg", 4, DownLeft) == ["eim", "fjn", "gko"] {}
  lemma DefgDownRight() ensures LinesToward(Drawn, "defg", 4, DownRight) == ["din", "ejo", "fkp"] {}
  lemma DefgRight() ensures LinesToward(Drawn, "defg", 4, Right) == ["def", "efg"] {}
  lemma HijklDownLeft() ensures LinesToward(Drawn, "hijkl", 5, DownLeft) == ["jnq", "kor", "lps"] {}
  lemma HijklDownRight() ensures LinesToward(Drawn, "hijkl", 5, DownRight) == ["hmq", "inr", "jos"] {}
  lemma HijklRight() ensures LinesToward(Drawn, "hijkl", 5, Right) == ["hij", "ijk", "jkl"] {}
  lemma MnopDownLeft() ensures LinesToward(Drawn, "mnop", 4, DownLeft) == [] {}
  lemma MnopDownRight() ensures LinesToward(Drawn, "mnop", 4, DownRight) == [] {}
  lemma MnopRight() ensures LinesToward(Drawn, "mnop", 4, Right) == ["mno", "nop"] {}
  lemma QrsDownLeft() ensures LinesToward(Drawn, "qrs", 3, DownLeft) == [] {}
  lemma QrsDownRight() ensures LinesToward(Drawn, "qrs", 3, DownRight) == [] {}
  lemma QrsRight() ensures LinesToward(Drawn, "qrs", 3, Right) == ["qrs"] {}

  /** The lines toward each direction are the nine read off the drawn board, in enumeration order. */
  lemma DownLeftLinesDrawn()
    ensures LinesToward(Drawn, Letters, |Letters|, DownLeft) == DownLeftLines
  {
    AbcDownLeft();
    DefgDownLeft();
    HijklDownLeft();
    MnopDownLeft();
    QrsDownLeft();
    TowardFromRows(DownLeft, ["adh", "bei", "cfj"], ["eim", "fjn", "gko"], ["jnq", "kor", "lps"], [], []);
  }

  lemma DownRightLinesDrawn()
    ensures LinesToward(Drawn, Letters, |Letters|, DownRight) == DownRightLines
  {
    AbcDownRight();
    DefgDownRight();
    HijklDownRight();
    MnopDownRight();
    QrsDownRight();
    TowardFromRows(DownRight, ["aej", "bfk", "cgl"], ["din", "ejo", "fkp"], ["hmq", "inr", "jos"], [], []);
  }

  lemma RightLinesDrawn()
    ensures LinesToward(Drawn, Letters, |Letters|, Right) == RightLines
  {
    AbcRight();
    DefgRight();
    HijklRight();
    MnopRight();
    QrsRight();
    TowardFromRows(Right, ["abc"], ["def", "efg"], ["hij", "ijk", "jkl"], ["mno", "nop"], ["qrs"]);
  }

  /** Each line found is toward one of the three directions, so the counts add up. */
  lemma {:induction false} LinesUpToByDirection(adj: Adjacency, cells: string, k: nat)
    requires k <= |cells|
    ensures |LinesUpTo(adj, cells, k)| ==
      |LinesToward(adj, cells, k, DownLeft)| + |LinesToward(adj, cells, k, DownRight)| + |LinesToward(adj, cells, k, Right)|
  {
    if k > 0 {
      LinesUpToByDirection(adj, cells, k - 1);
      var l := cells[k - 1];
      assert LinesAt(adj, l, 1) == Found(LineFrom(adj, l, DownLeft));
      assert |LinesAt(adj, l, 3)| ==
        |Found(LineFrom(adj, l, DownLeft))| + |Found(LineFrom(adj, l, DownRight))| + |Found(LineFrom(adj, l, Right))|;
    }
  }

  /** The lines found at one cell are those found toward each direction in turn. */
  lemma LinesAtByDirection(adj: Adjacency, l: char)
    ensures LinesAt(adj, l, 3) ==
      Found(LineFrom(adj, l, DownLeft)) + Found(LineFrom(adj, l, DownRight)) + Found(LineFrom(adj, l, Right))
  {
    assert LinesAt(adj, l, 1) == Found(LineFrom(adj, l, DownLeft));
  }

  /** A line is listed exactly when it is listed among the lines toward one of the three directions. */
  lemma {:induction false} LinesUpToOfDirections(adj: Adjacency, cells: string, k: nat, t: string)
    requires k <= |cells|
    ensures t in LinesUpTo(adj, cells, k) <==>
      t in LinesToward(adj, cells, k, DownLeft) || t in LinesToward(adj, cells, k, DownRight) || t in LinesToward(adj, cells, k, Right)
  {
    if k > 0 {
      LinesUpToOfDirections(adj, cells, k - 1, t);
      LinesAtByDirection(adj, cells[k - 1]);
    }
  }

  // ---------------------------------------------------------------------------
  // The combinations of the board

  /** There are 27 combinations, 9 toward each direction. */
  lemma CombinationsCount()
    ensures |LinesToward(Drawn, Letters, |Letters|, DownLeft)| == 9
    ensures |LinesToward(Drawn, Letters, |Letters|, DownRight)| == 9
    ensures |LinesToward(Drawn, Letters, |Letters|, Right)| == 9
    ensures |Combinations()| == 27
  {
    DownLeftLinesDrawn();
    DownRightLinesDrawn();
    RightLinesDrawn();
    LinesUpToByDirection(Drawn, Letters, |Letters|);
  }

  /** The combinations are exactly the 27 lines read off the drawn board. */
  lemma CombinationsAreTheLiterals(t: string)
    ensures t in Combinations() <==> t in DownLeftLines + DownRightLines + RightLines
  {
    LinesUpToOfDirections(Drawn, Letters, |Letters|, t);
    DownLeftLinesDrawn();
    DownRightLinesDrawn();
    RightLinesDrawn();
  }

  /** No combination is listed twice. */
  lemma CombinationsDistinct()
    ensures Distinct(Combinations())
  {
    DrawnIsForward();
    LettersIncrease();
    LettersAreCells();
    LinesUpToDistinct(Drawn, Letters, |Letters|);
  }

  /** A triple is a combination iff it is a cell, its neighbour toward some direction, and that neighbour's neighbour toward the same direction. */
  lemma CombinationsAreLines(t: string)
    ensures t in Combinations() <==> exists l, d :: IsCell(l) && LineFrom(Drawn, l, d) == Some(t)
  {
    LinesUpToMembers(Drawn, Letters, |Letters|);
    LettersAreCells();
    if l, d :| IsCell(l) && LineFrom(Drawn, l, d) == Some(t) {
      IsLetter(l);
      var i :| 0 <= i < |Letters| && Letters[i] == l;
    }
  }

  /** Every combination id is three cells in strictly increasing letter order, so it is its own sorted form. */
  lemma CombinationIdsIncrease(t: string)
    requires t in Combinations()
    ensures |t| == 3 && Increasing(t)
    ensures forall i :: 0 <= i < |t| ==> IsCell(t[i])
  {
    CombinationsAreLines(t);
    DrawnIsForward();
    var l, d :| IsCell(l) && LineFrom(Drawn, l, d) == Some(t);
    LineShape(Drawn, l, d);
  }

  /** The enumeration depends only on the links. */
  lemma {:induction false} SameLinksSameLines(a: Adjacency, b: Adjacency, cells: string, k: nat)
    requires forall l :: a(l) == b(l)
    requires k <= |cells|
    ensures LinesUpTo(a, cells, k) == LinesUpTo(b, cells, k)
  {
    if k > 0 {
      SameLinksSameLines(a, b, cells, k - 1);
      var l := cells[k - 1];
      assert LineFrom(a, l, DownLeft) == LineFrom(b, l, DownLeft);
      assert LineFrom(a, l, DownRight) == LineFrom(b, l, DownRight);
      assert LineFrom(a, l, Right) == LineFrom(b, l, Right);
      assert LinesAt(a, l, 1) == LinesAt(b, l, 1);
      assert LinesAt(a, l, 2) == LinesAt(b, l, 2);
      assert LinesAt(a, l, 3) == LinesAt(b, l, 3);
    }
  }
}
