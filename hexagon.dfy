/**
 * The board objects of src/hexagon.ts: `Cell` and `Hexagon`, `generateHexagon` with its
 * `fillRow` helper and combination listing, and `randomize`.
 */
module Hexagons {
  import opened Wrappers
  import opened Topology
  import opened Analysis

  /** A cell: its letter, the number shown in it this round, and its links. */
  class Cell {
    const letter: char
    var number: int
    const connection: Connection

    constructor (letter: char, connection: Connection)
      ensures this.letter == letter && this.connection == connection && number == 0
    {
      this.letter := letter;
      this.connection := connection;
      number := 0;
    }
  }

  /**
   * A board: its rows of cells, the cells by letter (the same objects as in `rows`), the
   * combination ids, and the tables `randomize` fills in (empty until then).
   */
  class Hexagon {
    const rows: seq<seq<Cell>>
    const cells: map<char, Cell>
    const combinations: seq<string>
    var sums: map<string, int>
    var rarity: map<int, nat>
    var sortedByRarity: seq<int>

    constructor (cells: map<char, Cell>, rows: seq<seq<Cell>>, combinations: seq<string>)
      ensures this.cells == cells && this.rows == rows && this.combinations == combinations
      ensures sums == map[] && rarity == map[] && sortedByRarity == []
    {
      this.cells := cells;
      this.rows := rows;
      this.combinations := combinations;
      sums := map[];
      rarity := map[];
      sortedByRarity := [];
    }

    /**
     * The board `generateHexagon` lays out: a cell per letter `a` to `s`, linked as drawn,
     * `rows[r][k]` the very cell `cells` holds for letter `Rows[r][k]`, and the combinations
     * in enumeration order.
     */
    ghost predicate Shaped()
    {
      (forall l :: l in cells <==> IsCell(l)) &&
      (forall l | l in cells :: cells[l].letter == l) &&
      (forall l {:trigger Drawn(l)} | l in cells :: cells[l].connection == Drawn(l)) &&
      |rows| == |Rows| &&
      (forall r | 0 <= r < |Rows| :: |rows[r]| == |Rows[r]|) &&
      (forall r, k | 0 <= r < |Rows| && 0 <= k < |Rows[r]| ::
        Rows[r][k] in cells && k < |rows[r]| && rows[r][k] == cells[Rows[r][k]]) &&
      combinations == Combinations()
    }

    /** The cells hold the numbers `values`, letter by letter. */
    ghost predicate Shows(values: map<char, int>)
      reads cells.Values
    {
      (forall l :: l in values <==> l in cells) &&
      forall l | l in cells :: cells[l].number == values[l]
    }

    /** What the round needs of the tables: a sum per combination, their counts, and the sums with a count. */
    ghost predicate Tallied()
      reads this
    {
      Consistent(combinations, sums, rarity, sortedByRarity)
    }
  }

  /** `x` is a value `rng(lo, hi)` can return: an integer between the bounds, in either order. */
  predicate Between(lo: int, hi: int, x: int)
  {
    if lo <= hi then lo <= x <= hi else hi <= x <= lo
  }

  /**
   * `fillRow`: creates a cell for each letter of `row`, linked by the `fillRow` rule,
   * appends them as a new row and files each under its letter.
   */
  method FillRow(row: string, nextRow: Option<string>, rows: seq<seq<Cell>>, cells: map<char, Cell>)
    returns (rows': seq<seq<Cell>>, cells': map<char, Cell>)
    requires Distinct(row)
    ensures |rows'| == |rows| + 1 && rows'[..|rows|] == rows
    ensures var hRow := rows'[|rows|];
      |hRow| == |row| &&
      (forall i | 0 <= i < |row| ::
        fresh(hRow[i]) && hRow[i].letter == row[i] && hRow[i].connection == FillLinks(row, nextRow, i) &&
        hRow[i].number == 0 && row[i] in cells' && cells'[row[i]] == hRow[i])
    ensures forall l :: l in cells' <==> l in cells || l in row
    ensures forall l | l in cells && l !in row :: cells'[l] == cells[l]
  {
    var hRow: seq<Cell> := [];
    cells' := cells;
    var i := 0;
    while i < |row|
      invariant 0 <= i <= |row| && |hRow| == i
      invariant forall j | 0 <= j < i ::
        fresh(hRow[j]) && hRow[j].letter == row[j] && hRow[j].connection == FillLinks(row, nextRow, j) &&
        hRow[j].number == 0 && row[j] in cells' && cells'[row[j]] == hRow[j]
      invariant forall l :: l in cells' <==> l in cells || l in row[..i]
      invariant forall l | l in cells && l !in row[..i] :: cells'[l] == cells[l]
    {
      var cell := new Cell(row[i], FillLinks(row, nextRow, i));
      hRow := hRow + [cell];
      cells' := cells'[row[i] := cell];
      assert row[..i + 1] == row[..i] + [row[i]];
      i := i + 1;
    }
    assert row[..i] == row;
    rows' := rows + [hRow];
  }

  /** The links the cells carry, looked up by letter: none for a letter without a cell. */
  function LinksOf(cells: map<char, Cell>): Adjacency
  {
    l => if l in cells then cells[l].connection else Connection(None, None, None)
  }

  /**
   * The enumeration of `generateHexagon`: for each cell in creation order and each direction,
   * the cell, its neighbour and that neighbour's neighbour, when both links are set.
   */
  method ListCombinations(cells: map<char, Cell>) returns (combinations: seq<string>)
    ensures combinations == LinesUpTo(LinksOf(cells), Letters, |Letters|)
  {
    combinations := [];
    var k := 0;
    while k < |Letters|
      invariant 0 <= k <= |Letters|
      invariant combinations == LinesUpTo(LinksOf(cells), Letters, k)
    {
      combinations := PushLinesAt(cells, Letters[k], combinations);
      k := k + 1;
    }
  }

  /** The inner loop of the enumeration: the lines from `letter`, direction by direction, pushed onto `combinations`. */
  method PushLinesAt(cells: map<char, Cell>, letter: char, combinations: seq<string>) returns (combinations': seq<string>)
    ensures combinations' == combinations + LinesAt(LinksOf(cells), letter, |Directions|)
  {
    combinations' := combinations;
    var j := 0;
    while j < |Directions|
      invariant 0 <= j <= |Directions|
      invariant combinations' == combinations + LinesAt(LinksOf(cells), letter, j)
    {
      var dir := Directions[j];
      var second := if letter in cells then cells[letter].connection.Toward(dir) else None;
      var third := if second.Some? && second.value in cells then cells[second.value].connection.Toward(dir) else None;
      LineOfCells(cells, letter, dir);
      if second.Some? && third.Some? {
        combinations' := combinations' + [[letter, second.value, third.value]];
      }
      j := j + 1;
    }
  }

  /** What the enumeration finds for one cell and direction is the line through the links. */
  lemma LineOfCells(cells: map<char, Cell>, l: char, d: Direction)
    ensures var second := if l in cells then cells[l].connection.Toward(d) else None;
      var third := if second.Some? && second.value in cells then cells[second.value].connection.Toward(d) else None;
      LineFrom(LinksOf(cells), l, d) == if second.Some? && third.Some? then Some([l, second.value, third.value]) else None
  {
  }

  /** `generateHexagon`: the 19-cell board with its links and combinations, every number 0. */
  method GenerateHexagon() returns (h: Hexagon)
    ensures fresh(h) && fresh(h.cells.Values)
    ensures h.Shaped()
    ensures forall l | l in h.cells :: h.cells[l].number == 0
    ensures h.sums == map[] && h.rarity == map[] && h.sortedByRarity == []
  {
    var rows, cells := FillRows();
    var combinations := ListCombinations(cells);
    LinksAreDrawn(cells);
    h := new Hexagon(cells, rows, combinations);
  }

  /** The loop of `generateHexagon` calling `fillRow` on each row with the row below it. */
  method FillRows() returns (rows: seq<seq<Cell>>, cells: map<char, Cell>)
    ensures forall l :: l in cells <==> IsCell(l)
    ensures forall l | l in cells :: fresh(cells[l]) && cells[l].letter == l && cells[l].connection == Drawn(l) && cells[l].number == 0
    ensures |rows| == |Rows| && forall r | 0 <= r < |Rows| :: |rows[r]| == |Rows[r]|
    ensures forall r, k | 0 <= r < |Rows| && 0 <= k < |Rows[r]| ::
      Rows[r][k] in cells && k < |rows[r]| && rows[r][k] == cells[Rows[r][k]]
  {
    rows, cells := [], map[];
    var i := 0;
    while i < |Rows|
      invariant 0 <= i <= |Rows| && |rows| == i
      invariant forall l :: l in cells <==> 'a' as int <= l as int < 'a' as int + RowStart(i)
      invariant forall l | l in cells :: fresh(cells[l]) && cells[l].letter == l && cells[l].connection == Drawn(l) && cells[l].number == 0
      invariant forall r | 0 <= r < i :: |rows[r]| == |Rows[r]|
      invariant forall r, k | 0 <= r < i && 0 <= k < |Rows[r]| ::
        Rows[r][k] in cells && k < |rows[r]| && rows[r][k] == cells[Rows[r][k]]
    {
      RowOfCells(i);
      var rows': seq<seq<Cell>>, cells': map<char, Cell> := FillRow(Rows[i], NextRow(i), rows, cells);
      forall k | 0 <= k < |Rows[i]|
        ensures rows'[i][k].connection == Drawn(Rows[i][k])
      {
        FillRowMatchesDrawing(i, k);
      }
      forall r, k | 0 <= r < i && 0 <= k < |Rows[r]|
        ensures Rows[r][k] !in Rows[i]
      {
        RowLetters(r, k);
        RowStartGrows(r, i);
      }
      rows, cells := rows', cells';
      i := i + 1;
    }
    assert RowStart(5) == 19;
  }

  /** Cells linked as drawn carry the drawn links, so the enumeration finds the board's combinations. */
  lemma LinksAreDrawn(cells: map<char, Cell>)
    requires forall l :: l in cells <==> IsCell(l)
    requires forall l | l in cells :: cells[l].connection == Drawn(l)
    ensures LinesUpTo(LinksOf(cells), Letters, |Letters|) == Combinations()
  {
    forall l
      ensures LinksOf(cells)(l) == Drawn(l)
    {
      if l !in cells {
        assert !('a' <= l <= 's');
      }
    }
    SameLinksSameLines(LinksOf(cells), Drawn, Letters, |Letters|);
  }

  /** The letters of row `r` are the `|Rows[r]|` letters after those of the rows above, all distinct. */
  lemma RowOfCells(r: nat)
    requires r < |Rows|
    ensures Distinct(Rows[r])
    ensures forall l :: l in Rows[r] <==> 'a' as int + RowStart(r) <= l as int < 'a' as int + RowStart(r + 1)
  {
    forall k | 0 <= k < |Rows[r]| {
      RowLetters(r, k);
    }
    forall l | 'a' as int + RowStart(r) <= l as int < 'a' as int + RowStart(r + 1)
      ensures l in Rows[r]
    {
      var k := l as int - 'a' as int - RowStart(r);
      RowLetters(r, k);
    }
  }

  lemma {:induction false} RowStartGrows(r: nat, s: nat)
    requires r < s <= |Rows|
    ensures RowStart(r) + |Rows[r]| <= RowStart(s)
  {
    if s > r + 1 {
      RowStartGrows(r, s - 1);
    }
  }

  /** Every combination is made of cells of a shaped board. */
  lemma CombinationsValued(h: Hexagon, values: map<char, int>)
    requires h.Shaped() && forall l :: IsCell(l) ==> l in values
    ensures Valued(h.combinations, values)
  {
    forall c | c in h.combinations {
      CombinationIdsIncrease(c);
    }
  }

  /**
   * `randomize`: writes the `rng(min, max)` results `draws` into the cells in creation order,
   * then rebuilds the tables from the new numbers.
   */
  method Randomize(h: Hexagon, min: int, max: int, draws: seq<int>)
    requires h.Shaped()
    requires |draws| == |Letters| && forall i :: 0 <= i < |draws| ==> Between(min, max, draws[i])
    modifies h, h.cells.Values
    ensures h.Shows(Dealt(draws)) && forall l | l in h.cells :: Between(min, max, h.cells[l].number)
    ensures Tables(h.combinations, Dealt(draws), h.sums, h.rarity, h.sortedByRarity) && h.Tallied()
    ensures forall c | c in h.sums :: Between(3 * min, 3 * max, h.sums[c])
  {
    ghost var values := Dealt(draws);
    DrawNumbers(h, draws);
    CombinationsValued(h, values);
    Tabulate(h, values);
    SumsWithinBounds(h, min, max, values);
  }

  /** Once the tables are built, every combination's sum lies between three times each bound of the draws. */
  lemma SumsWithinBounds(h: Hexagon, min: int, max: int, values: map<char, int>)
    requires h.Shaped() && Tables(h.combinations, values, h.sums, h.rarity, h.sortedByRarity)
    requires forall l | l in values :: Between(min, max, values[l])
    ensures forall c | c in h.sums :: Between(3 * min, 3 * max, h.sums[c])
  {
    SumsOfTables(h.combinations, values, h.sums, h.rarity, h.sortedByRarity);
    var lo, hi := if min <= max then min else max, if min <= max then max else min;
    forall c | c in h.sums
      ensures Between(3 * min, 3 * max, h.sums[c])
    {
      CombinationIdsIncrease(c);
      LineSumBounds(c, values, lo, hi);
    }
  }

  /** The numbers `randomize` gives the cells when `rng` returns `draws`: the `k`-th letter gets the `k`-th draw. */
  function Dealt(draws: seq<int>): (values: map<char, int>)
    requires |draws| == |Letters|
    ensures forall l :: l in values <==> IsCell(l)
    ensures forall i :: 0 <= i < |Letters| ==> Letters[i] in values && values[Letters[i]] == draws[i]
    ensures forall l | l in values :: exists i :: 0 <= i < |draws| && values[l] == draws[i]
  {
    LettersFromA();
    map l | IsCell(l) :: draws[l as int - 'a' as int]
  }

  /** The first loop of `randomize`: the `k`-th cell created gets the `k`-th number drawn. */
  method DrawNumbers(h: Hexagon, draws: seq<int>)
    requires forall l :: l in h.cells <==> IsCell(l)
    requires forall l | l in h.cells :: h.cells[l].letter == l
    requires |draws| == |Letters|
    modifies h.cells.Values
    ensures h.Shows(Dealt(draws))
  {
    LettersAreCells();
    LettersIncrease();
    var k := 0;
    while k < |Letters|
      invariant 0 <= k <= |Letters|
      invariant forall i :: 0 <= i < k ==> h.cells[Letters[i]].number == draws[i]
      modifies h.cells.Values
    {
      h.cells[Letters[k]].number := draws[k];
      k := k + 1;
    }
    LettersFromA();
    forall l | l in h.cells
      ensures h.cells[l].number == Dealt(draws)[l]
    {
      assert Letters[l as int - 'a' as int] == l;
    }
  }

  /**
   * The second half of `randomize`: the sum of every combination into `sums`, a count per
   * sum into `rarity`, and the sums by decreasing count into `sortedByRarity`.
   */
  method Tabulate(h: Hexagon, ghost values: map<char, int>)
    requires h.Shows(values)
    requires Valued(h.combinations, values)
    modifies h
    ensures Tables(h.combinations, values, h.sums, h.rarity, h.sortedByRarity) && h.Tallied()
  {
    var sums, rarity, entries := CountSums(h, values);
    TabulateDone(h.combinations, values, sums, rarity, entries);
    h.sums, h.rarity := sums, rarity;
    h.sortedByRarity := SortByCount(entries, rarity);
  }

  /**
   * The `for ... of` loop over the combinations in `randomize`: each sum is recorded, its
   * counter created at 0 when missing and incremented; `entries` lists the sums as they
   * first occur, the order in which they become keys of `rarity`.
   */
  method CountSums(h: Hexagon, ghost values: map<char, int>) returns (sums: map<string, int>, rarity: map<int, nat>, entries: seq<int>)
    requires h.Shows(values)
    requires Valued(h.combinations, values)
    ensures TabulatedUpTo(h.combinations, |h.combinations|, values, sums, rarity, entries)
  {
    sums, rarity, entries := map[], map[], [];
    var combinations := h.combinations;
    var j := 0;
    while j < |combinations|
      invariant 0 <= j <= |combinations|
      invariant TabulatedUpTo(combinations, j, values, sums, rarity, entries)
    {
      var c := combinations[j];
      ValuedAt(combinations, j, values);
      var sum := LineTotal(h, c, values);
      TabulateStep(combinations, j, values, sums, rarity, entries, sum);
      sums := sums[c := sum];
      entries := if sum in rarity then entries else entries + [sum];
      rarity := Counted(rarity, sum);
      j := j + 1;
    }
  }

  /** The `for ... of` loop of `randomize` adding up the numbers of the letters of `c`, whose values are `values`. */
  method LineTotal(h: Hexagon, c: string, ghost values: map<char, int>) returns (sum: int)
    requires h.Shows(values)
    requires forall i :: 0 <= i < |c| ==> c[i] in values
    ensures sum == LineSum(c, values)
  {
    sum := 0;
    var n := 0;
    while n < |c|
      invariant 0 <= n <= |c|
      invariant sum == LineSum(c[..n], values)
    {
      assert c[..n + 1][..n] == c[..n];
      sum := sum + h.cells[c[n]].number;
      n := n + 1;
    }
    assert c[..n] == c;
  }
}
