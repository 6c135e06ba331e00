/**
 * The round state machine of src/app.tsx: the signals of `App` as the fields of one object,
 * each callback a method, and the two timers as explicit events (`Tick` for the one-second
 * interval, `Revert` for the timeout `showResponseToUser` schedules).
 */
module Game {
  import opened Wrappers
  import opened Topology
  import opened Analysis
  import opened Hexagons
  import opened Selection

  /** `gamePhases`, in declaration order. */
  datatype Phase = TitleScreen | Memorization | PickingCombinations | Wrong | Correct | AlreadyCalled | AllDone | GiveUp

  /** The setter a click scores through: `setPoints` or `setPoints2`. */
  datatype Counter = Points | Points2

  /** `min`: the lowest number `randomize` is asked for. */
  const Min := 1

  /**
   * The part of the round a click reads and writes: the phase, the selection `combo`, the
   * combinations called so far, both scores, and how many `showResponseToUser` timeouts
   * are still to fire.
   */
  datatype Progress = Progress(phase: Phase, combo: string, called: seq<string>, points: int, points2: int, reverts: nat)
  {
    /** The score kept by `counter`. */
    function Score(counter: Counter): int
    {
      if counter == Points then points else points2
    }

    /** `pointSetter(p => p + delta)`. */
    function Scored(counter: Counter, delta: int): Progress
    {
      if counter == Points then this.(points := points + delta) else this.(points2 := points2 + delta)
    }
  }

  /** The other counter. */
  function Other(counter: Counter): Counter
  {
    if counter == Points then Points2 else Points
  }

  /**
   * `hexagon().sums[sel] == sum()`: the selection has an entry in `sums` equal to the target.
   * A missing entry (`undefined`) or a missing target (`NaN`) never compares equal.
   */
  predicate Hits(sel: string, sums: map<string, int>, target: Option<int>)
  {
    target.Some? && sel in sums && sums[sel] == target.value
  }

  /**
   * The end-of-round test of src/app.tsx:72 as intended: the list of called combinations,
   * read after the new one is appended, is as long as the count of the target in `rarity`.
   */
  predicate RoundComplete(called: seq<string>, rarity: map<int, nat>, target: Option<int>)
  {
    target.Some? && target.value in rarity && |called| == rarity[target.value]
  }

  /**
   * The same test as written: the list it reads already holds the new combination, yet it
   * is compared with `rarity[sum()] - 1`.
   */
  predicate AllDoneAsWritten(called: seq<string>, rarity: map<int, nat>, target: Option<int>)
  {
    target.Some? && target.value in rarity && |called| as int == rarity[target.value] as int - 1
  }

  /** `parseInt(sortedByRarity[k])`: the `k`-th sum of the list, or `NaN` (`None`) past its end. */
  function Target(sorted: seq<int>, k: int): Option<int>
    requires 0 <= k
  {
    if k < |sorted| then Some(sorted[k]) else None
  }

  /**
   * `click` on a cell whose letter is `letter` (src/app.tsx:55-82), with `sums`, `rarity` and
   * the target of the round. Outside `pickingCombinations` nothing happens; a selected letter
   * is taken out; otherwise the letter is added, and a selection of three letters is judged.
   */
  function ClickStep(p: Progress, letter: char, counter: Counter, sums: map<string, int>, rarity: map<int, nat>, target: Option<int>): Progress
  {
    if p.phase != PickingCombinations then p
    else if letter in p.combo then p.(combo := RemoveFirst(p.combo, letter))
    else
      var sel := Sort(p.combo + [letter]);
      if |sel| <= 2 then p.(combo := sel) else Judge(p, sel, counter, sums, rarity, target)
  }

  /**
   * The judgement of a selection `sel` of three letters (src/app.tsx:60-81): called before, it
   * costs a point; hitting the target, it gains one and is appended to the called list, which
   * ends the round once it is complete; otherwise it costs a point. Every outcome but the end of
   * the round schedules a timeout.
   */
  function Judge(p: Progress, sel: string, counter: Counter, sums: map<string, int>, rarity: map<int, nat>, target: Option<int>): Progress
  {
    if sel in p.called then
      p.(combo := sel, phase := AlreadyCalled, reverts := p.reverts + 1).Scored(counter, -1)
    else if Hits(sel, sums, target) then
      var called := p.called + [sel];
      if RoundComplete(called, rarity, target) then
        p.(combo := sel, called := called, phase := AllDone).Scored(counter, 1)
      else
        p.(combo := sel, called := called, phase := Correct, reverts := p.reverts + 1).Scored(counter, 1)
    else
      p.(combo := sel, phase := Wrong, reverts := p.reverts + 1).Scored(counter, -1)
  }

  /**
   * What holds of a round between events: the called combinations are distinct and each hits
   * the target; while the numbers are shown or the player is picking, the selection is a
   * strictly increasing string of at most two cell letters.
   */
  predicate Coherent(p: Progress, sums: map<string, int>, target: Option<int>)
  {
    Distinct(p.called) &&
    (forall c :: c in p.called ==> Hits(c, sums, target)) &&
    (p.phase == Memorization || p.phase == PickingCombinations ==> CellString(p.combo) && |p.combo| <= 2)
  }

  /** Cell letters in strictly increasing order, as `sort()` leaves a selection of distinct cells. */
  predicate CellString(s: string)
  {
    Increasing(s) && forall x :: x in s ==> IsCell(x)
  }

  /**
   * The part of `Hexagon.Shaped` a round keeps relying on after `startGame` (see `ShapedFits`):
   * each cell is filed under its own letter, and no combination is listed twice. `Ready`
   * carries only this part, which leaves the enumeration `Combinations()` out of every event's proof.
   */
  ghost predicate Fits(h: Hexagon)
  {
    (forall l | l in h.cells :: h.cells[l].letter == l && IsCell(l)) &&
    Distinct(h.combinations)
  }

  /** `generateHexagon()` followed by `randomize(h, min, max)`, the board a round starts on. */
  method DealBoard(min: int, max: int, draws: seq<int>) returns (h: Hexagon)
    requires |draws| == |Letters| && forall i :: 0 <= i < |draws| ==> Between(min, max, draws[i])
    ensures fresh(h) && h.Shaped() && Fits(h)
    ensures h.Shows(Dealt(draws)) && forall l | l in h.cells :: Between(min, max, h.cells[l].number)
    ensures Tables(h.combinations, Dealt(draws), h.sums, h.rarity, h.sortedByRarity)
  {
    h := GenerateHexagon();
    ShapedFits(h);
    Randomize(h, min, max, draws);
  }

  /** The signals of `App` and the callbacks that change them. */
  class App {
    var max: int
    var memoTime: int
    var hexagon: Hexagon?
    var points: int
    var points2: int
    var twoPlayersMode: bool
    var twoPlayersSetting: bool
    var time: Option<int>
    var phase: Phase
    var sum: Option<int>
    var combo: string
    var calledCombos: seq<string>
    var comboLoop: int
    /** The `showResponseToUser` timeouts scheduled and not yet fired. */
    ghost var pendingReverts: nat

    /** The initial values of the signals. */
    constructor ()
      ensures Valid()
      ensures max == 6 && memoTime == 30 && hexagon == null && points == 0 && points2 == 0
      ensures !twoPlayersMode && !twoPlayersSetting && time == None && phase == TitleScreen
      ensures sum == None && combo == "" && calledCombos == [] && comboLoop == 0 && pendingReverts == 0
    {
      max := 6;
      memoTime := 30;
      hexagon := null;
      points := 0;
      points2 := 0;
      twoPlayersMode := false;
      twoPlayersSetting := false;
      time := None;
      phase := TitleScreen;
      sum := None;
      combo := "";
      calledCombos := [];
      comboLoop := 0;
      pendingReverts := 0;
    }

    /** The fields a click works on. */
    ghost function Now(): Progress
      reads this
    {
      Progress(phase, combo, calledCombos, points, points2, pendingReverts)
    }

    /** Once there is a board, it holds what a round relies on. */
    ghost predicate Ready()
      reads this`hexagon
    {
      hexagon != null ==> Fits(hexagon)
    }

    /**
     * Before the first round there is no board, no selection, nothing called and no timeout
     * pending; from then on the round is coherent with the board's `sums` and the target.
     */
    ghost predicate Valid()
      reads this, hexagon
    {
      0 <= comboLoop &&
      (hexagon == null ==> phase == TitleScreen && pendingReverts == 0 && calledCombos == [] && combo == "") &&
      (hexagon != null ==> Coherent(Now(), hexagon.sums, sum))
    }

    /**
     * `startGame` (src/app.tsx:38-52): a new board filled with `draws` (the `rng(min, max)`
     * results, cell by cell) and the target taken at index `pick` (the `rng(0, 2)` result).
     */
    method StartGame(draws: seq<int>, pick: int)
      requires Valid()
      requires |draws| == |Letters| && forall i :: 0 <= i < |draws| ==> Between(Min, max, draws[i])
      requires Between(0, 2, pick)
      modifies this`phase, this`combo, this`calledCombos, this`points, this`points2, this`twoPlayersMode
      modifies this`hexagon, this`sum, this`time
      ensures Ready() && Valid() && fresh(hexagon) && hexagon.Shaped()
      ensures phase == Memorization && combo == "" && calledCombos == [] && time == Some(memoTime)
      ensures twoPlayersMode == twoPlayersSetting == old(twoPlayersSetting)
      ensures old(twoPlayersSetting) != old(twoPlayersMode) ==> points == 0 && points2 == 0
      ensures old(twoPlayersSetting) == old(twoPlayersMode) ==> points == old(points) && points2 == old(points2)
      ensures hexagon.Shows(Dealt(draws))
      ensures Tables(hexagon.combinations, Dealt(draws), hexagon.sums, hexagon.rarity, hexagon.sortedByRarity)
      ensures sum == Target(hexagon.sortedByRarity, pick)
    {
      var h := DealBoard(Min, max, draws);
      OpenRound(h, pick);
    }

    /** The signal updates of `startGame` around the new board `h`, with `pick` the `rng(0, 2)` result. */
    method OpenRound(h: Hexagon, pick: int)
      requires 0 <= comboLoop && 0 <= pick && Fits(h)
      modifies this`phase, this`combo, this`calledCombos, this`points, this`points2, this`twoPlayersMode
      modifies this`hexagon, this`sum, this`time
      ensures Ready() && Valid() && hexagon == h
      ensures phase == Memorization && combo == "" && calledCombos == [] && time == Some(memoTime)
      ensures twoPlayersMode == twoPlayersSetting == old(twoPlayersSetting)
      ensures old(twoPlayersSetting) != old(twoPlayersMode) ==> points == 0 && points2 == 0
      ensures old(twoPlayersSetting) == old(twoPlayersMode) ==> points == old(points) && points2 == old(points2)
      ensures sum == Target(h.sortedByRarity, pick)
    {
      phase := Memorization;
      combo := "";
      calledCombos := [];
      if twoPlayersSetting != twoPlayersMode {
        ResetPoints();
      }
      twoPlayersMode := twoPlayersSetting;
      hexagon := h;
      sum := Target(h.sortedByRarity, pick);
      time := Some(memoTime);
      FreshRound(Now(), h.sums, sum);
    }

    /** `click(cell, pointSetter)`; a `null` cell stands for the `undefined` a key that is not a letter looks up. */
    method Click(cell: Cell?, counter: Counter)
      requires Valid()
      requires cell != null ==> IsCell(cell.letter)
      modifies this`phase, this`combo, this`calledCombos, this`points, this`points2, this`pendingReverts
      ensures Valid()
      ensures cell == null || hexagon == null ==> Now() == old(Now())
      ensures cell != null && hexagon != null ==>
        Now() == ClickStep(old(Now()), cell.letter, counter, hexagon.sums, hexagon.rarity, sum)
    {
      if cell != null && phase == PickingCombinations {
        if cell.letter in combo {
          DropLetter(combo, cell.letter);
          combo := RemoveFirst(combo, cell.letter);
        } else {
          AddLetter(combo, cell.letter);
          var newCombo := Sort(combo + [cell.letter]);
          if |newCombo| > 2 {
            JudgeKeepsCoherent(Now(), newCombo, counter, hexagon.sums, hexagon.rarity, sum);
            JudgeSelection(newCombo, counter);
          } else {
            combo := newCombo;
          }
        }
      }
    }

    /** The judging part of `click`: the selection `sel` has three letters. */
    method JudgeSelection(sel: string, counter: Counter)
      requires hexagon != null
      modifies this`phase, this`combo, this`calledCombos, this`points, this`points2, this`pendingReverts
      ensures Now() == Judge(old(Now()), sel, counter, hexagon.sums, hexagon.rarity, sum)
    {
      combo := sel;
      if sel in calledCombos {
        Score(counter, -1);
        ShowResponseToUser(AlreadyCalled);
      } else if sum.Some? && sel in hexagon.sums && hexagon.sums[sel] == sum.value {
        Score(counter, 1);
        calledCombos := calledCombos + [sel];
        if sum.value in hexagon.rarity && |calledCombos| == hexagon.rarity[sum.value] {
          phase := AllDone;
        } else {
          ShowResponseToUser(Correct);
        }
      } else {
        Score(counter, -1);
        ShowResponseToUser(Wrong);
      }
    }

    /** `pointSetter(p => p + delta)` on `counter`. */
    method Score(counter: Counter, delta: int)
      modifies this`points, this`points2
      ensures Now() == old(Now()).Scored(counter, delta)
    {
      if counter == Points {
        points := points + delta;
      } else {
        points2 := points2 + delta;
      }
    }

    /** `showResponseToUser`: shows `next` and schedules the timeout that `Revert` fires. */
    method ShowResponseToUser(next: Phase)
      modifies this`phase, this`pendingReverts
      ensures phase == next && pendingReverts == old(pendingReverts) + 1
    {
      phase := next;
      pendingReverts := pendingReverts + 1;
    }

    /** `keyPress`: the cell under the key, scored into `points2` in two-player mode and into `points` otherwise. */
    method KeyPress(key: string)
      requires Ready() && Valid()
      modifies this`phase, this`combo, this`calledCombos, this`points, this`points2, this`pendingReverts
      ensures Valid()
      ensures hexagon == null || !(|key| == 1 && key[0] in hexagon.cells) ==> Now() == old(Now())
      ensures hexagon != null && |key| == 1 && key[0] in hexagon.cells ==>
        Now() == ClickStep(old(Now()), key[0], if twoPlayersMode then Points2 else Points, hexagon.sums, hexagon.rarity, sum)
    {
      if hexagon != null && |key| == 1 && key[0] in hexagon.cells {
        Click(hexagon.cells[key[0]], if twoPlayersMode then Points2 else Points);
      }
    }

    /** A mouse click on a cell of the board, which always scores into `points`. */
    method MouseClick(cell: Cell)
      requires Ready() && Valid() && hexagon != null && cell in hexagon.cells.Values
      modifies this`phase, this`combo, this`calledCombos, this`points, this`points2, this`pendingReverts
      ensures Valid()
      ensures Now() == ClickStep(old(Now()), cell.letter, Points, hexagon.sums, hexagon.rarity, sum)
    {
      var l :| l in hexagon.cells && hexagon.cells[l] == cell;
      Click(cell, Points);
    }

    /**
     * `giveUp`, offered while the player is picking: lists every combination whose sum is
     * the target, in the order of the entries of `sums`.
     */
    method GiveUp()
      requires Ready() && Valid() && phase == PickingCombinations
      modifies this`phase, this`calledCombos
      ensures Valid()
      ensures phase == Phase.GiveUp
      ensures calledCombos == if sum.Some? then Matching(hexagon.combinations, hexagon.sums, sum.value) else []
    {
      phase := Phase.GiveUp;
      if sum.Some? {
        MatchingMembers(hexagon.combinations, hexagon.sums, sum.value);
        MatchingDistinct(hexagon.combinations, hexagon.sums, sum.value);
        calledCombos := Matching(hexagon.combinations, hexagon.sums, sum.value);
      } else {
        calledCombos := [];
      }
    }

    /** The timeout set by `showResponseToUser`: back to picking with an empty selection, whatever the phase. */
    method Revert()
      requires Valid() && pendingReverts > 0
      modifies this`phase, this`combo, this`pendingReverts
      ensures Valid()
      ensures phase == PickingCombinations && combo == "" && pendingReverts == old(pendingReverts) - 1
    {
      phase := PickingCombinations;
      combo := "";
      pendingReverts := pendingReverts - 1;
    }

    /**
     * The body of the one-second interval: counts the memorization time down, then starts
     * the picking; after giving up, shows the listed combinations one after another.
     */
    method Tick()
      requires Valid()
      modifies this`time, this`phase, this`combo, this`comboLoop
      ensures Valid()
      ensures old(phase) == Memorization && old(time).Some? && old(time).value > 0 ==>
        time == Some(old(time).value - 1) && phase == Memorization && combo == old(combo) && comboLoop == old(comboLoop)
      ensures old(phase) == Memorization && !(old(time).Some? && old(time).value > 0) ==>
        time == old(time) && phase == PickingCombinations && combo == old(combo) && comboLoop == old(comboLoop)
      ensures old(phase) == Phase.GiveUp ==>
        time == old(time) && phase == Phase.GiveUp &&
        comboLoop == (if old(comboLoop) >= |calledCombos| - 1 then 0 else old(comboLoop) + 1) &&
        (if |calledCombos| == 0 then comboLoop == 0 && combo == "" else comboLoop < |calledCombos| && combo == calledCombos[comboLoop])
      ensures old(phase) != Memorization && old(phase) != Phase.GiveUp ==>
        time == old(time) && phase == old(phase) && combo == old(combo) && comboLoop == old(comboLoop)
    {
      match phase {
        case Memorization =>
          if time.Some? && time.value > 0 {
            time := Some(time.value - 1);
          } else {
            phase := PickingCombinations;
          }
        case GiveUp =>
          var c := |calledCombos| - 1;
          comboLoop := if comboLoop >= c then 0 else comboLoop + 1;
          if comboLoop < |calledCombos| {
            combo := calledCombos[comboLoop];
          } else {
            combo := "";
          }
        case _ =>
      }
    }

    /** `resetPoints`: both counters back to 0. */
    method ResetPoints()
      modifies this`points, this`points2
      ensures points == 0 && points2 == 0
      ensures old(Valid()) ==> Valid()
    {
      points := 0;
      points2 := 0;
    }
  }

  // ---------------------------------------------------------------------------
  // Lemmas

  /** A round that has just started, with nothing selected and nothing called, is coherent. */
  lemma FreshRound(p: Progress, sums: map<string, int>, target: Option<int>)
    requires p.combo == "" && p.called == []
    ensures Coherent(p, sums, target)
  {
  }

  /** A click keeps the round coherent. */
  lemma ClickKeepsCoherent(p: Progress, letter: char, counter: Counter, sums: map<string, int>, rarity: map<int, nat>, target: Option<int>)
    requires Coherent(p, sums, target) && IsCell(letter)
    ensures Coherent(ClickStep(p, letter, counter, sums, rarity, target), sums, target)
  {
    if p.phase == PickingCombinations {
      if letter in p.combo {
        DropLetter(p.combo, letter);
      } else {
        AddLetter(p.combo, letter);
        var sel := Insert(p.combo, letter);
        if |sel| > 2 {
          JudgeKeepsCoherent(p, sel, counter, sums, rarity, target);
        }
      }
    }
  }

  /** Judging a selection of three cell letters keeps the round coherent. */
  lemma JudgeKeepsCoherent(p: Progress, sel: string, counter: Counter, sums: map<string, int>, rarity: map<int, nat>, target: Option<int>)
    requires Coherent(p, sums, target) && CellString(sel) && |sel| == 3
    ensures Coherent(Judge(p, sel, counter, sums, rarity, target), sums, target)
  {
    if sel !in p.called {
      DistinctConcat(p.called, [sel]);
    }
  }

  /** Clicking a selected letter twice gives the round back as it was: out, then in again. */
  lemma DeselectReselect(p: Progress, letter: char, counter: Counter, sums: map<string, int>, rarity: map<int, nat>, target: Option<int>)
    requires Coherent(p, sums, target) && p.phase == PickingCombinations && letter in p.combo
    ensures ClickStep(ClickStep(p, letter, counter, sums, rarity, target), letter, counter, sums, rarity, target) == p
  {
    DropLetter(p.combo, letter);
    RemoveThenAdd(p.combo, letter);
  }

  /** Clicking a new letter twice, before the selection is full, gives the round back as it was. */
  lemma SelectDeselect(p: Progress, letter: char, counter: Counter, sums: map<string, int>, rarity: map<int, nat>, target: Option<int>)
    requires Coherent(p, sums, target) && p.phase == PickingCombinations && letter !in p.combo && |p.combo| < 2
    ensures ClickStep(ClickStep(p, letter, counter, sums, rarity, target), letter, counter, sums, rarity, target) == p
  {
    AddLetter(p.combo, letter);
    AddThenRemove(p.combo, letter);
  }

  /**
   * A new letter is judged only when it makes the selection three letters long; before that
   * only the selection changes.
   */
  lemma JudgedAtThree(p: Progress, letter: char, counter: Counter, sums: map<string, int>, rarity: map<int, nat>, target: Option<int>)
    requires Coherent(p, sums, target) && p.phase == PickingCombinations && letter !in p.combo
    ensures var q := ClickStep(p, letter, counter, sums, rarity, target);
      |q.combo| == |p.combo| + 1 &&
      (|p.combo| < 2 <==> q == p.(combo := q.combo)) &&
      (|p.combo| == 2 <==> q.phase != PickingCombinations)
  {
    AddLetter(p.combo, letter);
  }

  /**
   * How a three-letter selection is scored: a new one that hits the target gains a point on
   * the acting counter and is appended to the called list; any other loses a point and leaves
   * the list as it was. The other counter never moves.
   */
  lemma JudgedSelection(p: Progress, letter: char, counter: Counter, sums: map<string, int>, rarity: map<int, nat>, target: Option<int>)
    requires Coherent(p, sums, target) && p.phase == PickingCombinations && letter !in p.combo && |p.combo| == 2
    ensures var q := ClickStep(p, letter, counter, sums, rarity, target);
      var hit := Hits(q.combo, sums, target) && q.combo !in p.called;
      |q.combo| == 3 &&
      q.Score(Other(counter)) == p.Score(Other(counter)) &&
      (hit ==>
        q.Score(counter) == p.Score(counter) + 1 && q.called == p.called + [q.combo] &&
        q.phase == (if RoundComplete(q.called, rarity, target) then AllDone else Correct)) &&
      (!hit ==>
        q.Score(counter) == p.Score(counter) - 1 && q.called == p.called &&
        q.phase == (if q.combo in p.called then AlreadyCalled else Wrong))
  {
    AddLetter(p.combo, letter);
  }

  /** A subset at least as large as its superset is the superset. */
  lemma SubsetCard<T>(a: set<T>, b: set<T>)
    requires a <= b
    ensures |a| <= |b|
    ensures |a| == |b| ==> a == b
  {
    var d := b - a;
    assert b == a + d && a * d == {};
  }

  /**
   * A list of distinct elements drawn from another list of distinct elements holds all of
   * them exactly when it is as long; one element shorter, it misses one.
   */
  lemma CoversWhenAsLong<T>(sub: seq<T>, all: seq<T>)
    requires Distinct(sub) && Distinct(all) && forall c :: c in sub ==> c in all
    ensures |sub| <= |all|
    ensures |sub| == |all| <==> forall c :: c in all ==> c in sub
  {
    DistinctCard(sub);
    DistinctCard(all);
    var ss := set c | c in sub;
    var sa := set c | c in all;
    assert ss <= sa;
    SubsetCard(ss, sa);
    if forall c :: c in all ==> c in sub {
      assert sa <= ss;
      assert ss == sa;
    }
    if |sub| == |all| {
      forall c | c in all
        ensures c in sub
      {
        assert c in sa;
      }
    }
  }

  /**
   * The intended end-of-round test: the called list is as long as `rarity` counts for the
   * target exactly when every combination with that sum has been called.
   */
  lemma RoundCompleteMeansAllFound(combos: seq<string>, sums: map<string, int>, rarity: map<int, nat>, sorted: seq<int>, called: seq<string>, t: int)
    requires Consistent(combos, sums, rarity, sorted) && Distinct(combos)
    requires Distinct(called) && forall c :: c in called ==> Hits(c, sums, Some(t))
    requires t in rarity
    ensures RoundComplete(called, rarity, Some(t)) <==> forall c :: c in Matching(combos, sums, t) ==> c in called
  {
    RarityOfTables(combos, sums, rarity, sorted);
    MatchingMembers(combos, sums, t);
    MatchingDistinct(combos, sums, t);
    CoversWhenAsLong(called, Matching(combos, sums, t));
  }

  /**
   * The test as written ends the round one combination early: whenever it fires, some
   * combination with the target sum has not been called yet.
   */
  lemma AsWrittenEndsEarly(combos: seq<string>, sums: map<string, int>, rarity: map<int, nat>, sorted: seq<int>, called: seq<string>, t: int)
    requires Consistent(combos, sums, rarity, sorted) && Distinct(combos)
    requires Distinct(called) && forall c :: c in called ==> Hits(c, sums, Some(t))
    requires AllDoneAsWritten(called, rarity, Some(t))
    ensures exists c :: c in Matching(combos, sums, t) && c !in called
  {
    RarityOfTables(combos, sums, rarity, sorted);
    MatchingMembers(combos, sums, t);
    MatchingDistinct(combos, sums, t);
    CoversWhenAsLong(called, Matching(combos, sums, t));
  }

  /** A round ended by a click has every combination with the target sum in the called list. */
  lemma AllDoneMeansAllFound(p: Progress, letter: char, counter: Counter, combos: seq<string>, sums: map<string, int>, rarity: map<int, nat>, sorted: seq<int>, target: Option<int>)
    requires Consistent(combos, sums, rarity, sorted) && Distinct(combos)
    requires Coherent(p, sums, target) && IsCell(letter)
    requires ClickStep(p, letter, counter, sums, rarity, target).phase == AllDone && p.phase != AllDone
    ensures forall c :: c in Matching(combos, sums, target.value) ==> c in ClickStep(p, letter, counter, sums, rarity, target).called
  {
    var q := ClickStep(p, letter, counter, sums, rarity, target);
    ClickKeepsCoherent(p, letter, counter, sums, rarity, target);
    RoundCompleteMeansAllFound(combos, sums, rarity, sorted, q.called, target.value);
  }

  /**
   * The target drawn at index `k` is a sum that occurs, and every sum more frequent than it
   * comes before it in `sortedByRarity`, so with `k` at most 2 it is among the three most
   * repeated sums.
   */
  lemma TargetIsCommon(combos: seq<string>, sums: map<string, int>, rarity: map<int, nat>, sorted: seq<int>, k: int)
    requires Consistent(combos, sums, rarity, sorted) && 0 <= k && Target(sorted, k).Some?
    ensures Target(sorted, k).value in rarity && |Matching(combos, sums, Target(sorted, k).value)| > 0
    ensures forall s :: s in rarity && rarity[s] > rarity[Target(sorted, k).value] ==> s in sorted[..k]
  {
    var t := sorted[k];
    assert t in sorted;
    RarityOfTables(combos, sums, rarity, sorted);
    forall s | s in rarity && rarity[s] > rarity[t]
      ensures s in sorted[..k]
    {
      var i :| 0 <= i < |sorted| && sorted[i] == s;
      assert i < k;
      assert sorted[..k][i] == s;
    }
  }

  /**
   * `giveUp` lists, without repeats, every combination whose sum is the target and nothing
   * else, as many as `rarity` counts; the combinations called before are among them.
   */
  lemma GiveUpListsAll(combos: seq<string>, sums: map<string, int>, rarity: map<int, nat>, sorted: seq<int>, called: seq<string>, t: int)
    requires Consistent(combos, sums, rarity, sorted) && Distinct(combos)
    requires forall c :: c in called ==> Hits(c, sums, Some(t))
    ensures Distinct(Matching(combos, sums, t))
    ensures forall c :: c in Matching(combos, sums, t) <==> Hits(c, sums, Some(t))
    ensures forall c :: c in called ==> c in Matching(combos, sums, t)
    ensures |Matching(combos, sums, t)| == if t in rarity then rarity[t] else 0
  {
    RarityOfTables(combos, sums, rarity, sorted);
    MatchingMembers(combos, sums, t);
    MatchingDistinct(combos, sums, t);
  }

  /** A board as `generateHexagon` lays it out fits a round. */
  lemma ShapedFits(h: Hexagon)
    requires h.Shaped()
    ensures Fits(h)
  {
    CombinationsDistinct();
  }

  /**
   * Whatever order the three cells of a line are clicked in, the selection is that line's
   * key in `sums`.
   */
  lemma SelectionFindsLine(sums: map<string, int>, rarity: map<int, nat>, sorted: seq<int>, sel: string, t: string)
    requires Consistent(Combinations(), sums, rarity, sorted)
    requires t in Combinations() && multiset(sel) == multiset(t)
    ensures Sort(sel) == t && Sort(sel) in sums
  {
    SelectionIsId(sel, t);
  }
}
