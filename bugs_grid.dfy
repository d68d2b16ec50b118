/**
 * src/games/bugsequence/objects/bugsGrid.ts: the grid of bugs, of which a
 * few are "active" and must be clicked in order. Bugs are identified by
 * their index in creation order; `children` is the grid sizer's child
 * array (which the engine's shuffle reorders in place) and `revealed`
 * holds each bug's `isRevealed` flag. Textures, callbacks that only tween
 * and the layout are not modelled.
 */
module BugsGrids {
  import opened Wrappers
  import Js
  import opened Permutations

  const DefaultWidth: int := 100
  const DefaultHeight: int := 100
  const DefaultRows: int := 6
  const DefaultColumns: int := 4
  const DefaultActiveBugsCount: int := 3
  const DefaultRevealDuration: int := 1000
  const DefaultActiveTexture: string := "bug_active"
  const DefaultWrongTexture: string := "bug_wrong"
  const DefaultHiddenTexture: string := "bug_hidden"

  const MissingBugError: string := "TypeError: randomBug is undefined"

  /** `BugsGridConfig` without the position. */
  class BugsGridConfig {
    var width: Option<int>
    var height: Option<int>
    var rows: Option<int>
    var columns: Option<int>
    var activeBugsCount: Option<int>
    var activeBugsRevealDuration: Option<int>
    var activeBugTexture: Option<string>
    var wrongBugTexture: Option<string>
    var hiddenBugTexture: Option<string>

    constructor (rows: Option<int>, columns: Option<int>, activeBugsCount: Option<int>, revealDuration: Option<int>)
      ensures this.rows == rows && this.columns == columns
      ensures this.activeBugsCount == activeBugsCount && activeBugsRevealDuration == revealDuration
      ensures width == None && height == None
      ensures activeBugTexture == None && wrongBugTexture == None && hiddenBugTexture == None
    {
      this.rows := rows;
      this.columns := columns;
      this.activeBugsCount := activeBugsCount;
      activeBugsRevealDuration := revealDuration;
      width := None;
      height := None;
      activeBugTexture := None;
      wrongBugTexture := None;
      hiddenBugTexture := None;
    }
  }

  /** The numeric half of `getValidConfig`. */
  method GetValidNumbers(config: BugsGridConfig)
    modifies config
    ensures config.width == Some(Js.NumberOr(old(config.width), DefaultWidth))
    ensures config.height == Some(Js.NumberOr(old(config.height), DefaultHeight))
    ensures config.rows == Some(Js.NumberOr(old(config.rows), DefaultRows))
    ensures config.columns == Some(Js.NumberOr(old(config.columns), DefaultColumns))
    ensures config.activeBugsCount == Some(Js.NumberOr(old(config.activeBugsCount), DefaultActiveBugsCount))
    ensures config.activeBugsRevealDuration == Some(Js.NumberOr(old(config.activeBugsRevealDuration), DefaultRevealDuration))
    ensures config.activeBugTexture == old(config.activeBugTexture)
    ensures config.wrongBugTexture == old(config.wrongBugTexture)
    ensures config.hiddenBugTexture == old(config.hiddenBugTexture)
  {
    if Js.FalsyNumber(config.width) {
      config.width := Some(DefaultWidth);
    }
    if Js.FalsyNumber(config.height) {
      config.height := Some(DefaultHeight);
    }
    if Js.FalsyNumber(config.rows) {
      config.rows := Some(DefaultRows);
    }
    if Js.FalsyNumber(config.columns) {
      config.columns := Some(DefaultColumns);
    }
    if Js.FalsyNumber(config.activeBugsCount) {
      config.activeBugsCount := Some(DefaultActiveBugsCount);
    }
    if Js.FalsyNumber(config.activeBugsRevealDuration) {
      config.activeBugsRevealDuration := Some(DefaultRevealDuration);
    }
  }

  /** `getValidConfig`: every falsy field takes its own default. */
  method GetValidConfig(config: BugsGridConfig)
    modifies config
    ensures config.width == Some(Js.NumberOr(old(config.width), DefaultWidth))
    ensures config.height == Some(Js.NumberOr(old(config.height), DefaultHeight))
    ensures config.rows == Some(Js.NumberOr(old(config.rows), DefaultRows))
    ensures config.columns == Some(Js.NumberOr(old(config.columns), DefaultColumns))
    ensures config.activeBugsCount == Some(Js.NumberOr(old(config.activeBugsCount), DefaultActiveBugsCount))
    ensures config.activeBugsRevealDuration == Some(Js.NumberOr(old(config.activeBugsRevealDuration), DefaultRevealDuration))
    ensures config.activeBugTexture == Some(Js.StringOr(old(config.activeBugTexture), DefaultActiveTexture))
    ensures config.wrongBugTexture == Some(Js.StringOr(old(config.wrongBugTexture), DefaultWrongTexture))
    ensures config.hiddenBugTexture == Some(Js.StringOr(old(config.hiddenBugTexture), DefaultHiddenTexture))
  {
    GetValidNumbers(config);
    if Js.FalsyString(config.activeBugTexture) {
      config.activeBugTexture := Some(DefaultActiveTexture);
    }
    if Js.FalsyString(config.wrongBugTexture) {
      config.wrongBugTexture := Some(DefaultWrongTexture);
    }
    if Js.FalsyString(config.hiddenBugTexture) {
      config.hiddenBugTexture := Some(DefaultHiddenTexture);
    }
  }

  /** The cells of a grid sizer with that many rows and columns, one bug per cell. */
  function GridCells(rowCount: int, columnCount: int): nat {
    if rowCount > 0 && columnCount > 0 then rowCount * columnCount else 0
  }

  /** The index of the cell in row r and column c, counted row by row. */
  function CellIndex(r: nat, c: nat, columns: nat): nat {
    r * columns + c
  }

  /** The grid as the constructor builds it: `column: config.columns, row: config.columns`. */
  function AsWrittenBugCount(rows: int, columns: int): (n: nat)
    ensures n == BugCount(columns, columns)
    ensures columns > 0 ==> n == columns * columns
  {
    GridCells(columns, columns)
  }

  /** With the default 6 rows and 4 columns the grid has 16 bugs, and the cells of rows 4 and 5 do not exist. */
  lemma AsWrittenDropsRows()
    ensures AsWrittenBugCount(DefaultRows, DefaultColumns) == 16
    ensures CellIndex(5, 0, 4) >= AsWrittenBugCount(DefaultRows, DefaultColumns)
    ensures forall rows: int, columns: int :: rows > columns > 0 ==> AsWrittenBugCount(rows, columns) < rows * columns
  {
    forall rows: int, columns: int | rows > columns > 0 ensures AsWrittenBugCount(rows, columns) < rows * columns {
      assert columns * columns < rows * columns;
    }
  }

  /** The grid the configuration asks for: `row: config.rows`. */
  function BugCount(rows: int, columns: int): (n: nat)
    ensures rows > 0 && columns > 0 ==> n == rows * columns
    ensures rows <= 0 || columns <= 0 ==> n == 0
  {
    GridCells(rows, columns)
  }

  lemma CellInGrid(r: nat, c: nat, rows: nat, columns: nat)
    requires r < rows && c < columns
    ensures CellIndex(r, c, columns) < rows * columns
  {
    assert r * columns <= (rows - 1) * columns by {
      assert (rows - 1) * columns == r * columns + (rows - 1 - r) * columns;
    }
  }

  lemma CellOfIndex(i: nat, rows: nat, columns: nat)
    requires columns > 0 && i < rows * columns
    ensures i / columns < rows && CellIndex(i / columns, i % columns, columns) == i
  {
  }

  /**
   * The corrected grid holds exactly one bug for each of the configured
   * rows and columns: every cell of rows x columns has a bug index, every
   * bug index is a cell, and no two cells share one.
   */
  lemma BugPerCell(rows: nat, columns: nat)
    requires rows > 0 && columns > 0
    ensures BugCount(rows, columns) == rows * columns
    ensures forall r: nat, c: nat :: r < rows && c < columns ==> CellIndex(r, c, columns) < BugCount(rows, columns)
    ensures forall i: nat :: i < BugCount(rows, columns) ==>
      i / columns < rows && CellIndex(i / columns, i % columns, columns) == i
    ensures forall r1: nat, c1: nat, r2: nat, c2: nat ::
      c1 < columns && c2 < columns && CellIndex(r1, c1, columns) == CellIndex(r2, c2, columns) ==> r1 == r2 && c1 == c2
  {
    forall r: nat, c: nat | r < rows && c < columns ensures CellIndex(r, c, columns) < BugCount(rows, columns) {
      CellInGrid(r, c, rows, columns);
    }
    forall i: nat | i < BugCount(rows, columns) ensures i / columns < rows && CellIndex(i / columns, i % columns, columns) == i {
      CellOfIndex(i, rows, columns);
    }
    forall r1: nat, c1: nat, r2: nat, c2: nat | c1 < columns && c2 < columns && CellIndex(r1, c1, columns) == CellIndex(r2, c2, columns)
      ensures r1 == r2 && c1 == c2
    {
      CellUnique(r1, c1, r2, c2, columns);
    }
  }

  lemma CellUnique(r1: nat, c1: nat, r2: nat, c2: nat, columns: nat)
    requires c1 < columns && c2 < columns && CellIndex(r1, c1, columns) == CellIndex(r2, c2, columns)
    ensures r1 == r2 && c1 == c2
  {
    if r1 < r2 {
      RowsApart(r1, r2, columns);
    } else if r2 < r1 {
      RowsApart(r2, r1, columns);
    }
  }

  /** A later row starts at least one full row after every cell of an earlier one. */
  lemma RowsApart(a: nat, b: nat, n: nat)
    requires a < b
    ensures a * n + n <= b * n
  {
    var d: nat := b - a - 1;
    assert b * n == a * n + n + d * n;
  }

  /** The shuffled bugs a `shuffleBugs` without failure makes active: at most the count, and none of an empty grid. */
  function ActiveCount(activeBugsCount: int, bugCount: nat): nat {
    if bugCount == 0 || activeBugsCount <= 0 then 0 else activeBugsCount
  }

  class BugsGrid {
    const activeBugsCount: int
    const revealDuration: int
    const bugCount: nat
    /** The grid sizer's children, which `_hiddenBugs` shares. */
    var children: seq<nat>
    /** `isRevealed` of each bug. */
    const revealed: array<bool>
    var activeBugs: seq<nat>
    var isRevealingActiveBugs: bool
    var resetFlag: bool

    /** The children list every bug once, and the active bugs are the first children. */
    ghost predicate Valid()
      reads this, revealed
    {
      && revealed.Length == bugCount
      && IsPermutation(children, bugCount)
      && |activeBugs| <= |children| && activeBugs == children[..|activeBugs|]
    }

    /** The configuration under which `shuffleBugs` cannot run past the grid's end. */
    predicate Fits() {
      bugCount == 0 || activeBugsCount <= bugCount
    }

    /** The constructor up to its `shuffleBugs` call: every bug is created hidden and unrevealed. */
    constructor (config: BugsGridConfig)
      modifies config
      ensures config.rows == Some(Js.NumberOr(old(config.rows), DefaultRows))
      ensures config.columns == Some(Js.NumberOr(old(config.columns), DefaultColumns))
      ensures config.activeBugsCount == Some(Js.NumberOr(old(config.activeBugsCount), DefaultActiveBugsCount))
      ensures config.activeBugsRevealDuration == Some(Js.NumberOr(old(config.activeBugsRevealDuration), DefaultRevealDuration))
      ensures activeBugsCount == config.activeBugsCount.value && revealDuration == config.activeBugsRevealDuration.value
      ensures bugCount == BugCount(config.rows.value, config.columns.value)
      ensures fresh(revealed) && forall b :: 0 <= b < revealed.Length ==> !revealed[b]
      ensures forall i :: 0 <= i < |children| ==> children[i] == i
      ensures activeBugs == [] && !isRevealingActiveBugs && !resetFlag
      ensures Valid()
    {
      GetValidConfig(config);
      activeBugsCount := config.activeBugsCount.value;
      revealDuration := config.activeBugsRevealDuration.value;
      var n := BugCount(config.rows.value, config.columns.value);
      bugCount := n;
      children := seq(n, i requires 0 <= i < n => i);
      revealed := new bool[n](_ => false);
      activeBugs := [];
      isRevealingActiveBugs := false;
      resetFlag := false;
    }

    /** `resetBugs`: every bug of the grid becomes unrevealed. */
    method ResetBugs()
      requires Valid()
      modifies this, revealed
      ensures Valid()
      ensures forall b :: 0 <= b < revealed.Length ==> !revealed[b]
      ensures resetFlag
      ensures children == old(children) && activeBugs == old(activeBugs)
      ensures isRevealingActiveBugs == old(isRevealingActiveBugs)
    {
      for i := 0 to |children|
        invariant Valid()
        invariant children == old(children) && activeBugs == old(activeBugs)
        invariant isRevealingActiveBugs == old(isRevealingActiveBugs)
        invariant forall k :: 0 <= k < i ==> !revealed[children[k]]
      {
        revealed[children[i]] := false;
      }
      forall b | 0 <= b < revealed.Length ensures !revealed[b] {
        PermutationCovers(children, bugCount, b);
      }
      resetFlag := true;
    }

    /**
     * `shuffleBugs`, given the engine's permutation of the children: the
     * active bugs are the first `activeBugsCount` children after the
     * shuffle. The loop stops at the count, not at the end of the grid, so
     * a count above a non-empty grid's size runs into `bugs[i]` undefined
     * and throws, after every bug was made active and before the reset flag
     * is cleared.
     */
    method ShuffleBugs(p: seq<nat>) returns (r: Outcome)
      requires Valid() && IsPermutation(p, bugCount)
      modifies this, revealed
      ensures Valid()
      ensures children == Permute(old(children), p)
      ensures isRevealingActiveBugs == old(isRevealingActiveBugs)
      ensures !old(resetFlag) ==> forall b :: 0 <= b < revealed.Length ==> !revealed[b]
      ensures old(resetFlag) ==> revealed[..] == old(revealed[..])
      ensures r.Pass? <==> Fits()
      ensures r.Pass? ==> activeBugs == children[..ActiveCount(activeBugsCount, bugCount)] && !resetFlag
      ensures r.Fail? ==> activeBugs == children && resetFlag && r.error == MissingBugError
    {
      PermuteDistinct(children, p);
      var bugs := Permute(children, p);
      assert IsPermutation(bugs, bugCount);
      children := bugs;
      activeBugs := [];
      if !resetFlag {
        ResetBugs();
      }
      var i := 0;
      while i < activeBugsCount && |bugs| != 0
        invariant 0 <= i <= |bugs|
        invariant i == 0 || i <= activeBugsCount
        invariant children == bugs && activeBugs == bugs[..i]
        invariant isRevealingActiveBugs == old(isRevealingActiveBugs)
        invariant Valid()
        invariant !old(resetFlag) ==> forall b :: 0 <= b < revealed.Length ==> !revealed[b]
        invariant old(resetFlag) ==> revealed[..] == old(revealed[..]) && resetFlag
        invariant resetFlag
        decreases |bugs| - i
      {
        if i >= |bugs| {
          return Fail(MissingBugError);
        }
        assert bugs[..i + 1] == bugs[..i] + [bugs[i]];
        activeBugs := activeBugs + [bugs[i]];
        i := i + 1;
      }
      resetFlag := false;
      r := Pass;
    }

    /** `revealActiveBugsAsync` up to its first `await`: a reveal already running makes it return at once. */
    method StartReveal() returns (started: bool)
      modifies this
      ensures started <==> !old(isRevealingActiveBugs)
      ensures isRevealingActiveBugs
      ensures children == old(children) && activeBugs == old(activeBugs) && resetFlag == old(resetFlag)
    {
      if isRevealingActiveBugs {
        return false;
      }
      isRevealingActiveBugs := true;
      started := true;
    }

    /** The end of `revealActiveBugsAsync`, after every active bug was shown in turn. */
    method FinishReveal()
      modifies this
      ensures !isRevealingActiveBugs
      ensures children == old(children) && activeBugs == old(activeBugs) && resetFlag == old(resetFlag)
    {
      isRevealingActiveBugs := false;
    }
  }

  /** The active bugs are distinct bugs of the grid. */
  lemma ActiveBugsDistinct(children: seq<nat>, activeBugs: seq<nat>, bugCount: nat)
    requires IsPermutation(children, bugCount)
    requires |activeBugs| <= |children| && activeBugs == children[..|activeBugs|]
    ensures Distinct(activeBugs)
    ensures forall k :: 0 <= k < |activeBugs| ==> activeBugs[k] < bugCount
  {
  }

  /**
   * `new BugsGrid(...)`: the constructor's `shuffleBugs` throws when the
   * count exceeds a non-empty grid; otherwise the grid starts with its
   * first active bugs chosen and every bug unrevealed.
   */
  method Create(config: BugsGridConfig, p: seq<nat>) returns (r: Result<BugsGrid>)
    requires IsPermutation(p, BugCount(Js.NumberOr(config.rows, DefaultRows), Js.NumberOr(config.columns, DefaultColumns)))
    modifies config
    ensures r.Failure? ==> r.error == MissingBugError
    ensures r.Success? ==>
      var g := r.value;
      && fresh(g) && fresh(g.revealed) && g.Valid() && g.Fits()
      && g.activeBugs == g.children[..ActiveCount(g.activeBugsCount, g.bugCount)]
      && (forall b :: 0 <= b < g.revealed.Length ==> !g.revealed[b])
      && !g.isRevealingActiveBugs && !g.resetFlag
    ensures var count := Js.NumberOr(old(config.activeBugsCount), DefaultActiveBugsCount);
      var n := BugCount(Js.NumberOr(old(config.rows), DefaultRows), Js.NumberOr(old(config.columns), DefaultColumns));
      r.Success? <==> n == 0 || count <= n
  {
    var g := new BugsGrid(config);
    var shuffled := g.ShuffleBugs(p);
    if shuffled.Fail? {
      return Failure(shuffled.error);
    }
    r := Success(g);
  }
}
