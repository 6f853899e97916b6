/**
 * The level catalog (level.py): three fixed brick layouts placed on a grid of
 * 90x20 cells, built row by row as the source's nested loops do, and the
 * properties of the result: which cells hold a brick, how many bricks each
 * level has, and that no two bricks share an origin.
 */
module Levels {
  import opened Geometry
  import opened Entities

  /** A level: its number and the set of its remaining bricks. */
  datatype Level = Level(lvl: int, blocks: set<Brick>)

  /** Horizontal start of the grid, `(width - 10 * brick width) / 2`, truncated. */
  function GridLeft(gameWidth: int): int
  {
    TruncHalf(gameWidth - 10 * BrickSize.width)
  }

  /** Vertical start of the grid: 50 for levels 1 and 2, 100 for level 3. */
  function GridTop(lvl: int): int
  {
    if lvl == 3 then 100 else 50
  }

  /** `_get_block_location`: the origin of the brick in row `i`, column `j`. */
  function GetBlockLocation(left: int, top: int, i: int, j: int): (int, int)
  {
    (left + BrickSize.width * j, top + BrickSize.height * i)
  }

  /** `_create_block`: the brick whose origin is cell (i, j)'s location. */
  function CreateBlock(left: int, top: int, i: int, j: int): Brick
  {
    var location := GetBlockLocation(left, top, i, j);
    NewBrick(location.0, location.1)
  }

  /** Number of rows and columns the source's loops run over, per level. */
  function RowCount(lvl: int): nat { if lvl == 3 then 10 else 11 }

  function ColumnCount(lvl: int): nat { if lvl == 2 then 11 else 10 }

  /**
   * Cell (i, j) holds a brick: level 1 has full even rows and the two border
   * columns, level 2 a checkerboard over 11x11 cells, level 3 a full 10x10
   * block.
   */
  predicate InLayout(lvl: int, i: int, j: int)
  {
    0 <= i < RowCount(lvl) && 0 <= j < ColumnCount(lvl) &&
    match lvl
    case 1 => i % 2 == 0 || j == 0 || j == 9
    case 2 => j % 2 == i % 2
    case 3 => true
    case _ => false
  }

  /** The bricks of columns 0..n-1 of row `i`. */
  function Row(lvl: int, left: int, top: int, i: int, n: nat): set<Brick>
  {
    if n == 0 then {}
    else if InLayout(lvl, i, n - 1) then Row(lvl, left, top, i, n - 1) + {CreateBlock(left, top, i, n - 1)}
    else Row(lvl, left, top, i, n - 1)
  }

  /** The bricks of rows 0..m-1. */
  function Rows(lvl: int, left: int, top: int, m: nat): set<Brick>
  {
    if m == 0 then {}
    else Rows(lvl, left, top, m - 1) + Row(lvl, left, top, m - 1, ColumnCount(lvl))
  }

  /** The bricks of level `lvl` for a play field of width `gameWidth`. */
  function Layout(lvl: int, gameWidth: int): set<Brick>
  {
    Rows(lvl, GridLeft(gameWidth), GridTop(lvl), RowCount(lvl))
  }

  /** What `get_levels` returns: levels 1, 2 and 3, keyed by their number. */
  function Catalog(gameSize: Size): map<int, Level>
  {
    map[1 := Level(1, Layout(1, gameSize.width)),
        2 := Level(2, Layout(2, gameSize.width)),
        3 := Level(3, Layout(3, gameSize.width))]
  }

  /** `get_levels`: generates the three layouts with the source's nested loops. */
  method GetLevels(gameSize: Size) returns (levels: map<int, Level>)
    ensures levels == Catalog(gameSize)
  {
    var left := GridLeft(gameSize.width);

    // Level 1: full even rows plus the two border columns.
    var top := 50;
    var blocks: set<Brick> := {};
    var i := 0;
    while i < 11
      invariant 0 <= i <= 11
      invariant blocks == Rows(1, left, top, i)
    {
      var j := 0;
      while j < 10
        invariant 0 <= j <= 10
        invariant blocks == Rows(1, left, top, i) + Row(1, left, top, i, j)
      {
        if i % 2 == 0 || j == 0 || j == 9 {
          blocks := blocks + {CreateBlock(left, top, i, j)};
        }
        j := j + 1;
      }
      i := i + 1;
    }
    levels := map[1 := Level(1, blocks)];

    // Level 2: a checkerboard, every other column starting at i % 2.
    top := 50;
    blocks := {};
    i := 0;
    while i < 11
      invariant 0 <= i <= 11
      invariant blocks == Rows(2, left, top, i)
    {
      var j := i % 2;
      while j < 11
        invariant i % 2 <= j <= 12 && j % 2 == i % 2
        invariant blocks == Rows(2, left, top, i) + Row(2, left, top, i, j)
      {
        blocks := blocks + {CreateBlock(left, top, i, j)};
        j := j + 2;
      }
      assert Row(2, left, top, i, j) == Row(2, left, top, i, 11);
      i := i + 1;
    }
    levels := levels[2 := Level(2, blocks)];

    // Level 3: a full block of 10x10 bricks.
    top := 100;
    blocks := {};
    i := 0;
    while i < 10
      invariant 0 <= i <= 10
      invariant blocks == Rows(3, left, top, i)
    {
      var j := 0;
      while j < 10
        invariant 0 <= j <= 10
        invariant blocks == Rows(3, left, top, i) + Row(3, left, top, i, j)
      {
        blocks := blocks + {CreateBlock(left, top, i, j)};
        j := j + 1;
      }
      i := i + 1;
    }
    levels := levels[3 := Level(3, blocks)];
  }

  /** Distinct cells give distinct bricks: `_get_block_location` is injective. */
  lemma CreateBlockInjective(left: int, top: int, i: int, j: int, i': int, j': int)
    requires CreateBlock(left, top, i, j) == CreateBlock(left, top, i', j')
    ensures i == i' && j == j'
  {
  }

  /** The cell a brick of the grid at (left, top) sits in. */
  function CellOf(left: int, top: int, b: Brick): (int, int)
  {
    ((b.frame.y - top) / BrickSize.height, (b.frame.x - left) / BrickSize.width)
  }

  lemma CellOfCreateBlock(left: int, top: int, i: int, j: int)
    ensures CellOf(left, top, CreateBlock(left, top, i, j)) == (i, j)
  {
    assert (BrickSize.height * i) / BrickSize.height == i;
    assert (BrickSize.width * j) / BrickSize.width == j;
  }

  /** A cell's brick is in row `i`'s first `n` columns iff it is a laid-out cell there. */
  lemma {:induction false} RowMembership(lvl: int, left: int, top: int, i: int, n: nat, a: int, b: int)
    ensures CreateBlock(left, top, a, b) in Row(lvl, left, top, i, n)
            <==> a == i && 0 <= b < n && InLayout(lvl, i, b)
  {
    if n > 0 {
      RowMembership(lvl, left, top, i, n - 1, a, b);
      if CreateBlock(left, top, a, b) == CreateBlock(left, top, i, n - 1) {
        CreateBlockInjective(left, top, a, b, i, n - 1);
      }
    }
  }

  /** Every brick of row `i` is the brick of one of its laid-out cells. */
  lemma {:induction false} RowElements(lvl: int, left: int, top: int, i: int, n: nat, e: Brick)
    requires e in Row(lvl, left, top, i, n)
    ensures CellOf(left, top, e).0 == i
    ensures 0 <= CellOf(left, top, e).1 < n && InLayout(lvl, i, CellOf(left, top, e).1)
    ensures e == CreateBlock(left, top, i, CellOf(left, top, e).1)
  {
    if e in Row(lvl, left, top, i, n - 1) {
      RowElements(lvl, left, top, i, n - 1, e);
    } else {
      CellOfCreateBlock(left, top, i, n - 1);
    }
  }

  lemma {:induction false} RowsMembership(lvl: int, left: int, top: int, m: nat, a: int, b: int)
    ensures CreateBlock(left, top, a, b) in Rows(lvl, left, top, m)
            <==> 0 <= a < m && 0 <= b < ColumnCount(lvl) && InLayout(lvl, a, b)
  {
    if m > 0 {
      RowsMembership(lvl, left, top, m - 1, a, b);
      RowMembership(lvl, left, top, m - 1, ColumnCount(lvl), a, b);
    }
  }

  lemma {:induction false} RowsElements(lvl: int, left: int, top: int, m: nat, e: Brick)
    requires e in Rows(lvl, left, top, m)
    ensures InLayout(lvl, CellOf(left, top, e).0, CellOf(left, top, e).1)
    ensures CellOf(left, top, e).0 < m
    ensures e == CreateBlock(left, top, CellOf(left, top, e).0, CellOf(left, top, e).1)
  {
    if e in Rows(lvl, left, top, m - 1) {
      RowsElements(lvl, left, top, m - 1, e);
    } else {
      RowElements(lvl, left, top, m - 1, ColumnCount(lvl), e);
    }
  }

  /**
   * Pattern membership: the brick of cell (i, j) belongs to level `lvl` iff
   * the cell is part of the level's pattern, and every brick of the level is
   * the brick of such a cell, at (left + 90 j, top + 20 i).
   */
  lemma {:induction false} LayoutMembership(lvl: int, gameWidth: int, i: int, j: int)
    ensures CreateBlock(GridLeft(gameWidth), GridTop(lvl), i, j) in Layout(lvl, gameWidth)
            <==> InLayout(lvl, i, j)
  {
    RowsMembership(lvl, GridLeft(gameWidth), GridTop(lvl), RowCount(lvl), i, j);
  }

  lemma {:induction false} LayoutElements(lvl: int, gameWidth: int, e: Brick)
    requires e in Layout(lvl, gameWidth)
    ensures var cell := CellOf(GridLeft(gameWidth), GridTop(lvl), e);
            InLayout(lvl, cell.0, cell.1) &&
            e.frame == Frame(GridLeft(gameWidth) + 90 * cell.1, GridTop(lvl) + 20 * cell.0, 90, 20)
  {
    RowsElements(lvl, GridLeft(gameWidth), GridTop(lvl), RowCount(lvl), e);
  }

  /** Number of laid-out cells among the first `n` columns of row `i`. */
  function RowCells(lvl: int, i: int, n: nat): nat
  {
    if n == 0 then 0
    else if InLayout(lvl, i, n - 1) then RowCells(lvl, i, n - 1) + 1
    else RowCells(lvl, i, n - 1)
  }

  /** Number of laid-out cells among the first `m` rows. */
  function RowsCells(lvl: int, m: nat): nat
  {
    if m == 0 then 0
    else RowsCells(lvl, m - 1) + RowCells(lvl, m - 1, ColumnCount(lvl))
  }

  lemma {:induction false} RowSize(lvl: int, left: int, top: int, i: int, n: nat)
    ensures |Row(lvl, left, top, i, n)| == RowCells(lvl, i, n)
  {
    if n > 0 {
      RowSize(lvl, left, top, i, n - 1);
      RowMembership(lvl, left, top, i, n - 1, i, n - 1);
    }
  }

  /** Rows before row `m` and row `m` itself share no brick. */
  lemma {:induction false} RowsRowDisjoint(lvl: int, left: int, top: int, m: nat)
    ensures Rows(lvl, left, top, m) * Row(lvl, left, top, m, ColumnCount(lvl)) == {}
  {
    if e :| e in Rows(lvl, left, top, m) && e in Row(lvl, left, top, m, ColumnCount(lvl)) {
      RowElements(lvl, left, top, m, ColumnCount(lvl), e);
      RowsElements(lvl, left, top, m, e);
      assert false;
    }
  }

  /** Adding row `m - 1` to the rows before it adds exactly that row's cells. */
  lemma {:induction false} RowsSizeStep(lvl: int, left: int, top: int, m: nat)
    requires m > 0
    ensures |Rows(lvl, left, top, m)| == |Rows(lvl, left, top, m - 1)| + RowCells(lvl, m - 1, ColumnCount(lvl))
  {
    var previous := Rows(lvl, left, top, m - 1);
    var last := Row(lvl, left, top, m - 1, ColumnCount(lvl));
    RowsRowDisjoint(lvl, left, top, m - 1);
    RowSize(lvl, left, top, m - 1, ColumnCount(lvl));
    assert Rows(lvl, left, top, m) == previous + last;
    assert |previous + last| == |previous| + |last|;
  }

  lemma {:induction false} RowsSize(lvl: int, left: int, top: int, m: nat)
    ensures |Rows(lvl, left, top, m)| == RowsCells(lvl, m)
  {
    if m > 0 {
      RowsSize(lvl, left, top, m - 1);
      RowsSizeStep(lvl, left, top, m);
    }
  }

  /** Cells per row: level 1 fills even rows and the two borders of odd rows. */
  lemma {:induction false} RowCellsLevel1(i: int, n: nat)
    requires 0 <= i < 11 && n <= 10
    ensures RowCells(1, i, n) == if i % 2 == 0 then n
                                 else (if n >= 1 then 1 else 0) + (if n >= 10 then 1 else 0)
  {
    if n > 0 { RowCellsLevel1(i, n - 1); }
  }

  /** Cells per row: level 2 takes the columns of the row's own parity. */
  lemma {:induction false} RowCellsLevel2(i: int, n: nat)
    requires 0 <= i < 11 && n <= 11
    ensures RowCells(2, i, n) == (n + 1 - i % 2) / 2
  {
    if n > 0 { RowCellsLevel2(i, n - 1); }
  }

  lemma {:induction false} RowCellsLevel3(i: int, n: nat)
    requires 0 <= i < 10 && n <= 10
    ensures RowCells(3, i, n) == n
  {
    if n > 0 { RowCellsLevel3(i, n - 1); }
  }

  lemma {:induction false} RowsCellsLevel1(m: nat)
    requires m <= 11
    ensures RowsCells(1, m) == 10 * ((m + 1) / 2) + 2 * (m / 2)
  {
    if m > 0 {
      RowsCellsLevel1(m - 1);
      RowCellsLevel1(m - 1, 10);
      if (m - 1) % 2 == 0 {
        assert (m + 1) / 2 == m / 2 + 1 && m / 2 == (m - 1) / 2;
      } else {
        assert (m + 1) / 2 == (m - 1 + 1) / 2 && m / 2 == (m - 1) / 2 + 1;
      }
    }
  }

  lemma {:induction false} RowsCellsLevel2(m: nat)
    requires m <= 11
    ensures RowsCells(2, m) == 6 * ((m + 1) / 2) + 5 * (m / 2)
  {
    if m > 0 {
      RowsCellsLevel2(m - 1);
      RowCellsLevel2(m - 1, 11);
      if (m - 1) % 2 == 0 {
        assert (m + 1) / 2 == m / 2 + 1 && m / 2 == (m - 1) / 2;
      } else {
        assert (m + 1) / 2 == (m - 1 + 1) / 2 && m / 2 == (m - 1) / 2 + 1;
      }
    }
  }

  lemma {:induction false} RowsCellsLevel3(m: nat)
    requires m <= 10
    ensures RowsCells(3, m) == 10 * m
  {
    if m > 0 {
      RowsCellsLevel3(m - 1);
      RowCellsLevel3(m - 1, 10);
    }
  }

  /** The number of bricks of a level: 70, 61 and 100 for levels 1, 2 and 3. */
  function BrickCount(lvl: int): nat
  {
    if lvl == 1 then 70 else if lvl == 2 then 61 else if lvl == 3 then 100 else 0
  }

  /** Each level's pattern has 70, 61 and 100 cells. */
  lemma {:induction false} PatternSize(lvl: int)
    requires 1 <= lvl <= 3
    ensures RowsCells(lvl, RowCount(lvl)) == BrickCount(lvl)
  {
    var m := RowCount(lvl);
    var cells := RowsCells(lvl, m);
    if lvl == 1 {
      RowsCellsLevel1(m);
      assert cells == 10 * ((m + 1) / 2) + 2 * (m / 2);
      RowFormulaValue(m, cells, 10, 2, 70);
    } else if lvl == 2 {
      RowsCellsLevel2(m);
      assert cells == 6 * ((m + 1) / 2) + 5 * (m / 2);
      RowFormulaValue(m, cells, 6, 5, 61);
    } else {
      RowsCellsLevel3(m);
      assert cells == 10 * m;
    }
  }

  /** Arithmetic step of PatternSize: the closed form evaluated at 11 rows. */
  lemma RowFormulaValue(m: nat, cells: int, even: int, odd: int, total: int)
    requires m == 11 && total == 6 * even + 5 * odd
    requires cells == even * ((m + 1) / 2) + odd * (m / 2)
    ensures cells == total
  {
  }

  lemma {:induction false} LayoutSize(lvl: int, gameWidth: int)
    requires 1 <= lvl <= 3
    ensures |Layout(lvl, gameWidth)| == BrickCount(lvl)
  {
    RowsSize(lvl, GridLeft(gameWidth), GridTop(lvl), RowCount(lvl));
    PatternSize(lvl);
  }

  /** `get_levels` yields exactly levels 1..3, each under its own number. */
  lemma CatalogKeys(gameSize: Size)
    ensures Catalog(gameSize).Keys == {1, 2, 3}
    ensures forall k :: k in Catalog(gameSize) ==> Catalog(gameSize)[k].lvl == k
  {
  }

  /** The three levels have 70, 61 and 100 bricks, on rows 20 units apart from their top. */
  lemma {:induction false} CatalogShape(gameSize: Size)
    ensures |Catalog(gameSize)[1].blocks| == 70
    ensures |Catalog(gameSize)[2].blocks| == 61
    ensures |Catalog(gameSize)[3].blocks| == 100
    ensures forall k, e :: k in Catalog(gameSize) && e in Catalog(gameSize)[k].blocks ==>
              e.frame.y >= GridTop(k) && (e.frame.y - GridTop(k)) % 20 == 0
  {
    CatalogKeys(gameSize);
    LayoutSize(1, gameSize.width);
    LayoutSize(2, gameSize.width);
    LayoutSize(3, gameSize.width);
    forall k, e | k in Catalog(gameSize) && e in Catalog(gameSize)[k].blocks
      ensures e.frame.y >= GridTop(k) && (e.frame.y - GridTop(k)) % 20 == 0
    {
      LayoutElements(k, gameSize.width, e);
    }
  }
}
