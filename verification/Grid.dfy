/** The 17 by 11 playing field: its value, its initial table and the object the
    server and the client mutate in place. */
module Grid {

  const MAP_WIDTH := 17
  const MAP_HEIGHT := 11

  const NOTHIN := 0
  const HARD := 1
  const SOFT := 2

  datatype Tile = Tile(x: int, y: int)

  predicate InGrid(t: Tile) {
    0 <= t.x < MAP_WIDTH && 0 <= t.y < MAP_HEIGHT
  }

  /** Strictly inside the border. */
  predicate Inside(t: Tile) {
    0 < t.x < MAP_WIDTH - 1 && 0 < t.y < MAP_HEIGHT - 1
  }

  predicate IsGrid(g: seq<seq<int>>) {
    |g| == MAP_WIDTH && forall x :: 0 <= x < |g| ==> |g[x]| == MAP_HEIGHT
  }

  /** The columns of the field, left to right. */
  type Cells = g: seq<seq<int>> | IsGrid(g) witness INITIAL

  const INITIAL: seq<seq<int>> := [
    [1, 1, 1, 1, 1, 1, 1, 1, 1, 1, 1], [1, 0, 0, 2, 2, 2, 2, 2, 0, 0, 1],
    [1, 0, 1, 2, 1, 2, 1, 2, 1, 0, 1], [1, 2, 2, 2, 2, 2, 2, 2, 2, 2, 1],
    [1, 2, 1, 2, 1, 2, 1, 2, 1, 2, 1], [1, 2, 2, 2, 2, 2, 2, 2, 2, 2, 1],
    [1, 2, 1, 2, 1, 2, 1, 2, 1, 2, 1], [1, 2, 2, 2, 2, 2, 2, 2, 2, 2, 1],
    [1, 2, 1, 2, 1, 2, 1, 2, 1, 2, 1], [1, 2, 2, 2, 2, 2, 2, 2, 2, 2, 1],
    [1, 2, 1, 2, 1, 2, 1, 2, 1, 2, 1], [1, 2, 2, 2, 2, 2, 2, 2, 2, 2, 1],
    [1, 2, 1, 2, 1, 2, 1, 2, 1, 2, 1], [1, 2, 2, 2, 2, 2, 2, 2, 2, 2, 1],
    [1, 0, 1, 2, 1, 2, 1, 2, 1, 0, 1], [1, 0, 0, 2, 2, 2, 2, 2, 0, 0, 1],
    [1, 1, 1, 1, 1, 1, 1, 1, 1, 1, 1]]

  /** What a tile holds; everything off the field counts as hard wall, though no
      proved operation looks there. */
  function At(g: Cells, t: Tile): int {
    if InGrid(t) then g[t.x][t.y] else HARD
  }

  function Put(g: Cells, t: Tile, state: int): (h: Cells)
    requires InGrid(t)
    ensures forall u :: At(h, u) == if u == t then state else At(g, u)
  {
    g[t.x := g[t.x][t.y := state]]
  }

  /** The border is hard wall, so no ray from inside leaves the field. */
  ghost predicate Walled(g: Cells) {
    forall t :: !Inside(t) ==> At(g, t) == HARD
  }

  /** `h` is `g` with some soft walls turned into open ground. */
  ghost predicate Clears(g: Cells, h: Cells) {
    forall t :: At(h, t) == At(g, t) || (At(g, t) == SOFT && At(h, t) == NOTHIN)
  }

  lemma SameCells(g: Cells, h: Cells)
    requires forall t :: At(g, t) == At(h, t)
    ensures g == h
  {
    forall x | 0 <= x < MAP_WIDTH
      ensures g[x] == h[x]
    {
      forall y | 0 <= y < MAP_HEIGHT
        ensures g[x][y] == h[x][y]
      {
        assert At(g, Tile(x, y)) == At(h, Tile(x, y));
      }
    }
  }

  lemma InitialIsWalled()
    ensures Walled(INITIAL)
  {
    forall t | !Inside(t)
      ensures At(INITIAL, t) == HARD
    {
      if InGrid(t) {
        assert t.x in {0, 1, 2, 3, 4, 5, 6, 7, 8, 9, 10, 11, 12, 13, 14, 15, 16};
      }
    }
  }

  /** A new field told from where a tile lies: hard wall round the border and where row and
      column are both even, open ground on the three tiles of each corner, soft wall elsewhere. */
  function Laid(t: Tile): int {
    if !Inside(t) || (t.x % 2 == 0 && t.y % 2 == 0) then 1
    else if t.x in {1, 2, 14, 15} && t.y in {1, 2, 8, 9} then 0
    else 2
  }

  lemma InitialIsLaid(t: Tile)
    ensures At(INITIAL, t) == Laid(t)
  {
    if InGrid(t) {
      assert t.x in {0, 1, 2, 3, 4, 5, 6, 7, 8, 9, 10, 11, 12, 13, 14, 15, 16};
      assert t.y in {0, 1, 2, 3, 4, 5, 6, 7, 8, 9, 10};
    }
  }

  lemma ClearsTransitive(f: Cells, g: Cells, h: Cells)
    requires Clears(f, g) && Clears(g, h)
    ensures Clears(f, h)
  {
    forall t
      ensures At(h, t) == At(f, t) || (At(f, t) == SOFT && At(h, t) == NOTHIN)
    {
      assert At(g, t) == At(f, t) || (At(f, t) == SOFT && At(g, t) == NOTHIN);
    }
  }

  /** The mutable field; `Contents` is its value. */
  class TileMap {
    const cells: array2<int>
    ghost var Contents: Cells

    ghost predicate Valid()
      reads this, cells
    {
      && cells.Length0 == MAP_WIDTH && cells.Length1 == MAP_HEIGHT
      && forall x, y | 0 <= x < MAP_WIDTH && 0 <= y < MAP_HEIGHT :: cells[x, y] == Contents[x][y]
    }

    constructor ()
      ensures Valid() && fresh(cells) && Contents == INITIAL
    {
      cells := new int[MAP_WIDTH, MAP_HEIGHT]((x: nat, y: nat) requires x < MAP_WIDTH &&
        y < MAP_HEIGHT => INITIAL[x][y]);
      Contents := INITIAL;
    }

    method GetSquareState(x: int, y: int) returns (state: int)
      requires Valid() && InGrid(Tile(x, y))
      ensures state == At(Contents, Tile(x, y))
    {
      state := cells[x, y];
    }

    method SetSquareState(x: int, y: int, state: int)
      requires Valid() && InGrid(Tile(x, y))
      modifies this, cells
      ensures Valid() && Contents == Put(old(Contents), Tile(x, y), state)
    {
      cells[x, y] := state;
      Contents := Put(Contents, Tile(x, y), state);
    }
  }
}
