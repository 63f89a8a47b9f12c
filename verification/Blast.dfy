/** The explosion: an in-place ray cast that opens walls while it scans, proved
    against line of sight on the field as it was before the blast. */
module Blast {
  import opened Grid

  const FUSE_TIME_SEC := 3
  const FUSE_MILLIS := FUSE_TIME_SEC * 1000

  datatype Bomb = Bomb(pos: Tile, explosion: int, plantTime: int, isAtomic: bool)

  // ----- line of sight

  /** A ray passes over `t`: never over hard wall, over soft wall only when atomic. */
  predicate LetsThrough(g: Cells, isAtomic: bool, t: Tile) {
    At(g, t) != HARD && (isAtomic || At(g, t) != SOFT)
  }

  /** `u` lies strictly between `a` and `b` on their common row or column. */
  predicate Between(a: Tile, u: Tile, b: Tile) {
    || (a.y == u.y == b.y && (a.x < u.x < b.x || b.x < u.x < a.x))
    || (a.x == u.x == b.x && (a.y < u.y < b.y || b.y < u.y < a.y))
  }

  function Dist(a: Tile, b: Tile): int {
    (if a.x < b.x then b.x - a.x else a.x - b.x) + (if a.y < b.y then b.y - a.y else a.y - b.y)
  }

  /** The bomb lights its own tile whatever it holds, and every tile that is not
      hard wall, near enough, and visible along a row or a column. */
  ghost predicate Lit(g: Cells, b: Bomb, t: Tile) {
    || t == b.pos
    || (&& (t.x == b.pos.x || t.y == b.pos.y)
        && Dist(b.pos, t) < b.explosion
        && At(g, t) != HARD
        && forall u | Between(b.pos, u, t) :: LetsThrough(g, b.isAtomic, u))
  }

  /** The field after the blast: lit soft walls are open, except that the bomb's
      own tile is lit without being opened. */
  ghost function After(g: Cells, b: Bomb): (h: Cells)
    ensures forall t :: At(h, t) == if t != b.pos && Lit(g, b, t) && At(g, t) == SOFT then NOTHIN else At(g, t)
    ensures Clears(g, h)
  {
    var h := seq(MAP_WIDTH, x requires 0 <= x < MAP_WIDTH =>
      seq(MAP_HEIGHT, y requires 0 <= y < MAP_HEIGHT =>
        if Tile(x, y) != b.pos && Lit(g, b, Tile(x, y)) && g[x][y] == SOFT then NOTHIN else g[x][y]));
    assert forall t | InGrid(t) :: t == Tile(t.x, t.y);
    h
  }

  // ----- the scan

  /** `from + n * d`, for d in -1, 0, 1. */
  function Along(from: int, d: int, n: int): int {
    if d == 0 then from else if d > 0 then from + n else from - n
  }

  function Step(b: Bomb, dx: int, dy: int, n: int): Tile {
    Tile(Along(b.pos.x, dx, n), Along(b.pos.y, dy, n))
  }

  predicate Direction(dx: int, dy: int) {
    (dx, dy) in {(-1, 0), (0, -1), (1, 0), (0, 1)}
  }

  /** The tiles one ray lights from distance `n` on, nearest first. */
  ghost function RayFrom(g: Cells, b: Bomb, dx: int, dy: int, n: int): seq<Tile>
    decreases b.explosion - n
  {
    var t := Step(b, dx, dy, n);
    if n >= b.explosion || At(g, t) == HARD then []
    else if !LetsThrough(g, b.isAtomic, t) then [t]
    else [t] + RayFrom(g, b, dx, dy, n + 1)
  }

  /** The two rays of one turn of the outer loop. */
  ghost function Arms(g: Cells, b: Bomb, direction: int): seq<Tile> {
    RayFrom(g, b, direction, 0, 1) + RayFrom(g, b, 0, direction, 1)
  }

  /** The whole list, in the order `boom` pushes it. */
  ghost function Burst(g: Cells, b: Bomb): seq<Tile> {
    [b.pos] + (Arms(g, b, -1) + Arms(g, b, 1))
  }

  ghost predicate NoDuplicates<T>(s: seq<T>) {
    forall i, j :: 0 <= i < j < |s| ==> s[i] != s[j]
  }

  lemma DisjointAppend<T>(s: seq<T>, t: seq<T>)
    requires NoDuplicates(s) && NoDuplicates(t) && forall e | e in s :: e !in t
    ensures NoDuplicates(s + t)
  {
    forall i, j | 0 <= i < j < |s + t|
      ensures (s + t)[i] != (s + t)[j]
    {
      assert i < |s| ==> s[i] in s;
      assert j >= |s| ==> t[j - |s|] in t;
    }
  }

  /** The ray passes over every tile from distance `n` to short of `m`. */
  ghost predicate Passes(g: Cells, b: Bomb, dx: int, dy: int, n: int, m: int) {
    forall k | n <= k < m :: LetsThrough(g, b.isAtomic, Step(b, dx, dy, k))
  }

  lemma PassesOn(g: Cells, b: Bomb, dx: int, dy: int, n: int, m: int)
    requires n < m
    ensures Passes(g, b, dx, dy, n, m) <==>
      LetsThrough(g, b.isAtomic, Step(b, dx, dy, n)) && Passes(g, b, dx, dy, n + 1, m)
  {
    if Passes(g, b, dx, dy, n, m) {
      assert LetsThrough(g, b.isAtomic, Step(b, dx, dy, n));
    }
  }

  /** A ray lists distances n, n+1, ... as long as it passes, ... */
  lemma {:induction false} RayLists(g: Cells, b: Bomb, dx: int, dy: int, n: int, i: nat)
    requires i < |RayFrom(g, b, dx, dy, n)|
    ensures var t := RayFrom(g, b, dx, dy, n)[i];
      t == Step(b, dx, dy, n + i) && n + i < b.explosion && At(g, t) != HARD && Passes(g, b, dx, dy, n, n + i)
    decreases b.explosion - n
  {
    if i > 0 {
      RayLists(g, b, dx, dy, n + 1, i - 1);
      PassesOn(g, b, dx, dy, n, n + i);
    }
  }

  /** ... up to where sight ends. */
  lemma {:induction false} RayReaches(g: Cells, b: Bomb, dx: int, dy: int, n: int, m: int)
    requires n <= m < b.explosion && At(g, Step(b, dx, dy, m)) != HARD && Passes(g, b, dx, dy, n, m)
    ensures m - n < |RayFrom(g, b, dx, dy, n)|
    decreases b.explosion - n
  {
    if n < m {
      PassesOn(g, b, dx, dy, n, m);
      RayReaches(g, b, dx, dy, n + 1, m);
    }
  }

  /** `t` lies in direction (dx, dy) of the bomb. */
  predicate Toward(b: Bomb, dx: int, dy: int, t: Tile) {
    Dist(b.pos, t) >= 1 && t == Step(b, dx, dy, Dist(b.pos, t))
  }

  lemma ListedIsLit(g: Cells, b: Bomb, dx: int, dy: int, i: nat)
    requires Direction(dx, dy) && i < |RayFrom(g, b, dx, dy, 1)|
    ensures var t := RayFrom(g, b, dx, dy, 1)[i];
      t == Step(b, dx, dy, 1 + i) && Dist(b.pos, t) == 1 + i && Toward(b, dx, dy, t) && Lit(g, b, t)
  {
    var t := RayFrom(g, b, dx, dy, 1)[i];
    RayLists(g, b, dx, dy, 1, i);
    forall u | Between(b.pos, u, t)
      ensures LetsThrough(g, b.isAtomic, u)
    {
      assert u == Step(b, dx, dy, Dist(b.pos, u));
    }
  }

  lemma LitIsListed(g: Cells, b: Bomb, dx: int, dy: int, t: Tile)
    requires Direction(dx, dy) && Toward(b, dx, dy, t) && Lit(g, b, t)
    ensures t in RayFrom(g, b, dx, dy, 1)
  {
    var m := Dist(b.pos, t);
    forall k | 1 <= k < m
      ensures LetsThrough(g, b.isAtomic, Step(b, dx, dy, k))
    {
      assert Between(b.pos, Step(b, dx, dy, k), t);
    }
    RayReaches(g, b, dx, dy, 1, m);
    RayLists(g, b, dx, dy, 1, m - 1);
    assert RayFrom(g, b, dx, dy, 1)[m - 1] == t;
  }

  /** One ray lists exactly what the bomb lights in its direction, once each. */
  lemma RayIsSight(g: Cells, b: Bomb, dx: int, dy: int)
    requires Direction(dx, dy)
    ensures forall t :: t in RayFrom(g, b, dx, dy, 1) <==> Toward(b, dx, dy, t) && Lit(g, b, t)
    ensures NoDuplicates(RayFrom(g, b, dx, dy, 1))
  {
    var ray := RayFrom(g, b, dx, dy, 1);
    forall i | 0 <= i < |ray|
      ensures Dist(b.pos, ray[i]) == 1 + i && Toward(b, dx, dy, ray[i]) && Lit(g, b, ray[i])
    {
      ListedIsLit(g, b, dx, dy, i);
    }
    forall t | Toward(b, dx, dy, t) && Lit(g, b, t)
      ensures t in ray
    {
      LitIsListed(g, b, dx, dy, t);
    }
  }

  /** The pushed list is the set in line of sight, without repetition. */
  lemma BurstIsLit(g: Cells, b: Bomb)
    ensures forall t :: t in Burst(g, b) <==> Lit(g, b, t)
    ensures NoDuplicates(Burst(g, b))
  {
    RayIsSight(g, b, -1, 0);
    RayIsSight(g, b, 0, -1);
    RayIsSight(g, b, 1, 0);
    RayIsSight(g, b, 0, 1);
    forall t | Lit(g, b, t) && t != b.pos
      ensures t in Burst(g, b)
    {
      assert Toward(b, -1, 0, t) || Toward(b, 0, -1, t) || Toward(b, 1, 0, t) || Toward(b, 0, 1, t);
    }
    DisjointAppend(RayFrom(g, b, -1, 0, 1), RayFrom(g, b, 0, -1, 1));
    DisjointAppend(RayFrom(g, b, 1, 0, 1), RayFrom(g, b, 0, 1, 1));
    DisjointAppend(Arms(g, b, -1), Arms(g, b, 1));
    DisjointAppend([b.pos], Arms(g, b, -1) + Arms(g, b, 1));
  }

  // ----- the scan edits the field it reads

  /** `g` with the soft walls among `tiles` opened. */
  ghost predicate Opened(g: Cells, tiles: seq<Tile>, h: Cells) {
    forall t :: At(h, t) == if t in tiles && At(g, t) == SOFT then NOTHIN else At(g, t)
  }

  lemma {:induction false} RayUnaffected(g: Cells, h: Cells, b: Bomb, dx: int, dy: int, n: int)
    requires forall k | n <= k :: At(g, Step(b, dx, dy, k)) == At(h, Step(b, dx, dy, k))
    ensures RayFrom(g, b, dx, dy, n) == RayFrom(h, b, dx, dy, n)
    decreases b.explosion - n
  {
    if n < b.explosion {
      RayUnaffected(g, h, b, dx, dy, n + 1);
    }
  }

  /** The scan stands before distance `n`: `ray` is listed, `h` is the field. */
  ghost predicate Scanning(g: Cells, b: Bomb, dx: int, dy: int, n: int, ray: seq<Tile>, h: Cells) {
    && 1 <= n && InGrid(Step(b, dx, dy, n))
    && Opened(g, ray, h)
    && ray + RayFrom(g, b, dx, dy, n) == RayFrom(g, b, dx, dy, 1)
    && forall t | t in ray :: Toward(b, dx, dy, t) && Dist(b.pos, t) < n
  }

  lemma ScanNext(g: Cells, b: Bomb, dx: int, dy: int, n: int, ray: seq<Tile>, h: Cells, h': Cells)
    requires Walled(g) && Direction(dx, dy) && n < b.explosion && Scanning(g, b, dx, dy, n, ray, h)
    requires At(g, Step(b, dx, dy, n)) != HARD
    requires forall t ::
      At(h', t) == if t == Step(b, dx, dy, n) && At(g, t) == SOFT then NOTHIN else At(h, t)
    ensures var t := Step(b, dx, dy, n); if LetsThrough(g, b.isAtomic, t)
      then Scanning(g, b, dx, dy, n + 1, ray + [t], h')
      else Opened(g, ray + [t], h') && ray + [t] == RayFrom(g, b, dx, dy, 1)
  {
    var t := Step(b, dx, dy, n);
    assert Dist(b.pos, t) == n;
    assert ray + ([t] + RayFrom(g, b, dx, dy, n + 1)) == ray + [t] + RayFrom(g, b, dx, dy, n + 1);
    assert Inside(t);
  }

  /** One arm of the explosion. */
  method CastRay(field: TileMap, b: Bomb, dx: int, dy: int) returns (ray: seq<Tile>)
    requires field.Valid() && Walled(field.Contents) && Inside(b.pos) && Direction(dx, dy)
    modifies field, field.cells
    ensures field.Valid()
    ensures ray == RayFrom(old(field.Contents), b, dx, dy, 1)
    ensures Opened(old(field.Contents), ray, field.Contents)
  {
    ghost var g := field.Contents;
    ray := [];
    var n := 1;
    while n < b.explosion
      invariant field.Valid() && Scanning(g, b, dx, dy, n, ray, field.Contents)
    {
      var t := Step(b, dx, dy, n);
      ghost var h, seen := field.Contents, ray;
      assert t !in ray;
      var mayBeWall := field.GetSquareState(t.x, t.y);
      if mayBeWall == HARD {
        return;
      } else if mayBeWall == SOFT {
        field.SetSquareState(t.x, t.y, NOTHIN);
        ray := ray + [t];
        ScanNext(g, b, dx, dy, n, seen, h, field.Contents);
        if !b.isAtomic {
          return;
        }
      } else {
        ray := ray + [t];
        ScanNext(g, b, dx, dy, n, seen, h, field.Contents);
      }
      n := n + 1;
    }
  }

  /** Rays cast earlier do not change what a later ray, in a direction they did
      not take, gets to see. */
  lemma NextRay(g: Cells, lit: seq<Tile>, h: Cells, b: Bomb, dx: int, dy: int)
    requires Direction(dx, dy) && Opened(g, lit, h)
    requires forall t | t in lit :: !Toward(b, dx, dy, t)
    ensures RayFrom(h, b, dx, dy, 1) == RayFrom(g, b, dx, dy, 1)
    ensures Walled(g) ==> Walled(h)
    ensures forall ray, h' :: Opened(h, ray, h') ==> Opened(g, lit + ray, h')
  {
    forall k | 1 <= k
      ensures At(g, Step(b, dx, dy, k)) == At(h, Step(b, dx, dy, k))
    {
      assert Toward(b, dx, dy, Step(b, dx, dy, k));
    }
    RayUnaffected(g, h, b, dx, dy, 1);
  }

  /** One turn of the outer loop: the row in `direction`, then the column. */
  method CastArms(field: TileMap, b: Bomb, direction: int) returns (arms: seq<Tile>)
    requires field.Valid() && Walled(field.Contents) && Inside(b.pos) && direction in {-1, 1}
    modifies field, field.cells
    ensures field.Valid()
    ensures arms == Arms(old(field.Contents), b, direction)
    ensures Opened(old(field.Contents), arms, field.Contents)
  {
    ghost var g := field.Contents;
    RayIsSight(g, b, direction, 0);
    var row := CastRay(field, b, direction, 0);
    NextRay(g, row, field.Contents, b, 0, direction);
    var column := CastRay(field, b, 0, direction);
    arms := row + column;
  }

  /** The second turn sees the field as the first found it. */
  lemma SecondArms(g: Cells, b: Bomb, h: Cells)
    requires Opened(g, Arms(g, b, -1), h)
    ensures Arms(h, b, 1) == Arms(g, b, 1)
    ensures Walled(g) ==> Walled(h)
  {
    RayIsSight(g, b, -1, 0);
    RayIsSight(g, b, 0, -1);
    NextRay(g, Arms(g, b, -1), h, b, 1, 0);
    NextRay(g, Arms(g, b, -1), h, b, 0, 1);
  }

  lemma OpenedTwice(g: Cells, first: seq<Tile>, h: Cells, second: seq<Tile>, h': Cells)
    requires Opened(g, first, h) && Opened(h, second, h')
    ensures Opened(g, first + second, h')
  {
  }

  lemma BurstOpens(g: Cells, b: Bomb, h: Cells)
    requires Opened(g, Arms(g, b, -1) + Arms(g, b, 1), h)
    ensures h == After(g, b)
  {
    var lit := Arms(g, b, -1) + Arms(g, b, 1);
    BurstIsLit(g, b);
    assert Burst(g, b)[0] == b.pos && Burst(g, b)[1..] == lit;
    forall t
      ensures At(h, t) == At(After(g, b), t)
    {
      assert t in lit <==> t != b.pos && t in Burst(g, b);
    }
    SameCells(h, After(g, b));
  }

  /** `Bomb::boom`: lights exactly the line of sight on the field before the blast
      and leaves exactly `After`. */
  method Boom(field: TileMap, b: Bomb) returns (tilesLitUp: seq<Tile>)
    requires field.Valid() && Walled(field.Contents) && Inside(b.pos)
    modifies field, field.cells
    ensures field.Valid()
    ensures tilesLitUp == Burst(old(field.Contents), b)
    ensures NoDuplicates(tilesLitUp)
    ensures forall t :: t in tilesLitUp <==> Lit(old(field.Contents), b, t)
    ensures field.Contents == After(old(field.Contents), b)
  {
    ghost var g := field.Contents;
    tilesLitUp := [b.pos];
    var direction := -1;
    while direction <= 1
      invariant direction in {-1, 1, 3} && field.Valid()
      invariant direction == -1 ==> field.Contents == g && tilesLitUp == [b.pos]
      invariant direction == 1 ==> Opened(g, Arms(g, b, -1), field.Contents) && tilesLitUp == [b.pos] + Arms(g, b, -1)
      invariant direction == 3 ==> field.Contents == After(g, b) && tilesLitUp == Burst(g, b)
      decreases 3 - direction
    {
      if direction == 1 {
        SecondArms(g, b, field.Contents);
      }
      ghost var h := field.Contents;
      var arms := CastArms(field, b, direction);
      tilesLitUp := tilesLitUp + arms;
      if direction == 1 {
        OpenedTwice(g, Arms(g, b, -1), h, arms, field.Contents);
        BurstOpens(g, b, field.Contents);
      }
      direction := direction + 2;
    }
    BurstIsLit(g, b);
  }
}
