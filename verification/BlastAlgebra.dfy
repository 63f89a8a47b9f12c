/** How explosions compose on one field. */
module BlastAlgebra {
  import opened Grid
  import opened Blast

  /** The field after a sequence of explosions. */
  ghost function AfterAll(g: Cells, bombs: seq<Bomb>): Cells
    decreases |bombs|
  {
    if bombs == [] then g else AfterAll(After(g, bombs[0]), bombs[1..])
  }

  /** On a field with more open ground a bomb lights at least the same tiles. */
  lemma LitGrows(g: Cells, h: Cells, b: Bomb, t: Tile)
    requires Clears(g, h) && Lit(g, b, t)
    ensures Lit(h, b, t)
  {
    if t != b.pos {
      forall u | Between(b.pos, u, t)
        ensures LetsThrough(h, b.isAtomic, u)
      {
        assert LetsThrough(g, b.isAtomic, u);
      }
    }
  }

  /** ... and it leaves at least as much open ground behind. */
  lemma BlastKeepsLead(g: Cells, h: Cells, b: Bomb)
    requires Clears(g, h)
    ensures Clears(After(g, b), After(h, b))
  {
    forall t
      ensures || At(After(h, b), t) == At(After(g, b), t)
              || (At(After(g, b), t) == SOFT && At(After(h, b), t) == NOTHIN)
    {
      if Lit(g, b, t) {
        LitGrows(g, h, b, t);
      }
    }
  }

  /** A head start in cleared walls is never lost: after any sequence of bombs the
      lead still holds, and the next bomb still lights a superset. */
  lemma {:induction false} ChainMonotone(g: Cells, h: Cells, bombs: seq<Bomb>)
    requires Clears(g, h)
    ensures Clears(AfterAll(g, bombs), AfterAll(h, bombs))
    ensures forall b, t | Lit(AfterAll(g, bombs), b, t) :: Lit(AfterAll(h, bombs), b, t)
    decreases |bombs|
  {
    if bombs == [] {
      forall b, t | Lit(g, b, t)
        ensures Lit(h, b, t)
      {
        LitGrows(g, h, b, t);
      }
    } else {
      BlastKeepsLead(g, h, bombs[0]);
      ChainMonotone(After(g, bombs[0]), After(h, bombs[0]), bombs[1..]);
    }
  }

  /** What an atomic bomb lights depends on the hard walls alone. */
  lemma AtomicSeesHardWallsOnly(g: Cells, h: Cells, b: Bomb, t: Tile)
    requires b.isAtomic
    requires forall u :: At(g, u) == HARD <==> At(h, u) == HARD
    ensures Lit(g, b, t) <==> Lit(h, b, t)
  {
    forall u
      ensures LetsThrough(g, true, u) <==> LetsThrough(h, true, u)
    {
    }
  }

  /** `t` is opened by one of `bombs`, each judged on the untouched field. */
  ghost predicate OpenedBy(g: Cells, bombs: seq<Bomb>, t: Tile) {
    exists i :: 0 <= i < |bombs| && bombs[i].pos != t && Lit(g, bombs[i], t)
  }

  /** Atomic blasts do not interact: the outcome of any sequence of them is read off
      the first field, so it depends neither on their order nor on repetition. */
  lemma {:induction false} AtomicChain(g: Cells, bombs: seq<Bomb>)
    requires forall b | b in bombs :: b.isAtomic
    ensures forall t ::
      At(AfterAll(g, bombs), t) == if At(g, t) == SOFT && OpenedBy(g, bombs, t) then NOTHIN else At(g, t)
    decreases |bombs|
  {
    if bombs != [] {
      var b, rest := bombs[0], bombs[1..];
      var h := After(g, b);
      AtomicChain(h, rest);
      forall t
        ensures OpenedBy(g, bombs, t) <==> (t != b.pos && Lit(g, b, t)) || OpenedBy(h, rest, t)
      {
        forall i | 0 <= i < |rest|
          ensures Lit(g, rest[i], t) <==> Lit(h, rest[i], t)
        {
          AtomicSeesHardWallsOnly(g, h, rest[i], t);
        }
        if OpenedBy(g, bombs, t) {
          var i :| 0 <= i < |bombs| && bombs[i].pos != t && Lit(g, bombs[i], t);
          assert i > 0 ==> rest[i - 1] == bombs[i];
        }
        if OpenedBy(h, rest, t) {
          var i :| 0 <= i < |rest| && rest[i].pos != t && Lit(h, rest[i], t);
          assert bombs[i + 1] == rest[i];
        }
        assert bombs[0] == b;
      }
    }
  }

  /** Same atomic bombs, any order, any repetition: same field. */
  lemma AtomicBlastsCommute(g: Cells, first: seq<Bomb>, second: seq<Bomb>)
    requires forall b | b in first + second :: b.isAtomic
    requires forall b :: b in first <==> b in second
    ensures AfterAll(g, first) == AfterAll(g, second)
  {
    AtomicChain(g, first);
    AtomicChain(g, second);
    forall t
      ensures OpenedBy(g, first, t) <==> OpenedBy(g, second, t)
    {
      if OpenedBy(g, first, t) {
        var i :| 0 <= i < |first| && first[i].pos != t && Lit(g, first[i], t);
        assert first[i] in second;
        var j :| 0 <= j < |second| && second[j] == first[i];
      }
      if OpenedBy(g, second, t) {
        var i :| 0 <= i < |second| && second[i].pos != t && Lit(g, second[i], t);
        assert second[i] in first;
        var j :| 0 <= j < |first| && first[j] == second[i];
      }
    }
    SameCells(AfterAll(g, first), AfterAll(g, second));
  }

  lemma AfterTwo(g: Cells, a: Bomb, b: Bomb)
    ensures AfterAll(g, [a, b]) == After(After(g, a), b)
  {
    assert [a, b][1..] == [b] && [b][1..] == [];
    assert AfterAll(After(g, a), [b]) == AfterAll(After(After(g, a), b), []);
  }

  lemma FarFirst(a: Bomb, b: Bomb)
    requires a == Bomb(Tile(1, 2), 3, 0, false) && b == Bomb(Tile(2, 3), 3, 0, false)
    ensures At(After(After(INITIAL, a), b), Tile(1, 4)) == SOFT
  {
    assert Between(a.pos, Tile(1, 3), Tile(1, 4)) && !LetsThrough(INITIAL, false, Tile(1, 3));
  }

  lemma NearFirst(a: Bomb, b: Bomb)
    requires a == Bomb(Tile(1, 2), 3, 0, false) && b == Bomb(Tile(2, 3), 3, 0, false)
    ensures At(After(After(INITIAL, b), a), Tile(1, 4)) == NOTHIN
  {
    var gb := After(INITIAL, b);
    assert Lit(INITIAL, b, Tile(1, 3));
    assert At(gb, Tile(1, 3)) == NOTHIN;
    assert forall u | Between(a.pos, u, Tile(1, 4)) :: u == Tile(1, 3);
    assert Lit(gb, a, Tile(1, 4));
  }

  /** Plain bombs do interact: from the initial field the bomb at (1, 2) reaches
      (1, 4) only if the one at (2, 3) has opened (1, 3) before it. */
  lemma PlainBlastsDoNotCommute()
    ensures var a, b := Bomb(Tile(1, 2), 3, 0, false), Bomb(Tile(2, 3), 3, 0, false);
      && At(AfterAll(INITIAL, [a, b]), Tile(1, 4)) == SOFT
      && At(AfterAll(INITIAL, [b, a]), Tile(1, 4)) == NOTHIN
  {
    var a, b := Bomb(Tile(1, 2), 3, 0, false), Bomb(Tile(2, 3), 3, 0, false);
    AfterTwo(INITIAL, a, b);
    AfterTwo(INITIAL, b, a);
    FarFirst(a, b);
    NearFirst(a, b);
  }

  /** Tile number `k` of the way from `a` to `t`, on their common row or column. */
  function OnTheWay(a: Tile, t: Tile, k: int): Tile {
    if a.y == t.y then Tile(if a.x < t.x then a.x + k else a.x - k, a.y)
    else Tile(a.x, if a.y < t.y then a.y + k else a.y - k)
  }

  lemma WayIsBetween(a: Tile, t: Tile, u: Tile)
    requires a.x == t.x || a.y == t.y
    ensures Between(a, u, t) <==> 0 < Dist(a, u) < Dist(a, t) && u == OnTheWay(a, t, Dist(a, u))
  {
  }

  /** What opens up a bomb's view is the opening of a soft wall the bomb lights itself:
      the first tile on the way to be opened is one it sees. */
  lemma {:induction false} OpenedIsSeen(g: Cells, h: Cells, b: Bomb, t: Tile, k: nat)
    requires Clears(g, h) && Lit(h, b, t) && t != b.pos && 1 <= k <= Dist(b.pos, t)
    requires forall u | At(g, u) == SOFT && Lit(g, b, u) && u != b.pos :: At(h, u) == SOFT
    ensures forall u | 0 < Dist(b.pos, u) < k && u == OnTheWay(b.pos, t, Dist(b.pos, u)) ::
      LetsThrough(g, b.isAtomic, u)
    decreases k
  {
    if k > 1 {
      OpenedIsSeen(g, h, b, t, k - 1);
      var v := OnTheWay(b.pos, t, k - 1);
      WayIsBetween(b.pos, t, v);
      assert LetsThrough(h, b.isAtomic, v);
      forall u | Between(b.pos, u, v)
        ensures LetsThrough(g, b.isAtomic, u)
      {
        WayIsBetween(b.pos, v, u);
      }
      assert Lit(g, b, v);
    }
  }

  /** A blast that opens no soft wall `b` lights does not change what `b` lights. */
  lemma ViewUnchanged(g: Cells, h: Cells, b: Bomb, t: Tile)
    requires Clears(g, h)
    requires forall u | At(g, u) == SOFT && Lit(g, b, u) && u != b.pos :: At(h, u) == SOFT
    ensures Lit(g, b, t) <==> Lit(h, b, t)
  {
    if Lit(g, b, t) {
      LitGrows(g, h, b, t);
    }
    if Lit(h, b, t) && t != b.pos {
      OpenedIsSeen(g, h, b, t, Dist(b.pos, t));
      forall u | Between(b.pos, u, t)
        ensures LetsThrough(g, b.isAtomic, u)
      {
        WayIsBetween(b.pos, t, u);
      }
    }
  }

  /** Blasts of any kind commute if there is no soft wall that both would open. */
  lemma SeparateBlastsCommute(g: Cells, a: Bomb, b: Bomb)
    requires forall u | At(g, u) == SOFT && u != a.pos && u != b.pos :: !(Lit(g, a, u) && Lit(g, b, u))
    ensures AfterAll(g, [a, b]) == AfterAll(g, [b, a])
  {
    var ga, gb := After(g, a), After(g, b);
    AfterTwo(g, a, b);
    AfterTwo(g, b, a);
    forall t
      ensures At(After(ga, b), t) == At(After(gb, a), t)
    {
      ViewUnchanged(g, ga, b, t);
      ViewUnchanged(g, gb, a, t);
    }
    SameCells(After(ga, b), After(gb, a));
  }

  /** Between two tiles that are not hard wall sight is mutual, at equal strength. */
  lemma SightIsMutual(g: Cells, a: Bomb, b: Bomb)
    requires a.explosion == b.explosion && a.isAtomic == b.isAtomic
    requires At(g, a.pos) != HARD && At(g, b.pos) != HARD
    ensures Lit(g, a, b.pos) <==> Lit(g, b, a.pos)
  {
    forall u
      ensures Between(a.pos, u, b.pos) <==> Between(b.pos, u, a.pos)
    {
    }
    assert Dist(a.pos, b.pos) == Dist(b.pos, a.pos);
  }
}
