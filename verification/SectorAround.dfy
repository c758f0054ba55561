/** The 3 by 3 neighbourhood of a sector. */
module SectorAround {

  datatype Pos = Pos(x: int, y: int)

  // The grid is SECTOR_MAX_X by SECTOR_MAX_Y in the source; here any size.
  predicate InGrid(p: Pos, w: int, h: int) {
    0 <= p.x < w && 0 <= p.y < h
  }

  predicate Near(p: Pos, q: Pos) {
    -1 <= p.x - q.x <= 1 && -1 <= p.y - q.y <= 1
  }

  // Row-major order: the order in which every thread takes its locks.
  predicate Before(p: Pos, q: Pos) {
    p.y < q.y || (p.y == q.y && p.x < q.x)
  }

  predicate RowMajor(ps: seq<Pos>) {
    forall i, j :: 0 <= i < j < |ps| ==> Before(ps[i], ps[j])
  }

  /** ps lists the cells of the grid at distance at most one from c, each once,
      row by row. */
  ghost predicate IsAround(ps: seq<Pos>, c: Pos, w: int, h: int) {
    RowMajor(ps) && forall p :: p in ps <==> InGrid(p, w, h) && Near(p, c)
  }

  // How many of c - 1, c, c + 1 are in [0, n).
  function Span(c: int, n: int): (k: nat)
    ensures k <= 3
  {
    (if 0 <= c - 1 < n then 1 else 0) + (if 0 <= c < n then 1 else 0) + (if 0 <= c + 1 < n then 1 else 0)
  }

  class SectorAround {
    var count: nat
    const around: array<Pos>

    ghost predicate Valid()
      reads this
    {
      around.Length == 9 && count <= 9
    }

    ghost function Cells(): seq<Pos>
      requires Valid()
      reads this, around
    {
      around[..count]
    }

    constructor ()
      ensures Valid() && fresh(around)
    {
      count := 0;
      around := new Pos[9](_ => Pos(0, 0));
    }
  }

  // The cells of the neighbourhood of c in the rows above row y, and in row y
  // left of column x.
  ghost predicate Covers(ps: seq<Pos>, c: Pos, w: int, h: int, x: int, y: int) {
    RowMajor(ps) &&
    forall p :: p in ps <==> InGrid(p, w, h) && Near(p, c) && Before(p, Pos(x, y))
  }

  lemma CoverStart(c: Pos, w: int, h: int)
    ensures Covers([], c, w, h, c.x - 1, c.y - 1)
    ensures Partial(c.x - 1, 0, w) == Partial(c.y - 1, 0, h) == 0
  {
  }

  lemma CoverNext(ps: seq<Pos>, c: Pos, w: int, h: int, x: int, y: int)
    requires Covers(ps, c, w, h, x, y) && InGrid(Pos(x, y), w, h) && Near(Pos(x, y), c)
    ensures Covers(ps + [Pos(x, y)], c, w, h, x + 1, y)
  {
    var qs := ps + [Pos(x, y)];
    forall i, j | 0 <= i < j < |qs| ensures Before(qs[i], qs[j]) {
      assert ps[i] in ps;
    }
    forall p ensures p in qs <==> InGrid(p, w, h) && Near(p, c) && Before(p, Pos(x + 1, y)) {
      assert p in qs <==> p in ps || p == Pos(x, y);
    }
  }

  lemma CoverSkip(ps: seq<Pos>, c: Pos, w: int, h: int, x: int, y: int, x': int, y': int)
    requires Covers(ps, c, w, h, x, y) && !Before(Pos(x', y'), Pos(x, y))
    requires forall p :: InGrid(p, w, h) && Near(p, c) && Before(p, Pos(x', y')) ==> Before(p, Pos(x, y))
    ensures Covers(ps, c, w, h, x', y')
  {
    forall p ensures p in ps <==> InGrid(p, w, h) && Near(p, c) && Before(p, Pos(x', y')) {
      assert Before(p, Pos(x, y)) ==> Before(p, Pos(x', y'));
    }
  }

  // A row outside the grid, a cell outside the grid, the end of a row.
  lemma SkipRow(ps: seq<Pos>, c: Pos, w: int, h: int, x: int, y: int)
    requires Covers(ps, c, w, h, x, y) && !(0 <= y < h) && x == c.x - 1
    ensures Covers(ps, c, w, h, x, y + 1)
  {
    hide Covers;
    CoverSkip(ps, c, w, h, x, y, x, y + 1);
  }

  lemma SkipCell(ps: seq<Pos>, c: Pos, w: int, h: int, x: int, y: int)
    requires Covers(ps, c, w, h, x, y) && !(0 <= x < w)
    ensures Covers(ps, c, w, h, x + 1, y)
  {
    hide Covers;
    CoverSkip(ps, c, w, h, x, y, x + 1, y);
  }

  lemma EndRow(ps: seq<Pos>, c: Pos, w: int, h: int, y: int)
    requires Covers(ps, c, w, h, c.x + 2, y)
    ensures Covers(ps, c, w, h, c.x - 1, y + 1)
  {
    hide Covers;
    CoverSkip(ps, c, w, h, c.x + 2, y, c.x - 1, y + 1);
  }

  method GetSectorAround(sectorX: int, sectorY: int, w: nat, h: nat, out: SectorAround)
    requires out.Valid()
    modifies out, out.around
    ensures out.Valid()
    ensures IsAround(out.Cells(), Pos(sectorX, sectorY), w, h)
    ensures out.count == Span(sectorY, h) * Span(sectorX, w)
  {
    hide Covers, RowMajor, Span, Partial, IsAround;
    ghost var c := Pos(sectorX, sectorY);
    var left, upper := sectorX - 1, sectorY - 1;
    out.count := 0;
    ghost var rows := 0;
    CoverStart(c, w, h);
    for cntY := 0 to 3
      invariant out.Valid() && Covers(out.Cells(), c, w, h, left, upper + cntY)
      invariant rows <= cntY && out.count == rows * Span(sectorX, w)
      invariant rows == Partial(upper, cntY, h)
    {
      var tempY := upper + cntY;
      PartialNext(upper, cntY, h);
      if tempY < 0 || tempY >= h {
        SkipRow(out.Cells(), c, w, h, left, upper + cntY);
        continue;
      }
      for cntX := 0 to 3
        invariant out.Valid() && Covers(out.Cells(), c, w, h, left + cntX, tempY)
        invariant out.count == rows * Span(sectorX, w) + Partial(left, cntX, w)
      {
        var tempX := left + cntX;
        PartialNext(left, cntX, w);
        if tempX < 0 || tempX >= w {
          SkipCell(out.Cells(), c, w, h, tempX, tempY);
          continue;
        }
        CoverNext(out.Cells(), c, w, h, tempX, tempY);
        assert out.count <= 2 * 3 + 2;
        ghost var before := out.Cells();
        out.around[out.count] := Pos(tempX, tempY);
        out.count := out.count + 1;
        assert out.Cells() == before + [Pos(tempX, tempY)];
      }
      EndRow(out.Cells(), c, w, h, tempY);
      rows := rows + 1;
    }
    CoverEnd(out.Cells(), c, w, h);
  }

  lemma CoverEnd(ps: seq<Pos>, c: Pos, w: int, h: int)
    requires Covers(ps, c, w, h, c.x - 1, c.y + 2)
    ensures IsAround(ps, c, w, h)
  {
    forall p ensures p in ps <==> InGrid(p, w, h) && Near(p, c) {
      assert Near(p, c) ==> Before(p, Pos(c.x - 1, c.y + 2));
    }
  }

  // How many of the k numbers from base on are in [0, n).
  function Partial(base: int, k: nat, n: int): (r: nat)
    ensures r <= k
    ensures k == 3 ==> r == Span(base + 1, n)
  {
    if k == 0 then 0
    else if k == 1 then (if 0 <= base < n then 1 else 0)
    else if k == 2 then (if 0 <= base < n then 1 else 0) + (if 0 <= base + 1 < n then 1 else 0)
    else if k == 3 then Span(base + 1, n)
    else 0
  }

  lemma PartialNext(base: int, k: nat, n: int)
    requires k < 3
    ensures Partial(base, k + 1, n) == Partial(base, k, n) + (if 0 <= base + k < n then 1 else 0)
  {
  }

  // A list in strict order names nothing twice.
  lemma {:induction false} RowMajorOnce(ps: seq<Pos>)
    requires RowMajor(ps)
    ensures forall p :: multiset(ps)[p] == if p in ps then 1 else 0
  {
    if ps != [] {
      var rest := ps[..|ps| - 1];
      RowMajorOnce(rest);
      assert ps == rest + [ps[|ps| - 1]];
      forall p <- rest ensures p != ps[|ps| - 1] {
      }
    }
  }

  // The order and the members fix the list.
  lemma {:induction false} AroundUnique(a: seq<Pos>, b: seq<Pos>)
    requires RowMajor(a) && RowMajor(b) && forall p :: p in a <==> p in b
    ensures a == b
  {
    assert a == [] <==> b == [] by {
      assert a != [] ==> a[0] in a;
      assert b != [] ==> b[0] in b;
    }
    if a != [] && b != [] {
      assert a[0] in b && b[0] in a;
      assert a[0] == b[0] by {
        var i :| 0 <= i < |b| && b[i] == a[0];
        var j :| 0 <= j < |a| && a[j] == b[0];
        if i > 0 { assert Before(b[0], b[i]); }
        if j > 0 { assert Before(a[0], a[j]); }
      }
      forall p ensures p in a[1..] <==> p in b[1..] {
        TailMember(a, p);
        TailMember(b, p);
      }
      AroundUnique(a[1..], b[1..]);
    }
  }

  lemma TailMember(a: seq<Pos>, p: Pos)
    requires RowMajor(a) && a != []
    ensures p in a[1..] <==> p in a && p != a[0]
  {
    if p in a && p != a[0] {
      var i :| 0 <= i < |a| && a[i] == p;
      assert a[1..][i - 1] == p;
    }
    if p in a[1..] {
      var i :| 0 <= i < |a[1..]| && a[1..][i] == p;
      assert Before(a[0], a[i + 1]);
    }
  }

  /** Inside the grid neighbourhood is mutual: s hears t exactly when t hears s. */
  lemma AroundMutual(a: seq<Pos>, s: Pos, b: seq<Pos>, t: Pos, w: int, h: int)
    requires IsAround(a, s, w, h) && IsAround(b, t, w, h) && InGrid(s, w, h) && InGrid(t, w, h)
    ensures t in a <==> s in b
  {
    assert Near(s, t) <==> Near(t, s);
  }
}
