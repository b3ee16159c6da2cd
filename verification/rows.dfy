/**
  The row-addressing draw loop at the end of `Update`: one draw of the bulk
  mesh per texel row of the position buffer, each selecting its row through
  the vertical buffer offset `(0.5 + i) / height`. Offsets are modelled as
  exact reals.
 */
module Rows {
  import opened Events
  import opened Sizing
  import opened Monitor
  import opened PingPong

  /** The vertical texture coordinate of the centre of row `row`. */
  function RowSelector(row: int, height: int): real
    requires height > 0
  {
    (0.5 + row as real) / height as real
  }

  /** The horizontal offset: the centre of the first column. */
  function ColumnOffset(width: CopyCount): real
  {
    0.5 / width as real
  }

  /** The texel row a point-filtered sample at vertical coordinate `v` reads. */
  function RowAt(v: real, height: int): int
  {
    (v * height as real).Floor
  }

  /** Each row's selector lies strictly inside (0, 1) and samples exactly that row. */
  lemma RowSelectorAddressesRow(row: int, height: int)
    requires 0 <= row < height
    ensures 0.0 < RowSelector(row, height) < 1.0
    ensures RowAt(RowSelector(row, height), height) == row
  {
    var h := height as real;
    var v := RowSelector(row, height);
    assert v * h == 0.5 + row as real;
    assert 0.5 + row as real < h;
    DivBelowOne(0.5 + row as real, h);
  }

  lemma DivBelowOne(a: real, h: real)
    requires 0.0 < h && a < h
    ensures a / h < 1.0
  {
    var q := a / h;
    assert q * h == a;
  }

  /** Selectors strictly increase with the row index. */
  lemma RowSelectorIncreasing(i: int, j: int, height: int)
    requires 0 <= i < j < height
    ensures RowSelector(i, height) < RowSelector(j, height)
  {
    var h := height as real;
    assert RowSelector(j, height) - RowSelector(i, height) == (j - i) as real / h;
  }

  /** Iterations of `for (i = 0; i < height; i++)`. */
  function RowCount(height: int): nat
  {
    if height > 0 then height else 0
  }

  function DrawOf(b: Buffers, mesh: Handle, row: int): Event
    requires 0 <= row < b.position2.dims.height
  {
    Draw(mesh, b.position2.handle, b.rotation2.handle, row,
         ColumnOffset(b.position2.dims.width), RowSelector(row, b.position2.dims.height))
  }

  /**
    The draws one `Update` issues: one per row of the position buffer, in
    increasing row order, each drawing the bulk mesh `mesh` with generation 2
    of both grids bound and selecting its own row.
   */
  function DrawCalls(b: Buffers, mesh: Handle): (t: seq<Event>)
    ensures |t| == RowCount(b.position2.dims.height)
    ensures forall i :: 0 <= i < |t| ==>
      && t[i].Draw?
      && t[i].row == i
      && t[i].mesh == mesh
      && t[i].positionBuffer == b.position2.handle
      && t[i].rotationBuffer == b.rotation2.handle
      && 0.0 < t[i].offsetV < 1.0
      && RowAt(t[i].offsetV, b.position2.dims.height) == i
    ensures forall i, j :: 0 <= i < j < |t| ==> t[i].offsetV < t[j].offsetV
  {
    var h := b.position2.dims.height;
    var t := seq(RowCount(h), i requires 0 <= i < RowCount(h) => DrawOf(b, mesh, i));
    assert forall i :: 0 <= i < |t| ==> 0.0 < t[i].offsetV < 1.0 && RowAt(t[i].offsetV, h) == i by {
      forall i | 0 <= i < |t|
        ensures 0.0 < t[i].offsetV < 1.0 && RowAt(t[i].offsetV, h) == i
      {
        RowSelectorAddressesRow(i, h);
      }
    }
    assert forall i, j :: 0 <= i < j < |t| ==> t[i].offsetV < t[j].offsetV by {
      forall i, j | 0 <= i < j < |t|
        ensures t[i].offsetV < t[j].offsetV
      {
        RowSelectorIncreasing(i, j, h);
      }
    }
    t
  }

  /** The draw loop of `Update`, one `DrawMesh` per iteration. */
  method DrawRows(b: Buffers, mesh: Handle) returns (draws: seq<Event>)
    ensures draws == DrawCalls(b, mesh)
  {
    draws := [];
    var i := 0;
    while i < b.position2.dims.height
      invariant 0 <= i <= RowCount(b.position2.dims.height)
      invariant |draws| == i
      invariant forall k :: 0 <= k < i ==> draws[k] == DrawOf(b, mesh, k)
    {
      var v := (0.5 + i as real) / b.position2.dims.height as real;
      draws := draws + [Draw(mesh, b.position2.handle, b.rotation2.handle, i,
                             ColumnOffset(b.position2.dims.width), v)];
      i := i + 1;
    }
  }

  /** Drawing reads the latest-written buffers and changes nothing a later replay observes. */
  lemma {:induction false} ReplayDraws(t: seq<Event>, b: Buffers, mesh: Handle, m: Monitor)
    requires forall k :: 0 <= k < |t| ==>
      && t[k].Draw? && t[k].mesh == mesh
      && t[k].positionBuffer == b.position2.handle && t[k].rotationBuffer == b.rotation2.handle
    requires mesh in m.live && b.position2.handle in m.live && b.rotation2.handle in m.live
    requires m.latest == DrawnLatest(b)
    ensures Replay(t, m) == Some(m)
    decreases |t|
  {
    if t != [] {
      ReplayDraws(t[1..], b, mesh, m);
    }
  }
}
