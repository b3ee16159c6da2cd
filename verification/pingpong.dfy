/**
  The double-buffered state grids and the kernel blits that fill them:
  the pre-warm sequence of `InitializeAndPrewarmBuffers`, the buffer swap
  and the single advance step of a play-mode `Update`.
 */
module PingPong {
  import opened Events
  import opened Sizing
  import opened Monitor

  /** A render texture: its handle and its dimensions. */
  datatype Texture = Texture(handle: Handle, dims: Dims)

  /** The four state buffers: generations 1 and 2 of the position and rotation grids. */
  datatype Buffers = Buffers(position1: Texture, position2: Texture, rotation1: Texture, rotation2: Texture)
  {
    /** Handle of generation 1 (`_positionBuffer1` / `_rotationBuffer1`). */
    function First(g: Grid): Handle
    {
      match g
      case Position => position1.handle
      case Rotation => rotation1.handle
    }

    /** Handle of generation 2, the generation bound for drawing. */
    function Second(g: Grid): Handle
    {
      match g
      case Position => position2.handle
      case Rotation => rotation2.handle
    }

    function Handles(): set<Handle>
    {
      {position1.handle, position2.handle, rotation1.handle, rotation2.handle}
    }

    /** The buffers of one grid. */
    function GridHandles(g: Grid): set<Handle>
    {
      {First(g), Second(g)}
    }

    /** Four separately allocated textures. */
    predicate Distinct()
    {
      && position1.handle != position2.handle
      && position1.handle != rotation1.handle
      && position1.handle != rotation2.handle
      && position2.handle != rotation1.handle
      && position2.handle != rotation2.handle
      && rotation1.handle != rotation2.handle
    }

    /** All four buffers share the same dimensions. */
    predicate Uniform()
    {
      position1.dims == position2.dims == rotation1.dims == rotation2.dims
    }
  }

  /** The play-mode swap: generations 1 and 2 change places in both grids. */
  function Swap(b: Buffers): (r: Buffers)
    ensures forall g :: r.First(g) == b.Second(g) && r.Second(g) == b.First(g)
    ensures r.Handles() == b.Handles()
    ensures b.Distinct() ==> r.Distinct()
    ensures b.Uniform() ==> r.Uniform() && r.position2.dims == b.position2.dims
  {
    Buffers(b.position2, b.position1, b.rotation2, b.rotation1)
  }

  /** Swapping twice restores the original assignment. */
  lemma SwapIsInvolution(b: Buffers)
    ensures Swap(Swap(b)) == b
    ensures Swap(b) == b <==> b.position1 == b.position2 && b.rotation1 == b.rotation2
  {
  }

  /** Iterations of the pre-warm loop. */
  const PrewarmIterations: nat := 8

  /** Passes 0 and 1 seed generation 2 of each grid from no source. */
  function InitBlits(b: Buffers, kernel: Handle): seq<Event>
  {
    [ Blit(None, b.position2.handle, kernel, InitPosition),
      Blit(None, b.rotation2.handle, kernel, InitRotation) ]
  }

  /** One iteration of the pre-warm loop: advance 2 -> 1, then 1 -> 2, in both grids. */
  function AdvanceRound(b: Buffers, kernel: Handle): seq<Event>
  {
    [ Blit(Some(b.position2.handle), b.position1.handle, kernel, AdvancePosition),
      Blit(Some(b.rotation2.handle), b.rotation1.handle, kernel, AdvanceRotation),
      Blit(Some(b.position1.handle), b.position2.handle, kernel, AdvancePosition),
      Blit(Some(b.rotation1.handle), b.rotation2.handle, kernel, AdvanceRotation) ]
  }

  function AdvanceRounds(b: Buffers, kernel: Handle, n: nat): (t: seq<Event>)
    ensures |t| == 4 * n
    ensures forall k :: 0 <= k < |t| ==> t[k].Blit? && !t[k].pass.IsInit()
  {
    if n == 0 then [] else AdvanceRounds(b, kernel, n - 1) + AdvanceRound(b, kernel)
  }

  /** The blits `InitializeAndPrewarmBuffers` issues. */
  function PrewarmBlits(b: Buffers, kernel: Handle): seq<Event>
  {
    InitBlits(b, kernel) + AdvanceRounds(b, kernel, PrewarmIterations)
  }

  /** `InitializeAndPrewarmBuffers` with its loop. */
  method Prewarm(b: Buffers, kernel: Handle) returns (trace: seq<Event>)
    ensures trace == PrewarmBlits(b, kernel)
  {
    trace := [Blit(None, b.position2.handle, kernel, InitPosition)];
    trace := trace + [Blit(None, b.rotation2.handle, kernel, InitRotation)];
    var i := 0;
    while i < PrewarmIterations
      invariant 0 <= i <= PrewarmIterations
      invariant trace == InitBlits(b, kernel) + AdvanceRounds(b, kernel, i)
    {
      trace := trace + [Blit(Some(b.position2.handle), b.position1.handle, kernel, AdvancePosition)];
      trace := trace + [Blit(Some(b.rotation2.handle), b.rotation1.handle, kernel, AdvanceRotation)];
      trace := trace + [Blit(Some(b.position1.handle), b.position2.handle, kernel, AdvancePosition)];
      trace := trace + [Blit(Some(b.rotation1.handle), b.rotation2.handle, kernel, AdvanceRotation)];
      i := i + 1;
    }
  }

  /** The play-mode step, issued after the swap: advance generation 1 into generation 2. */
  function StepBlits(b: Buffers, kernel: Handle): seq<Event>
  {
    [ Blit(Some(b.position1.handle), b.position2.handle, kernel, AdvancePosition),
      Blit(Some(b.rotation1.handle), b.rotation2.handle, kernel, AdvanceRotation) ]
  }

  /** The destinations of the blits of pass `p`, in issue order. */
  function PassWrites(t: seq<Event>, p: Pass): seq<Handle>
  {
    if t == [] then []
    else (if t[0].Blit? && t[0].pass == p then [t[0].dest] else []) + PassWrites(t[1..], p)
  }

  lemma {:induction false} PassWritesConcat(a: seq<Event>, c: seq<Event>, p: Pass)
    ensures PassWrites(a + c, p) == PassWrites(a, p) + PassWrites(c, p)
    decreases |a|
  {
    if a == [] {
      assert a + c == c;
    } else {
      assert (a + c)[0] == a[0];
      assert (a + c)[1..] == a[1..] + c;
      PassWritesConcat(a[1..], c, p);
    }
  }

  lemma RoundWrites(b: Buffers, kernel: Handle, g: Grid)
    ensures PassWrites(AdvanceRound(b, kernel), AdvancePass(g)) == [b.First(g), b.Second(g)]
    ensures PassWrites(AdvanceRound(b, kernel), InitPass(g)) == []
  {
    var r := AdvanceRound(b, kernel);
    var r1, r2, r3 := r[1..], r[1..][1..], r[1..][1..][1..];
    assert r3[1..] == [];
    if g == Position {
      assert PassWrites(r3, AdvancePass(g)) == [];
      assert PassWrites(r2, AdvancePass(g)) == [b.Second(g)];
      assert PassWrites(r1, AdvancePass(g)) == [b.Second(g)];
    } else {
      assert PassWrites(r3, AdvancePass(g)) == [b.Second(g)];
      assert PassWrites(r2, AdvancePass(g)) == [b.Second(g)];
      assert PassWrites(r1, AdvancePass(g)) == [b.First(g), b.Second(g)];
    }
    assert PassWrites(r3, InitPass(g)) == [];
    assert PassWrites(r2, InitPass(g)) == [];
    assert PassWrites(r1, InitPass(g)) == [];
  }

  /** `x, y, x, y, ...` of length `n`. */
  function Alternating(x: Handle, y: Handle, n: nat): (s: seq<Handle>)
    ensures |s| == n
  {
    seq(n, k => if k % 2 == 0 then x else y)
  }

  lemma {:induction false} AdvanceRoundsWrites(b: Buffers, kernel: Handle, g: Grid, n: nat)
    ensures PassWrites(AdvanceRounds(b, kernel, n), InitPass(g)) == []
    ensures PassWrites(AdvanceRounds(b, kernel, n), AdvancePass(g)) == Alternating(b.First(g), b.Second(g), 2 * n)
  {
    if n > 0 {
      AdvanceRoundsWrites(b, kernel, g, n - 1);
      PassWritesConcat(AdvanceRounds(b, kernel, n - 1), AdvanceRound(b, kernel), InitPass(g));
      PassWritesConcat(AdvanceRounds(b, kernel, n - 1), AdvanceRound(b, kernel), AdvancePass(g));
      RoundWrites(b, kernel, g);
      var x, y := b.First(g), b.Second(g);
      assert Alternating(x, y, 2 * (n - 1)) + [x, y] == Alternating(x, y, 2 * n) by {
        var lhs := Alternating(x, y, 2 * (n - 1)) + [x, y];
        forall k | 0 <= k < 2 * n
          ensures lhs[k] == Alternating(x, y, 2 * n)[k]
        {
          if k >= 2 * (n - 1) {
            assert k == 2 * n - 2 || k == 2 * n - 1;
          }
        }
      }
    }
  }

  /**
    Pre-warm issues exactly one init pass per grid, into generation 2, then
    16 advance passes per grid alternating between writing generation 1 and
    generation 2, the last of them writing generation 2.
   */
  lemma PrewarmWrites(b: Buffers, kernel: Handle, g: Grid)
    ensures PassWrites(PrewarmBlits(b, kernel), InitPass(g)) == [b.Second(g)]
    ensures var w := PassWrites(PrewarmBlits(b, kernel), AdvancePass(g));
      && w == Alternating(b.First(g), b.Second(g), 2 * PrewarmIterations)
      && w[|w| - 1] == b.Second(g)
  {
    AdvanceRoundsWrites(b, kernel, g, PrewarmIterations);
    PassWritesConcat(InitBlits(b, kernel), AdvanceRounds(b, kernel, PrewarmIterations), InitPass(g));
    PassWritesConcat(InitBlits(b, kernel), AdvanceRounds(b, kernel, PrewarmIterations), AdvancePass(g));
    var i := InitBlits(b, kernel);
    assert i[1..][1..] == [];
  }

  /**
    Every blit of an even-numbered pass (0 or 2) reads and writes only
    position buffers; every blit of an odd-numbered pass (1 or 3) only
    rotation buffers.
   */
  predicate WritesOwnGrid(t: seq<Event>, b: Buffers)
  {
    forall k :: 0 <= k < |t| && t[k].Blit? ==>
      var g := if t[k].pass.Number() % 2 == 0 then Position else Rotation;
      && t[k].dest in b.GridHandles(g)
      && (t[k].source.Some? ==> t[k].source.value in b.GridHandles(g))
  }

  lemma WritesOwnGridConcat(a: seq<Event>, c: seq<Event>, b: Buffers)
    requires WritesOwnGrid(a, b) && WritesOwnGrid(c, b)
    ensures WritesOwnGrid(a + c, b)
  {
    assert forall k :: 0 <= k < |a| ==> (a + c)[k] == a[k];
    assert forall k :: |a| <= k < |a + c| ==> (a + c)[k] == c[k - |a|];
  }

  /** Passes 0 and 2 write only position buffers, passes 1 and 3 only rotation buffers. */
  lemma PrewarmWritesOwnGrid(b: Buffers, kernel: Handle)
    ensures WritesOwnGrid(PrewarmBlits(b, kernel), b)
    ensures WritesOwnGrid(StepBlits(b, kernel), b)
  {
    assert WritesOwnGrid(AdvanceRounds(b, kernel, PrewarmIterations), b) by {
      AdvanceRoundsOwnGrid(b, kernel, PrewarmIterations);
    }
    WritesOwnGridConcat(InitBlits(b, kernel), AdvanceRounds(b, kernel, PrewarmIterations), b);
  }

  lemma {:induction false} AdvanceRoundsOwnGrid(b: Buffers, kernel: Handle, n: nat)
    ensures WritesOwnGrid(AdvanceRounds(b, kernel, n), b)
  {
    if n > 0 {
      AdvanceRoundsOwnGrid(b, kernel, n - 1);
      WritesOwnGridConcat(AdvanceRounds(b, kernel, n - 1), AdvanceRound(b, kernel), b);
    }
  }

  /** The latest-written record when generation 2 of both grids holds the newest state. */
  function DrawnLatest(b: Buffers): Latest
  {
    Latest(Some(b.position2.handle), Some(b.rotation2.handle))
  }

  lemma {:induction false} ReplayAdvanceRounds(b: Buffers, kernel: Handle, n: nat, m: Monitor)
    requires b.Handles() <= m.live && kernel in m.live
    requires b.Distinct()
    requires m.latest == DrawnLatest(b)
    ensures Replay(AdvanceRounds(b, kernel, n), m) == Some(m)
  {
    if n > 0 {
      ReplayAdvanceRounds(b, kernel, n - 1, m);
      ReplayConcat(AdvanceRounds(b, kernel, n - 1), AdvanceRound(b, kernel), m);
      ReplayRound(b, kernel, m);
    }
  }

  /** One pre-warm iteration starts and ends with generation 2 as the latest of each grid. */
  lemma ReplayRound(b: Buffers, kernel: Handle, m: Monitor)
    requires b.Handles() <= m.live && kernel in m.live
    requires b.Distinct()
    requires m.latest == DrawnLatest(b)
    ensures Replay(AdvanceRound(b, kernel), m) == Some(m)
  {
    var r := AdvanceRound(b, kernel);
    var p1, p2, r1, r2 := b.position1.handle, b.position2.handle, b.rotation1.handle, b.rotation2.handle;
    var m1 := m.(latest := Latest(Some(p1), Some(r2)));
    var m2 := m.(latest := Latest(Some(p1), Some(r1)));
    var m3 := m.(latest := Latest(Some(p2), Some(r1)));
    assert r[1..][1..][1..][1..] == [];
    assert Replay(r[1..][1..][1..], m3) == Some(m);
    assert Replay(r[1..][1..], m2) == Some(m);
    assert Replay(r[1..], m1) == Some(m);
  }

  /**
    Whatever was written before, pre-warm reads only buffers its own blits
    have just written, never aliases, and leaves generation 2 of each grid as
    the latest-written buffer.
   */
  lemma ReplayPrewarm(b: Buffers, kernel: Handle, m: Monitor)
    requires b.Handles() <= m.live && kernel in m.live
    requires b.Distinct()
    ensures Replay(PrewarmBlits(b, kernel), m) == Some(m.(latest := DrawnLatest(b)))
  {
    var m' := m.(latest := DrawnLatest(b));
    var i := InitBlits(b, kernel);
    assert i[1..][1..] == [];
    assert Replay(i[1..], m.(latest := m.latest.Forget(b.position2.handle).Set(Position, b.position2.handle))) == Some(m');
    assert Replay(i, m) == Some(m');
    ReplayConcat(i, AdvanceRounds(b, kernel, PrewarmIterations), m);
    ReplayAdvanceRounds(b, kernel, PrewarmIterations, m');
  }

  /**
    The play-mode step after a swap reads the buffers the previous frame
    drew, never aliases, and leaves the new generation 2 as the latest.
   */
  lemma ReplaySwapStep(b: Buffers, kernel: Handle, m: Monitor)
    requires b.Handles() <= m.live && kernel in m.live
    requires b.Distinct()
    requires m.latest == DrawnLatest(b)
    ensures Replay(StepBlits(Swap(b), kernel), m) == Some(m.(latest := DrawnLatest(Swap(b))))
  {
    var t := StepBlits(Swap(b), kernel);
    assert t[1..][1..] == [];
    var m1 := m.(latest := Latest(Some(b.position1.handle), Some(b.rotation2.handle)));
    assert Replay(t[1..], m1) == Some(m.(latest := DrawnLatest(Swap(b))));
  }
}
