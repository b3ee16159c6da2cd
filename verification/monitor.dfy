/**
  A reference semantics for event traces. Replaying a trace keeps the set of
  live engine objects and, for each grid, the buffer written most recently.
  Replay fails on any hazard: creating a live handle, touching or releasing
  a handle that is not live (a buffer, the material a parameter push or a
  blit targets, or the mesh of a draw), a blit that reads a buffer other than the latest one of its grid
  or reads the buffer it writes, or a draw that binds buffers other than the
  latest ones. A blit into a buffer that holds the other grid's latest state
  destroys that state: the other grid then has no latest buffer.
 */
module Monitor {
  import opened Events

  /** The most recently written buffer of each grid, if any. */
  datatype Latest = Latest(position: Option<Handle>, rotation: Option<Handle>)
  {
    function Get(g: Grid): Option<Handle>
    {
      match g
      case Position => position
      case Rotation => rotation
    }

    function Set(g: Grid, h: Handle): (l: Latest)
      ensures l.Get(g) == Some(h)
      ensures forall g' :: g' != g ==> l.Get(g') == Get(g')
    {
      match g
      case Position => this.(position := Some(h))
      case Rotation => this.(rotation := Some(h))
    }

    /** A released buffer no longer holds any grid's state. */
    function Forget(h: Handle): (l: Latest)
      ensures forall g :: l.Get(g) == (if Get(g) == Some(h) then None else Get(g))
    {
      Latest(if position == Some(h) then None else position,
             if rotation == Some(h) then None else rotation)
    }
  }

  const Unwritten := Latest(None, None)

  datatype Monitor = Monitor(live: set<Handle>, latest: Latest)

  /** The effect of one event, or `None` when the event is a hazard. */
  function Observe(m: Monitor, e: Event): Option<Monitor>
  {
    match e
    case Create(h, _) =>
      if h in m.live then None else Some(m.(live := m.live + {h}))
    case Rebuild(h) =>
      if h in m.live then Some(m) else None
    case Release(h) =>
      if h in m.live then Some(Monitor(m.live - {h}, m.latest.Forget(h))) else None
    case PushParams(material, _) =>
      if material in m.live then Some(m) else None
    case Blit(src, dst, material, pass) =>
      if && dst in m.live
         && material in m.live
         && src != Some(dst)
         && (src.Some? ==> src.value in m.live && m.latest.Get(pass.Target()) == src)
      then Some(m.(latest := m.latest.Forget(dst).Set(pass.Target(), dst)))
      else None
    case Draw(mesh, p, r, _, _, _) =>
      if mesh in m.live && p in m.live && r in m.live && m.latest == Latest(Some(p), Some(r))
      then Some(m) else None
  }

  /** No blit samples the buffer it writes. */
  predicate NoAliasing(t: seq<Event>)
  {
    forall k :: 0 <= k < |t| && t[k].Blit? ==> t[k].source != Some(t[k].dest)
  }

  /** Replays a trace event by event; `None` if any event is a hazard. */
  function Replay(t: seq<Event>, m: Monitor): (r: Option<Monitor>)
    ensures r.Some? ==> NoAliasing(t)
    decreases |t|
  {
    if t == [] then Some(m)
    else
      match Observe(m, t[0])
      case None => None
      case Some(m') =>
        var r := Replay(t[1..], m');
        assert r.Some? ==> NoAliasing(t) by {
          if r.Some? {
            forall k | 0 <= k < |t| && t[k].Blit?
              ensures t[k].source != Some(t[k].dest)
            {
              if k > 0 {
                assert t[k] == t[1..][k - 1];
              }
            }
          }
        }
        r
  }

  function Continue(o: Option<Monitor>, t: seq<Event>): Option<Monitor>
  {
    match o
    case None => None
    case Some(m) => Replay(t, m)
  }

  /** Replaying a concatenation is replaying its halves one after the other. */
  lemma {:induction false} ReplayConcat(a: seq<Event>, c: seq<Event>, m: Monitor)
    ensures Replay(a + c, m) == Continue(Replay(a, m), c)
    decreases |a|
  {
    if a == [] {
      assert a + c == c;
    } else {
      assert (a + c)[0] == a[0];
      assert (a + c)[1..] == a[1..] + c;
      match Observe(m, a[0])
      case None =>
      case Some(m') =>
        ReplayConcat(a[1..], c, m');
    }
  }

  /** Pushing parameters to a released kernel material is a hazard. */
  lemma PushToReleasedMaterialFails()
    ensures Replay([Create(0, KernelMaterial), Release(0), PushParams(0, 0.1)], Monitor({}, Unwritten)) == None
  {
  }

  /** Replaying three consecutive pieces. */
  lemma ReplayConcat3(a: seq<Event>, b: seq<Event>, c: seq<Event>, m: Monitor)
    ensures Replay(a + b + c, m) == Continue(Continue(Replay(a, m), b), c)
  {
    ReplayConcat(a + b, c, m);
    ReplayConcat(a, b, m);
  }
}
