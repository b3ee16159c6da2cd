/**
  The Spray component's CPU-side lifecycle: the `_needsReset` flag, resource
  (re)allocation in `ResetResources`, the per-frame `Update` and the
  teardown in `OnDestroy`. Each host call is a pure function from the
  component record to the next record plus the trace of engine events it
  issues. GPU work is reduced to those events.
 */
module Lifecycle {
  import opened Events
  import opened Sizing
  import opened Monitor
  import opened PingPong
  import opened Rows

  /**
    Serialized settings read when resources are rebuilt: the configured
    particle count and the number of copies per batch that the bulk mesh
    makes of the configured shapes.
   */
  datatype Config = Config(maxParticles: Int32, copyCount: CopyCount)

  /** The engine clock as `Update` sees it: play mode, `Time.frameCount` and `Time.deltaTime`. */
  datatype Clock = Clock(isPlaying: bool, frameCount: int, frameDelta: real)

  /** The fixed step used outside live play: one tenth of a second. */
  const FixedDeltaTime: real := 0.1

  /** The `deltaTime` property: the measured frame time only while playing past the first frame. */
  function DeltaTime(clock: Clock): (dt: real)
    ensures clock.isPlaying && clock.frameCount > 1 ==> dt == clock.frameDelta
    ensures !clock.isPlaying || clock.frameCount <= 1 ==> dt == FixedDeltaTime
  {
    if clock.isPlaying && clock.frameCount > 1 then clock.frameDelta else 1.0 / 10.0
  }

  /** Outside live play the step does not depend on the measured frame time. */
  lemma DeltaTimeIgnoresFrameTimeOutsidePlay(c1: Clock, c2: Clock)
    requires !c1.isPlaying || c1.frameCount <= 1
    requires !c2.isPlaying || c2.frameCount <= 1
    ensures DeltaTime(c1) == DeltaTime(c2) == FixedDeltaTime
  {
  }

  /** The bulk mesh: its handle and its copies per batch. */
  datatype BulkMesh = BulkMesh(handle: Handle, copyCount: CopyCount)

  /**
    The component's private state. `live` holds the engine objects that
    currently exist; `nextHandle` is where fresh handles start.
   */
  datatype Spray = Spray(
    mesh: Option<BulkMesh>,
    buffers: Option<Buffers>,
    kernelMaterial: Option<Handle>,
    debugMaterial: Option<Handle>,
    needsReset: bool,
    live: set<Handle>,
    nextHandle: Handle)

  /** A freshly added component: nothing allocated, reset pending. */
  function Initial(): (s: Spray)
    ensures s.needsReset && s.live == {}
  {
    Spray(None, None, None, None, true, {}, 0)
  }

  /** The next state of a host call and the events it issues. */
  datatype Step = Step(state: Spray, trace: seq<Event>)

  function OptionSet(o: Option<Handle>): set<Handle>
  {
    if o.Some? then {o.value} else {}
  }

  function MeshHandles(s: Spray): set<Handle>
  {
    if s.mesh.Some? then {s.mesh.value.handle} else {}
  }

  function BufferHandles(s: Spray): set<Handle>
  {
    if s.buffers.Some? then s.buffers.value.Handles() else {}
  }

  /** Every engine object the component references. */
  function Owned(s: Spray): set<Handle>
  {
    MeshHandles(s) + BufferHandles(s) + OptionSet(s.kernelMaterial) + OptionSet(s.debugMaterial)
  }

  /** No engine object is referenced from two fields. */
  predicate Exclusive(s: Spray)
  {
    && (s.buffers.Some? ==>
          && s.buffers.value.Distinct()
          && (s.mesh.Some? ==> s.mesh.value.handle !in s.buffers.value.Handles())
          && (s.kernelMaterial.Some? ==> s.kernelMaterial.value !in s.buffers.value.Handles())
          && (s.debugMaterial.Some? ==> s.debugMaterial.value !in s.buffers.value.Handles()))
    && (s.mesh.Some? && s.kernelMaterial.Some? ==> s.mesh.value.handle != s.kernelMaterial.value)
    && (s.mesh.Some? && s.debugMaterial.Some? ==> s.mesh.value.handle != s.debugMaterial.value)
    && (s.kernelMaterial.Some? && s.debugMaterial.Some? ==> s.kernelMaterial.value != s.debugMaterial.value)
  }

  /** Everything `Update` draws with is present. */
  predicate Ready(s: Spray)
  {
    s.mesh.Some? && s.buffers.Some? && s.kernelMaterial.Some? && s.debugMaterial.Some?
  }

  /**
    The invariant of every state a host can reach: exactly the referenced
    objects are live (nothing leaked, nothing dangling), no object is shared,
    the mesh, buffers and materials exist all together or not at all, the
    four buffers share one size whose width is the mesh's copy count, and a
    state with no pending reset has all its resources.
   */
  predicate Valid(s: Spray)
  {
    && s.live == Owned(s)
    && (forall h :: h in s.live ==> h < s.nextHandle)
    && Exclusive(s)
    && (s.buffers.Some? <==> s.mesh.Some?)
    && (s.kernelMaterial.Some? <==> s.mesh.Some?)
    && (s.debugMaterial.Some? <==> s.mesh.Some?)
    && (s.buffers.Some? ==>
          && s.buffers.value.Uniform()
          && s.buffers.value.position2.dims.width == s.mesh.value.copyCount)
    && (!s.needsReset ==> Ready(s))
  }

  lemma InitialIsValid()
    ensures Valid(Initial())
  {
  }

  /** The `maxParticles` property of a component for the configured count. */
  function EffectiveMaxParticles(s: Spray, configured: Int32): (r: int)
    ensures s.mesh.None? ==> r == 0
    ensures s.mesh.Some? && 0 <= configured ==>
              && r % s.mesh.value.copyCount == 0
              && configured < r <= configured + s.mesh.value.copyCount
  {
    MaxParticles(configured, if s.mesh.Some? then Some(s.mesh.value.copyCount) else None)
  }

  /** `NotifyConfigChange` and the editor's `Reset`: request a rebuild on the next `Update`. */
  function MarkForReset(s: Spray): (r: Spray)
    ensures r.needsReset
    ensures r.(needsReset := s.needsReset) == s
    ensures Valid(s) ==> Valid(r)
  {
    s.(needsReset := true)
  }

  // ---------------------------------------------------------------------
  // Releasing objects that may or may not be alive (`if (x) DestroyImmediate(x)`).

  datatype Released = Released(live: set<Handle>, events: seq<Event>)

  function Elems(hs: seq<Handle>): set<Handle>
  {
    set h | h in hs
  }

  /** Releases, in order, each handle of `hs` that is still live. */
  function ReleaseLive(hs: seq<Handle>, live: set<Handle>): (r: Released)
    ensures r.live == live - Elems(hs)
    ensures forall k :: 0 <= k < |r.events| ==>
              r.events[k].Release? && r.events[k].handle in hs && r.events[k].handle in live
    decreases |hs|
  {
    if hs == [] then Released(live, [])
    else
      var h := hs[0];
      assert Elems(hs) == {h} + Elems(hs[1..]);
      var rest := ReleaseLive(hs[1..], live - {h});
      if h in live then Released(rest.live, [Release(h)] + rest.events) else rest
  }

  lemma {:induction false} ReplayReleaseLive(hs: seq<Handle>, live: set<Handle>, l: Latest)
    ensures Replay(ReleaseLive(hs, live).events, Monitor(live, l)).Some?
    ensures Replay(ReleaseLive(hs, live).events, Monitor(live, l)).value.live == ReleaseLive(hs, live).live
    decreases |hs|
  {
    if hs != [] {
      var h := hs[0];
      var rest := ReleaseLive(hs[1..], live - {h});
      if h in live {
        ReplayReleaseLive(hs[1..], live - {h}, l.Forget(h));
        var t := [Release(h)] + rest.events;
        assert t[1..] == rest.events;
      } else {
        assert live - {h} == live;
        ReplayReleaseLive(hs[1..], live, l);
      }
    }
  }

  // ---------------------------------------------------------------------
  // `ResetResources`, piece by piece.

  /** The bulk mesh after a reset: a new one when absent, otherwise the same one rebuilt. */
  function ResetMesh(s: Spray, c: CopyCount): BulkMesh
  {
    if s.mesh.None? then BulkMesh(s.nextHandle, c) else s.mesh.value.(copyCount := c)
  }

  function MeshEvents(s: Spray): seq<Event>
  {
    if s.mesh.None? then [Create(s.nextHandle, MeshResource)] else [Rebuild(s.mesh.value.handle)]
  }

  /** The first handle free after the mesh step. */
  function AfterMesh(s: Spray): Handle
  {
    if s.mesh.None? then s.nextHandle + 1 else s.nextHandle
  }

  function LiveAfterMesh(s: Spray): set<Handle>
  {
    if s.mesh.None? then s.live + {s.nextHandle} else s.live
  }

  /** The old buffers in release order. */
  function OldBuffers(s: Spray): seq<Handle>
  {
    if s.buffers.Some? then
      var b := s.buffers.value;
      [b.position1.handle, b.position2.handle, b.rotation1.handle, b.rotation2.handle]
    else []
  }

  /** Four new buffers, all sized by `CreateBuffer`. */
  function NewBuffers(s: Spray, cfg: Config): Buffers
  {
    var n := AfterMesh(s);
    var d := BufferDims(cfg.maxParticles, cfg.copyCount);
    Buffers(Texture(n, d), Texture(n + 1, d), Texture(n + 2, d), Texture(n + 3, d))
  }

  function BufferEvents(s: Spray): seq<Event>
  {
    var n := AfterMesh(s);
    [Create(n, BufferResource), Create(n + 1, BufferResource),
     Create(n + 2, BufferResource), Create(n + 3, BufferResource)]
  }

  /** `if (!_kernelMaterial)` is false: the kernel material exists and is alive. */
  predicate KeepsKernel(s: Spray)
  {
    s.kernelMaterial.Some? && s.kernelMaterial.value in s.live
  }

  predicate KeepsDebug(s: Spray)
  {
    s.debugMaterial.Some? && s.debugMaterial.value in s.live
  }

  function KernelHandle(s: Spray): Handle
  {
    if KeepsKernel(s) then s.kernelMaterial.value else AfterMesh(s) + 4
  }

  function AfterKernel(s: Spray): Handle
  {
    if KeepsKernel(s) then AfterMesh(s) + 4 else AfterMesh(s) + 5
  }

  function DebugHandle(s: Spray): Handle
  {
    if KeepsDebug(s) then s.debugMaterial.value else AfterKernel(s)
  }

  function AfterDebug(s: Spray): Handle
  {
    if KeepsDebug(s) then AfterKernel(s) else AfterKernel(s) + 1
  }

  function MaterialEvents(s: Spray): seq<Event>
  {
    (if KeepsKernel(s) then [] else [Create(KernelHandle(s), KernelMaterial)])
    + (if KeepsDebug(s) then [] else [Create(DebugHandle(s), DebugMaterial)])
  }

  /** Handles `lo .. hi-1`. */
  function Range(lo: Handle, hi: Handle): (r: set<Handle>)
    ensures forall h :: h in r <==> lo <= h < hi
    decreases hi - lo
  {
    if hi <= lo then {} else Range(lo, hi - 1) + {hi - 1}
  }

  /** The handle of the bulk mesh after a reset. */
  function MeshHandleAfter(s: Spray): Handle
  {
    if s.mesh.None? then s.nextHandle else s.mesh.value.handle
  }

  /** Releasing the old buffers, each only if it is alive. */
  function ReleaseOldBuffers(s: Spray): Released
  {
    ReleaseLive(OldBuffers(s), LiveAfterMesh(s))
  }

  /** The component after `ResetResources`. */
  function ResetState(s: Spray, cfg: Config): Spray
  {
    Spray(Some(ResetMesh(s, cfg.copyCount)), Some(NewBuffers(s, cfg)),
          Some(KernelHandle(s)), Some(DebugHandle(s)),
          false,
          ReleaseOldBuffers(s).live + Range(AfterMesh(s), AfterDebug(s)),
          AfterDebug(s))
  }

  /** Mesh build or rebuild, then release of the old buffers. */
  function ReleasePhase(s: Spray): seq<Event>
  {
    MeshEvents(s) + ReleaseOldBuffers(s).events
  }

  /** Creation of the four buffers and of the absent materials. */
  function CreationPhase(s: Spray): seq<Event>
  {
    BufferEvents(s) + MaterialEvents(s)
  }

  /** `UpdateKernelShader` followed by `InitializeAndPrewarmBuffers`. */
  function WarmupPhase(b: Buffers, kernel: Handle, clock: Clock): seq<Event>
  {
    [PushParams(kernel, DeltaTime(clock))] + PrewarmBlits(b, kernel)
  }

  /**
    `ResetResources`: build or rebuild the bulk mesh, release the old buffers,
    create four new ones, create the materials that are absent, push the
    parameters, pre-warm, and clear the reset flag.
   */
  function ResetResources(s: Spray, cfg: Config, clock: Clock): (r: Step)
    requires Valid(s)
    ensures Valid(r.state) && !r.state.needsReset
    ensures r.state.buffers == Some(NewBuffers(s, cfg))
    ensures r.state.buffers.value.position2.dims == BufferDims(cfg.maxParticles, cfg.copyCount)
    ensures r.state.mesh.value.copyCount == cfg.copyCount
    ensures s.mesh.Some? ==> r.state.mesh.value.handle == s.mesh.value.handle
    ensures s.kernelMaterial.Some? ==> r.state.kernelMaterial == s.kernelMaterial
    ensures s.debugMaterial.Some? ==> r.state.debugMaterial == s.debugMaterial
    ensures BufferHandles(s) !! r.state.live
  {
    ResetStateValid(s, cfg);
    Step(ResetState(s, cfg),
         ReleasePhase(s) + (CreationPhase(s) + WarmupPhase(NewBuffers(s, cfg), KernelHandle(s), clock)))
  }

  /** What survives the release phase: the mesh and the existing materials, all older than the new buffers. */
  lemma Survivors(s: Spray)
    requires Valid(s)
    ensures ReleaseOldBuffers(s).live
         == {MeshHandleAfter(s)} + OptionSet(s.kernelMaterial) + OptionSet(s.debugMaterial)
    ensures forall h :: h in ReleaseOldBuffers(s).live ==> h < AfterMesh(s)
  {
    assert Elems(OldBuffers(s)) == BufferHandles(s);
  }

  lemma ResetStateValid(s: Spray, cfg: Config)
    requires Valid(s)
    ensures Valid(ResetState(s, cfg))
    ensures BufferHandles(s) !! ResetState(s, cfg).live
  {
    Survivors(s);
    if s.mesh.Some? {
      RebuiltStateValid(s, cfg);
    } else {
      FirstStateValid(s, cfg);
    }
  }

  lemma RebuiltStateValid(s: Spray, cfg: Config)
    requires Valid(s) && s.mesh.Some?
    requires ReleaseOldBuffers(s).live == {s.mesh.value.handle, s.kernelMaterial.value, s.debugMaterial.value}
    ensures Valid(ResetState(s, cfg))
    ensures BufferHandles(s) !! ResetState(s, cfg).live
  {
    var r := ResetState(s, cfg);
    var n := AfterMesh(s);
    assert KeepsKernel(s) && KeepsDebug(s);
    assert Range(n, AfterDebug(s)) == NewBuffers(s, cfg).Handles();
    assert r.live == Owned(r);
  }

  lemma FirstStateValid(s: Spray, cfg: Config)
    requires Valid(s) && s.mesh.None?
    requires ReleaseOldBuffers(s).live == {s.nextHandle}
    ensures Valid(ResetState(s, cfg))
    ensures BufferHandles(s) !! ResetState(s, cfg).live
  {
    var r := ResetState(s, cfg);
    var n := AfterMesh(s);
    assert !KeepsKernel(s) && !KeepsDebug(s);
    assert Range(n, AfterDebug(s)) == NewBuffers(s, cfg).Handles() + {n + 4, n + 5};
    assert r.live == Owned(r);
  }

  /** Creating consecutive fresh handles makes exactly those handles live. */
  lemma {:induction false} ReplayFreshCreates(t: seq<Event>, lo: Handle, m: Monitor)
    requires forall k :: 0 <= k < |t| ==> t[k].Create? && t[k].handle == lo + k
    requires forall h :: h in m.live ==> h < lo
    ensures Replay(t, m) == Some(m.(live := m.live + Range(lo, lo + |t|)))
    decreases |t|
  {
    if t != [] {
      var m' := m.(live := m.live + {lo});
      assert Observe(m, t[0]) == Some(m');
      ReplayFreshCreates(t[1..], lo + 1, m');
      assert m'.live + Range(lo + 1, lo + |t|) == m.live + Range(lo, lo + |t|);
      assert m'.(live := m'.live + Range(lo + 1, lo + |t|)) == m.(live := m.live + Range(lo, lo + |t|));
    } else {
      assert m.live + Range(lo, lo) == m.live;
    }
  }

  lemma ReplayReleasePhase(s: Spray, l: Latest)
    requires Valid(s)
    ensures Replay(ReleasePhase(s), Monitor(s.live, l)).Some?
    ensures Replay(ReleasePhase(s), Monitor(s.live, l)).value.live == ReleaseOldBuffers(s).live
  {
    var m0 := Monitor(s.live, l);
    var m1 := Monitor(LiveAfterMesh(s), l);
    assert MeshEvents(s)[1..] == [];
    assert Replay(MeshEvents(s), m0) == Some(m1);
    ReplayReleaseLive(OldBuffers(s), LiveAfterMesh(s), l);
    ReplayConcat(MeshEvents(s), ReleaseOldBuffers(s).events, m0);
  }

  lemma ReplayCreationPhase(s: Spray, m: Monitor)
    requires forall h :: h in m.live ==> h < AfterMesh(s)
    ensures Replay(CreationPhase(s), m) == Some(m.(live := m.live + Range(AfterMesh(s), AfterDebug(s))))
  {
    var creates := CreationPhase(s);
    var n := AfterMesh(s);
    assert forall k :: 0 <= k < |creates| ==> creates[k].Create? && creates[k].handle == n + k;
    assert n + |creates| == AfterDebug(s);
    ReplayFreshCreates(creates, n, m);
  }

  /**
    Replaying a reset from any earlier history: every release hits a live
    buffer, every creation a fresh handle, and pre-warm leaves generation 2
    of the new buffers as the latest written.
   */
  lemma ReplayResetResources(s: Spray, cfg: Config, clock: Clock, l: Latest)
    requires Valid(s)
    ensures var r := ResetResources(s, cfg, clock);
      Replay(r.trace, Monitor(s.live, l)) == Some(Monitor(r.state.live, DrawnLatest(r.state.buffers.value)))
  {
    var r := ResetResources(s, cfg, clock);
    var b := NewBuffers(s, cfg);
    var m0 := Monitor(s.live, l);
    var later := CreationPhase(s) + WarmupPhase(b, KernelHandle(s), clock);
    assert r.state == ResetState(s, cfg) && r.trace == ReleasePhase(s) + later;
    ReplayReleasePhase(s, l);
    var m1 := Replay(ReleasePhase(s), m0).value;
    var m2 := m1.(live := r.state.live);
    ReplayLater(s, cfg, clock, m1);
    assert Replay(later, m1) == Some(m2.(latest := DrawnLatest(b)));
    ReplayConcat(ReleasePhase(s), later, m0);
  }

  /** The creation and warm-up phases, replayed after the release phase. */
  lemma ReplayLater(s: Spray, cfg: Config, clock: Clock, m1: Monitor)
    requires Valid(s)
    requires m1.live == ReleaseOldBuffers(s).live
    ensures Replay(CreationPhase(s) + WarmupPhase(NewBuffers(s, cfg), KernelHandle(s), clock), m1)
         == Some(Monitor(ResetState(s, cfg).live, DrawnLatest(NewBuffers(s, cfg))))
  {
    var b := NewBuffers(s, cfg);
    var live := ResetState(s, cfg).live;
    Survivors(s);
    ReplayCreationPhase(s, m1);
    assert live == m1.live + Range(AfterMesh(s), AfterDebug(s));
    NewBuffersLive(s, cfg);
    ResetStateValid(s, cfg);
    assert KernelHandle(s) in live;
    ReplayWarmup(b, KernelHandle(s), clock, m1.(live := live));
    ReplayConcat(CreationPhase(s), WarmupPhase(b, KernelHandle(s), clock), m1);
  }

  lemma NewBuffersLive(s: Spray, cfg: Config)
    ensures NewBuffers(s, cfg).Handles() <= Range(AfterMesh(s), AfterDebug(s))
    ensures NewBuffers(s, cfg).Distinct()
  {
  }

  lemma ReplayWarmup(b: Buffers, kernel: Handle, clock: Clock, m: Monitor)
    requires b.Handles() <= m.live && kernel in m.live && b.Distinct()
    ensures Replay(WarmupPhase(b, kernel, clock), m) == Some(m.(latest := DrawnLatest(b)))
  {
    ReplayPrewarm(b, kernel, m);
    ReplayConcat([PushParams(kernel, DeltaTime(clock))], PrewarmBlits(b, kernel), m);
  }

  // ---------------------------------------------------------------------
  // Event-wise facts about traces.

  /** Every event of `t` satisfies `f`. */
  /**
    A reset's parameter push targets the kernel material, so while that
    material has not been created the push is a hazard: the creation phase
    must come first.
   */
  lemma KernelPushNeedsCreation(s: Spray, dt: real, m: Monitor)
    requires Valid(s) && s.kernelMaterial.None? && m.live <= s.live
    ensures Replay([PushParams(KernelHandle(s), dt)], m) == None
  {
  }

  predicate All(t: seq<Event>, f: Event -> bool)
  {
    forall k :: 0 <= k < |t| ==> f(t[k])
  }

  lemma AllConcat(a: seq<Event>, c: seq<Event>, f: Event -> bool)
    ensures All(a + c, f) <==> All(a, f) && All(c, f)
  {
    if All(a, f) && All(c, f) {
      forall k | 0 <= k < |a + c|
        ensures f((a + c)[k])
      {
        if k < |a| {
          assert (a + c)[k] == a[k];
        } else {
          assert (a + c)[k] == c[k - |a|];
        }
      }
    }
    if All(a + c, f) {
      forall k | 0 <= k < |a|
        ensures f(a[k])
      {
        assert (a + c)[k] == a[k];
      }
      forall k | 0 <= k < |c|
        ensures f(c[k])
      {
        assert (a + c)[|a| + k] == c[k];
      }
    }
  }

  lemma AllWeaken(t: seq<Event>, f: Event -> bool, g: Event -> bool)
    requires All(t, f)
    requires forall e :: f(e) ==> g(e)
    ensures All(t, g)
  {
  }

  /** The number of events of a trace that satisfy `f`. */
  function Count(t: seq<Event>, f: Event -> bool): nat
  {
    if |t| == 0 then 0 else Count(t[..|t| - 1], f) + (if f(t[|t| - 1]) then 1 else 0)
  }

  lemma {:induction false} CountConcat(a: seq<Event>, c: seq<Event>, f: Event -> bool)
    ensures Count(a + c, f) == Count(a, f) + Count(c, f)
    decreases |c|
  {
    if |c| == 0 {
      assert a + c == a;
    } else {
      var c' := c[..|c| - 1];
      assert (a + c)[..|a + c| - 1] == a + c';
      CountConcat(a, c', f);
    }
  }

  lemma CountSingle(e: Event, f: Event -> bool)
    ensures Count([e], f) == (if f(e) then 1 else 0)
  {
    assert [e][..0] == [];
  }

  lemma {:induction false} CountNone(t: seq<Event>, f: Event -> bool)
    requires forall k :: 0 <= k < |t| ==> !f(t[k])
    ensures Count(t, f) == 0
    decreases |t|
  {
    if |t| > 0 {
      var t' := t[..|t| - 1];
      assert forall k :: 0 <= k < |t'| ==> t'[k] == t[k];
      CountNone(t', f);
    }
  }

  lemma {:induction false} CountAll(t: seq<Event>, f: Event -> bool)
    requires All(t, f)
    ensures Count(t, f) == |t|
    decreases |t|
  {
    if |t| > 0 {
      var t' := t[..|t| - 1];
      assert forall k :: 0 <= k < |t'| ==> t'[k] == t[k];
      CountAll(t', f);
    }
  }

  predicate IsBufferCreate(e: Event)
  {
    e.Create? && e.kind == BufferResource
  }

  /** Every release precedes every buffer creation. */
  predicate ReleasesPrecedeAllocation(t: seq<Event>)
  {
    forall i, j :: 0 <= i < |t| && 0 <= j < |t| && t[i].Release? && IsBufferCreate(t[j]) ==> i < j
  }

  lemma ReleasesPrecedeAllocationConcat(a: seq<Event>, c: seq<Event>)
    requires All(a, (e: Event) => !IsBufferCreate(e))
    requires All(c, (e: Event) => !e.Release?)
    ensures ReleasesPrecedeAllocation(a + c)
  {
    assert forall k :: 0 <= k < |a| ==> (a + c)[k] == a[k];
    assert forall k :: |a| <= k < |a + c| ==> (a + c)[k] == c[k - |a|];
  }

  lemma PrewarmIsBlits(b: Buffers, kernel: Handle)
    ensures All(PrewarmBlits(b, kernel), (e: Event) => e.Blit?)
  {
    AllConcat(InitBlits(b, kernel), AdvanceRounds(b, kernel, PrewarmIterations), (e: Event) => e.Blit?);
  }

  /** The events of the release phase: the mesh step and releases. */
  predicate IsReleasePhaseEvent(e: Event)
  {
    e.Release? || e.Rebuild? || (e.Create? && e.kind == MeshResource)
  }

  /** The events of the creation phase: creations of buffers and materials. */
  predicate IsCreationEvent(e: Event)
  {
    e.Create? && e.kind != MeshResource
  }

  /** The events of the warm-up phase: the parameter push and blits. */
  predicate IsWarmupEvent(e: Event)
  {
    e.PushParams? || e.Blit?
  }

  lemma PhaseShapes(s: Spray, b: Buffers, clock: Clock)
    ensures All(ReleasePhase(s), IsReleasePhaseEvent)
    ensures All(CreationPhase(s), IsCreationEvent)
    ensures All(WarmupPhase(b, KernelHandle(s), clock), IsWarmupEvent)
  {
    var kernel := KernelHandle(s);
    AllConcat(MeshEvents(s), ReleaseOldBuffers(s).events, IsReleasePhaseEvent);
    AllConcat(BufferEvents(s), MaterialEvents(s), IsCreationEvent);
    PrewarmIsBlits(b, kernel);
    AllWeaken(PrewarmBlits(b, kernel), (e: Event) => e.Blit?, IsWarmupEvent);
    AllConcat([PushParams(kernel, DeltaTime(clock))], PrewarmBlits(b, kernel), IsWarmupEvent);
  }

  /** The reset trace satisfies `f` when each phase's events all do. */
  lemma ResetTraceAll(s: Spray, cfg: Config, clock: Clock, f: Event -> bool)
    requires Valid(s)
    requires forall e :: IsReleasePhaseEvent(e) ==> f(e)
    requires forall e :: IsWarmupEvent(e) ==> f(e)
    requires All(CreationPhase(s), f)
    ensures All(ResetResources(s, cfg, clock).trace, f)
  {
    var b := NewBuffers(s, cfg);
    PhaseShapes(s, b, clock);
    AllWeaken(ReleasePhase(s), IsReleasePhaseEvent, f);
    AllWeaken(WarmupPhase(b, KernelHandle(s), clock), IsWarmupEvent, f);
    AllConcat(CreationPhase(s), WarmupPhase(b, KernelHandle(s), clock), f);
    AllConcat(ReleasePhase(s), CreationPhase(s) + WarmupPhase(b, KernelHandle(s), clock), f);
  }

  /**
    A reset releases the old buffers before it allocates any new one, leaves
    none of them live, and leaves exactly the four new, distinct buffers live.
   */
  lemma ResetReleasesBeforeAllocating(s: Spray, cfg: Config, clock: Clock)
    requires Valid(s)
    ensures var r := ResetResources(s, cfg, clock);
      && ReleasesPrecedeAllocation(r.trace)
      && BufferHandles(s) !! r.state.live
      && r.state.buffers.value.Distinct()
      && BufferHandles(r.state) <= r.state.live
      && |BufferHandles(r.state)| == 4
  {
    var b := NewBuffers(s, cfg);
    var notCreate := (e: Event) => !IsBufferCreate(e);
    var notRelease := (e: Event) => !e.Release?;
    PhaseShapes(s, b, clock);
    AllWeaken(ReleasePhase(s), IsReleasePhaseEvent, notCreate);
    AllWeaken(CreationPhase(s), IsCreationEvent, notRelease);
    AllWeaken(WarmupPhase(b, KernelHandle(s), clock), IsWarmupEvent, notRelease);
    AllConcat(CreationPhase(s), WarmupPhase(b, KernelHandle(s), clock), notRelease);
    ReleasesPrecedeAllocationConcat(ReleasePhase(s), CreationPhase(s) + WarmupPhase(b, KernelHandle(s), clock));
    var n := AfterMesh(s);
    assert b.Handles() == {n, n + 1, n + 2, n + 3};
    assert |{n, n + 1, n + 2, n + 3}| == 4;
  }

  predicate IsKernelCreate(e: Event)
  {
    e.Create? && e.kind == KernelMaterial
  }

  predicate IsDebugCreate(e: Event)
  {
    e.Create? && e.kind == DebugMaterial
  }

  /**
    Materials are created only when absent, and then exactly once: a reset
    never creates the kernel or debug material twice.
   */
  lemma ResetCreatesMissingMaterialsOnly(s: Spray, cfg: Config, clock: Clock)
    requires Valid(s)
    ensures var r := ResetResources(s, cfg, clock);
      && (s.kernelMaterial.Some? <==> All(r.trace, (e: Event) => !IsKernelCreate(e)))
      && (s.debugMaterial.Some? <==> All(r.trace, (e: Event) => !IsDebugCreate(e)))
      && Count(r.trace, IsKernelCreate) == (if s.kernelMaterial.Some? then 0 else 1)
      && Count(r.trace, IsDebugCreate) == (if s.debugMaterial.Some? then 0 else 1)
  {
    if s.mesh.Some? {
      ResetKeepsMaterials(s, cfg, clock);
      KeptMaterialCounts(ResetResources(s, cfg, clock).trace);
    } else {
      ResetCreatesMaterials(s, cfg, clock);
      ResetCountIsCreationCount(s, cfg, clock, IsKernelCreate);
      ResetCountIsCreationCount(s, cfg, clock, IsDebugCreate);
      FreshCreationCounts(s);
    }
  }

  lemma KeptMaterialCounts(t: seq<Event>)
    requires All(t, (e: Event) => !IsKernelCreate(e))
    requires All(t, (e: Event) => !IsDebugCreate(e))
    ensures Count(t, IsKernelCreate) == 0 && Count(t, IsDebugCreate) == 0
  {
    CountNone(t, IsKernelCreate);
    CountNone(t, IsDebugCreate);
  }

  /** Only the creation phase of a reset creates buffers or materials. */
  lemma ResetCountIsCreationCount(s: Spray, cfg: Config, clock: Clock, f: Event -> bool)
    requires Valid(s)
    requires forall e :: IsReleasePhaseEvent(e) ==> !f(e)
    requires forall e :: IsWarmupEvent(e) ==> !f(e)
    ensures Count(ResetResources(s, cfg, clock).trace, f) == Count(CreationPhase(s), f)
  {
    var b := NewBuffers(s, cfg);
    var w := WarmupPhase(b, KernelHandle(s), clock);
    PhaseShapes(s, b, clock);
    CountConcat(CreationPhase(s), w, f);
    CountConcat(ReleasePhase(s), CreationPhase(s) + w, f);
    CountNone(ReleasePhase(s), f);
    CountNone(w, f);
  }

  /** Without a mesh the creation phase makes one kernel and one debug material. */
  lemma FreshCreationCounts(s: Spray)
    requires Valid(s) && s.mesh.None?
    ensures Count(CreationPhase(s), IsKernelCreate) == 1
    ensures Count(CreationPhase(s), IsDebugCreate) == 1
  {
    assert !KeepsKernel(s) && !KeepsDebug(s);
    var ck := Create(KernelHandle(s), KernelMaterial);
    var cd := Create(DebugHandle(s), DebugMaterial);
    assert MaterialEvents(s) == [ck, cd];
    assert CreationPhase(s) == BufferEvents(s) + [ck, cd];
    assert [ck, cd] == [ck] + [cd];
    CountConcat([ck], [cd], IsKernelCreate);
    CountConcat([ck], [cd], IsDebugCreate);
    CountSingle(ck, IsKernelCreate);
    CountSingle(ck, IsDebugCreate);
    CountSingle(cd, IsKernelCreate);
    CountSingle(cd, IsDebugCreate);
    CountConcat(BufferEvents(s), [ck, cd], IsKernelCreate);
    CountConcat(BufferEvents(s), [ck, cd], IsDebugCreate);
    CountNone(BufferEvents(s), IsKernelCreate);
    CountNone(BufferEvents(s), IsDebugCreate);
  }

  lemma ResetKeepsMaterials(s: Spray, cfg: Config, clock: Clock)
    requires Valid(s) && s.mesh.Some?
    ensures All(ResetResources(s, cfg, clock).trace, (e: Event) => !IsKernelCreate(e))
    ensures All(ResetResources(s, cfg, clock).trace, (e: Event) => !IsDebugCreate(e))
  {
    var f := (e: Event) => !IsKernelCreate(e);
    var g := (e: Event) => !IsDebugCreate(e);
    CreationPhaseKeptMaterials(s);
    AllWeaken(CreationPhase(s), IsBufferCreate, f);
    AllWeaken(CreationPhase(s), IsBufferCreate, g);
    ResetTraceAll(s, cfg, clock, f);
    ResetTraceAll(s, cfg, clock, g);
  }

  lemma CreationPhaseKeptMaterials(s: Spray)
    requires Valid(s) && s.mesh.Some?
    ensures All(CreationPhase(s), IsBufferCreate)
  {
    assert KeepsKernel(s) && KeepsDebug(s);
    assert CreationPhase(s) == BufferEvents(s);
  }

  lemma ResetCreatesMaterials(s: Spray, cfg: Config, clock: Clock)
    requires Valid(s) && s.mesh.None?
    ensures ResetResources(s, cfg, clock).trace[5] == Create(KernelHandle(s), KernelMaterial)
    ensures ResetResources(s, cfg, clock).trace[6] == Create(DebugHandle(s), DebugMaterial)
  {
    var r := ResetResources(s, cfg, clock);
    assert !KeepsKernel(s) && !KeepsDebug(s);
    assert ReleasePhase(s) == [Create(s.nextHandle, MeshResource)];
    var creates := CreationPhase(s);
    assert creates[4] == Create(KernelHandle(s), KernelMaterial);
    assert creates[5] == Create(DebugHandle(s), DebugMaterial);
    assert r.trace == [Create(s.nextHandle, MeshResource)] + (creates + WarmupPhase(NewBuffers(s, cfg), KernelHandle(s), clock));
  }

  /** A reset draws nothing. */
  lemma ResetHasNoDraws(s: Spray, cfg: Config, clock: Clock)
    requires Valid(s)
    ensures All(ResetResources(s, cfg, clock).trace, (e: Event) => !e.Draw?)
  {
    var f := (e: Event) => !e.Draw?;
    PhaseShapes(s, NewBuffers(s, cfg), clock);
    AllWeaken(CreationPhase(s), IsCreationEvent, f);
    ResetTraceAll(s, cfg, clock, f);
  }

  // ---------------------------------------------------------------------
  // `Update`.

  /** The first part of `Update`: the reset, when one is pending. */
  function Prepare(s: Spray, cfg: Config, clock: Clock): (r: Step)
    requires Valid(s)
    ensures Valid(r.state) && !r.state.needsReset
    ensures !s.needsReset ==> r == Step(s, [])
  {
    if s.needsReset then ResetResources(s, cfg, clock) else Step(s, [])
  }

  /** The buffers a frame draws: swapped in play mode, the same ones in edit mode. */
  function FrameBuffers(b: Buffers, playing: bool): Buffers
  {
    if playing then Swap(b) else b
  }

  /** The blits of a frame: one advance step in play mode, the whole pre-warm in edit mode. */
  function FrameBlits(b: Buffers, kernel: Handle, playing: bool): seq<Event>
  {
    if playing then StepBlits(Swap(b), kernel) else PrewarmBlits(b, kernel)
  }

  /** The per-frame events before the draws: the parameter push and the blits. */
  function FramePrefix(b: Buffers, kernel: Handle, dt: real, playing: bool): seq<Event>
  {
    [PushParams(kernel, dt)] + FrameBlits(b, kernel, playing)
  }

  /** The per-frame part of `Update`: push the parameters, run the blits, draw. */
  function FrameTrace(b: Buffers, kernel: Handle, mesh: Handle, dt: real, playing: bool): seq<Event>
  {
    FramePrefix(b, kernel, dt, playing) + DrawCalls(FrameBuffers(b, playing), mesh)
  }

  lemma FramePrefixHasNoDraws(b: Buffers, kernel: Handle, dt: real, playing: bool)
    ensures All(FramePrefix(b, kernel, dt, playing), (e: Event) => !e.Draw?)
  {
    var f := (e: Event) => !e.Draw?;
    PrewarmIsBlits(b, kernel);
    assert All(StepBlits(Swap(b), kernel), (e: Event) => e.Blit?);
    AllWeaken(FrameBlits(b, kernel, playing), (e: Event) => e.Blit?, f);
    AllConcat([PushParams(kernel, dt)], FrameBlits(b, kernel, playing), f);
  }

  /**
    `Update`: reset if flagged, push the parameters, then either swap and
    advance once (play mode) or re-run the whole pre-warm (edit mode), and
    draw one bulk mesh per buffer row.
   */
  function Update(s: Spray, cfg: Config, clock: Clock): (r: Step)
    requires Valid(s)
    ensures Valid(r.state) && !r.state.needsReset
    ensures !s.needsReset && clock.isPlaying ==> r.state == s.(buffers := Some(Swap(s.buffers.value)))
    ensures !s.needsReset && !clock.isPlaying ==> r.state == s
    ensures s.needsReset ==>
              r.state.buffers.value.position2.dims == BufferDims(cfg.maxParticles, cfg.copyCount)
  {
    var ready := Prepare(s, cfg, clock);
    var b := ready.state.buffers.value;
    var kernel := ready.state.kernelMaterial.value;
    var mesh := ready.state.mesh.value.handle;
    Step(ready.state.(buffers := Some(FrameBuffers(b, clock.isPlaying))),
         ready.trace + FrameTrace(b, kernel, mesh, DeltaTime(clock), clock.isPlaying))
  }

  /** The latest-written buffers a state stands for: generation 2, once buffers exist. */
  function LatestOf(s: Spray): Latest
  {
    if s.buffers.Some? then DrawnLatest(s.buffers.value) else Unwritten
  }

  /** What replaying the history that produced `s` leaves in the monitor. */
  function Expected(s: Spray): Monitor
  {
    Monitor(s.live, LatestOf(s))
  }

  lemma ReplayPrepare(s: Spray, cfg: Config, clock: Clock)
    requires Valid(s)
    ensures Replay(Prepare(s, cfg, clock).trace, Expected(s)) == Some(Expected(Prepare(s, cfg, clock).state))
  {
    if s.needsReset {
      ReplayResetResources(s, cfg, clock, LatestOf(s));
    }
  }

  /**
    A frame reads the latest buffers of each grid and leaves generation 2 of
    the drawn ones latest; its blits and draws use live kernel and mesh objects.
   */
  lemma ReplayFrame(b: Buffers, kernel: Handle, mesh: Handle, dt: real, playing: bool, m: Monitor)
    requires b.Handles() <= m.live && kernel in m.live && mesh in m.live && b.Distinct()
    requires m.latest == DrawnLatest(b)
    ensures Replay(FrameTrace(b, kernel, mesh, dt, playing), m)
            == Some(m.(latest := DrawnLatest(FrameBuffers(b, playing))))
  {
    var d := FrameBuffers(b, playing);
    var m' := m.(latest := DrawnLatest(d));
    assert Replay([PushParams(kernel, dt)], m) == Some(m);
    if playing {
      ReplaySwapStep(b, kernel, m);
    } else {
      ReplayPrewarm(b, kernel, m);
      assert m' == m;
    }
    ReplayDraws(DrawCalls(d, mesh), d, mesh, m');
    ReplayConcat3([PushParams(kernel, dt)], FrameBlits(b, kernel, playing), DrawCalls(d, mesh), m);
  }

  /**
    After either branch of `Update`, every blit reads the buffer its grid
    last wrote (never the one it writes), every draw binds the buffers last
    written, and the objects left live are exactly the state's.
   */
  lemma ReplayUpdate(s: Spray, cfg: Config, clock: Clock)
    requires Valid(s)
    ensures var r := Update(s, cfg, clock);
      Replay(r.trace, Expected(s)) == Some(Expected(r.state))
  {
    var ready := Prepare(s, cfg, clock);
    var b := ready.state.buffers.value;
    var kernel := ready.state.kernelMaterial.value;
    var mesh := ready.state.mesh.value.handle;
    var frame := FrameTrace(b, kernel, mesh, DeltaTime(clock), clock.isPlaying);
    ReplayPrepare(s, cfg, clock);
    ReplayFrame(b, kernel, mesh, DeltaTime(clock), clock.isPlaying, Expected(ready.state));
    ReplayConcat(ready.trace, frame, Expected(s));
  }

  /**
    The draws close every `Update`: exactly one per row of the drawn position
    buffer, in increasing row order, and no draw before them.
   */
  lemma UpdateDrawsEachRowOnce(s: Spray, cfg: Config, clock: Clock)
    requires Valid(s)
    ensures var r := Update(s, cfg, clock);
      var b := r.state.buffers.value;
      var n := RowCount(b.position2.dims.height);
      && n <= |r.trace|
      && r.trace[|r.trace| - n..] == DrawCalls(b, r.state.mesh.value.handle)
      && All(r.trace[..|r.trace| - n], (e: Event) => !e.Draw?)
  {
    var ready := Prepare(s, cfg, clock);
    var b := ready.state.buffers.value;
    var kernel := ready.state.kernelMaterial.value;
    var mesh := ready.state.mesh.value.handle;
    var d := FrameBuffers(b, clock.isPlaying);
    var prefix := FramePrefix(b, kernel, DeltaTime(clock), clock.isPlaying);
    PrepareHasNoDraws(s, cfg, clock);
    FramePrefixHasNoDraws(b, kernel, DeltaTime(clock), clock.isPlaying);
    AllConcat(ready.trace, prefix, (e: Event) => !e.Draw?);
    UpdateEndsWithDraws(s, cfg, clock);
    ClosingDraws(ready.trace + prefix, d, mesh);
  }

  lemma UpdateEndsWithDraws(s: Spray, cfg: Config, clock: Clock)
    requires Valid(s)
    ensures var ready := Prepare(s, cfg, clock);
      var b := ready.state.buffers.value;
      var kernel := ready.state.kernelMaterial.value;
      var mesh := ready.state.mesh.value.handle;
      var d := FrameBuffers(b, clock.isPlaying);
      && Update(s, cfg, clock).state.buffers == Some(d)
      && Update(s, cfg, clock).state.mesh == ready.state.mesh
      && Update(s, cfg, clock).trace
         == (ready.trace + FramePrefix(b, kernel, DeltaTime(clock), clock.isPlaying)) + DrawCalls(d, mesh)
  {
  }

  lemma ClosingDraws(before: seq<Event>, d: Buffers, mesh: Handle)
    requires All(before, (e: Event) => !e.Draw?)
    ensures var t := before + DrawCalls(d, mesh);
      var n := RowCount(d.position2.dims.height);
      && n <= |t|
      && t[|t| - n..] == DrawCalls(d, mesh)
      && All(t[..|t| - n], (e: Event) => !e.Draw?)
  {
    var t := before + DrawCalls(d, mesh);
    assert t[|before|..] == DrawCalls(d, mesh);
    assert t[..|before|] == before;
  }

  lemma PrepareHasNoDraws(s: Spray, cfg: Config, clock: Clock)
    requires Valid(s)
    ensures All(Prepare(s, cfg, clock).trace, (e: Event) => !e.Draw?)
  {
    if s.needsReset {
      ResetHasNoDraws(s, cfg, clock);
    }
  }

  /** A draw call. */
  predicate IsDraw(e: Event)
  {
    e.Draw?
  }

  /**
    Right after a rebuild the `maxParticles` property equals the capacity of
    the new buffers, and the frame issues one draw per buffer row; for a
    non-negative configured count the property is copies times draws.
   */
  lemma ResetCapacityMatchesDraws(s: Spray, cfg: Config, clock: Clock)
    requires Valid(s) && s.needsReset
    ensures var r := Update(s, cfg, clock);
      var d := r.state.buffers.value.position2.dims;
      && EffectiveMaxParticles(r.state, cfg.maxParticles) == d.width * d.height
      && Count(r.trace, IsDraw) == RowCount(d.height)
      && (0 <= cfg.maxParticles ==>
            EffectiveMaxParticles(r.state, cfg.maxParticles) == r.state.mesh.value.copyCount * Count(r.trace, IsDraw))
  {
    var r := Update(s, cfg, clock);
    var b := r.state.buffers.value;
    var n := RowCount(b.position2.dims.height);
    UpdateDrawsEachRowOnce(s, cfg, clock);
    ClosingDrawsCount(r.trace, n, DrawCalls(b, r.state.mesh.value.handle));
  }

  /** A trace whose only draws are its last `n` events has `n` draws. */
  lemma ClosingDrawsCount(t: seq<Event>, n: nat, draws: seq<Event>)
    requires n <= |t| && t[|t| - n..] == draws
    requires All(t[..|t| - n], (e: Event) => !e.Draw?)
    requires forall k :: 0 <= k < |draws| ==> draws[k].Draw?
    ensures Count(t, IsDraw) == n
  {
    assert t == t[..|t| - n] + draws;
    CountConcat(t[..|t| - n], draws, IsDraw);
    CountNone(t[..|t| - n], IsDraw);
    CountAll(draws, IsDraw);
  }

  /** 1000 particles on a bulk mesh of 8 copies: 1008 particles in 126 rows, drawn by 126 calls. */
  lemma ThousandParticlesOnEightCopies(s: Spray, clock: Clock)
    requires Valid(s) && s.needsReset
    ensures var r := Update(s, Config(1000, 8), clock);
      && EffectiveMaxParticles(r.state, 1000) == 1008
      && r.state.buffers.value.position2.dims == Dims(8, 126)
      && Count(r.trace, IsDraw) == 126
  {
    ResetCapacityMatchesDraws(s, Config(1000, 8), clock);
    assert BufferDims(1000, 8) == Dims(8, 126);
  }

  // ---------------------------------------------------------------------
  // `OnDestroy`.

  function MaterialHandles(s: Spray): seq<Handle>
  {
    (if s.kernelMaterial.Some? then [s.kernelMaterial.value] else [])
    + (if s.debugMaterial.Some? then [s.debugMaterial.value] else [])
  }

  /**
    `OnDestroy`: release the bulk mesh, then every buffer and material that is
    still alive. The fields keep their (now dead) references.
   */
  function OnDestroy(s: Spray): (r: Step)
    ensures r.state == s.(live := r.state.live)
    ensures r.state.live == s.live - Owned(s)
    ensures Valid(s) ==> r.state.live == {}
  {
    var meshEvents := if s.mesh.Some? then [Release(s.mesh.value.handle)] else [];
    var released := ReleaseLive(OldBuffers(s) + MaterialHandles(s), s.live - MeshHandles(s));
    assert Elems(OldBuffers(s) + MaterialHandles(s))
        == BufferHandles(s) + OptionSet(s.kernelMaterial) + OptionSet(s.debugMaterial);
    Step(s.(live := released.live), meshEvents + released.events)
  }

  /** Teardown releases each owned object exactly once and leaves nothing alive. */
  lemma ReplayOnDestroy(s: Spray, l: Latest)
    requires Valid(s)
    ensures Replay(OnDestroy(s).trace, Monitor(s.live, l)).Some?
    ensures Replay(OnDestroy(s).trace, Monitor(s.live, l)).value.live == {}
  {
    var meshEvents := if s.mesh.Some? then [Release(s.mesh.value.handle)] else [];
    var hs := OldBuffers(s) + MaterialHandles(s);
    var live0 := s.live - MeshHandles(s);
    var l0 := if s.mesh.Some? then l.Forget(s.mesh.value.handle) else l;
    assert Replay(meshEvents, Monitor(s.live, l)) == Some(Monitor(live0, l0));
    ReplayReleaseLive(hs, live0, l0);
    ReplayConcat(meshEvents, ReleaseLive(hs, live0).events, Monitor(s.live, l));
  }

  // ---------------------------------------------------------------------
  // Whole lifetimes.

  /** The calls a host makes: a frame, `NotifyConfigChange`, or the editor's `Reset`. */
  datatype HostCall = Tick(cfg: Config, clock: Clock) | ConfigChanged | EditorReset

  function Apply(s: Spray, call: HostCall): (r: Step)
    requires Valid(s)
    ensures Valid(r.state)
  {
    match call
    case Tick(cfg, clock) => Update(s, cfg, clock)
    case ConfigChanged => Step(MarkForReset(s), [])
    case EditorReset => Step(MarkForReset(s), [])
  }

  /** A sequence of host calls, with the concatenated trace. */
  function Run(s: Spray, calls: seq<HostCall>): (r: Step)
    requires Valid(s)
    ensures Valid(r.state)
    ensures calls != [] && calls[|calls| - 1].Tick? ==> !r.state.needsReset
    decreases |calls|
  {
    if calls == [] then Step(s, [])
    else
      var first := Apply(s, calls[0]);
      var rest := Run(first.state, calls[1..]);
      assert calls[1..] != [] ==> calls[1..][|calls[1..]| - 1] == calls[|calls| - 1];
      Step(rest.state, first.trace + rest.trace)
  }

  lemma {:induction false} ReplayRun(s: Spray, calls: seq<HostCall>)
    requires Valid(s)
    ensures Replay(Run(s, calls).trace, Expected(s)) == Some(Expected(Run(s, calls).state))
    decreases |calls|
  {
    if calls != [] {
      var first := Apply(s, calls[0]);
      if calls[0].Tick? {
        ReplayUpdate(s, calls[0].cfg, calls[0].clock);
      }
      assert Replay(first.trace, Expected(s)) == Some(Expected(first.state));
      ReplayRun(first.state, calls[1..]);
      ReplayConcat(first.trace, Run(first.state, calls[1..]).trace, Expected(s));
    }
  }

  /**
    Over any sequence of host calls from a fresh component followed by its
    destruction: no blit aliases, no blit or draw reads a stale, released or
    unwritten buffer, no object is released twice or used after release, and
    nothing is left alive.
   */
  lemma LifetimeIsHazardFreeAndLeakFree(calls: seq<HostCall>)
    ensures var run := Run(Initial(), calls);
      var all := run.trace + OnDestroy(run.state).trace;
      && Replay(all, Monitor({}, Unwritten)).Some?
      && Replay(all, Monitor({}, Unwritten)).value.live == {}
      && NoAliasing(all)
  {
    var run := Run(Initial(), calls);
    ReplayRun(Initial(), calls);
    ReplayOnDestroy(run.state, LatestOf(run.state));
    ReplayConcat(run.trace, OnDestroy(run.state).trace, Monitor({}, Unwritten));
  }
}
