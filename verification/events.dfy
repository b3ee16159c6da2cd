/**
  Vocabulary shared by the whole model of the Kvant Spray component: handles
  of engine objects, the two state grids, the four kernel passes, and the
  events one host call issues to the engine (object creation and release,
  parameter pushes, kernel blits and mesh draws).
 */
module Events {

  datatype Option<+T> = None | Some(value: T)

  /** Identity of an engine object (bulk mesh, render texture or material). */
  type Handle = nat

  /** The two double-buffered state grids. */
  datatype Grid = Position | Rotation

  /** The four passes of the kernel shader. */
  datatype Pass = InitPosition | InitRotation | AdvancePosition | AdvanceRotation
  {
    /** The pass index handed to the kernel material. */
    function Number(): (n: nat)
      ensures n < 4
      ensures n % 2 == 0 <==> Target() == Position
      ensures n < 2 <==> IsInit()
    {
      match this
      case InitPosition => 0
      case InitRotation => 1
      case AdvancePosition => 2
      case AdvanceRotation => 3
    }

    /** The grid whose buffers this pass writes. */
    function Target(): Grid
    {
      match this
      case InitPosition => Position
      case AdvancePosition => Position
      case InitRotation => Rotation
      case AdvanceRotation => Rotation
    }

    /** Init passes read no buffer; advance passes read the other generation. */
    predicate IsInit()
    {
      this == InitPosition || this == InitRotation
    }
  }

  function InitPass(g: Grid): (p: Pass)
    ensures p.Target() == g && p.IsInit()
  {
    match g
    case Position => InitPosition
    case Rotation => InitRotation
  }

  function AdvancePass(g: Grid): (p: Pass)
    ensures p.Target() == g && !p.IsInit()
  {
    match g
    case Position => AdvancePosition
    case Rotation => AdvanceRotation
  }

  /** What kind of engine object a `Create` event makes. */
  datatype ResourceKind = MeshResource | BufferResource | KernelMaterial | DebugMaterial

  datatype Event =
    | Create(handle: Handle, kind: ResourceKind)
      /** `BulkMesh.Rebuild`: the existing bulk mesh is rebuilt in place. */
    | Rebuild(handle: Handle)
      /** `DestroyImmediate` of a buffer or material, or `BulkMesh.Release`. */
    | Release(handle: Handle)
      /** `UpdateKernelShader`: the parameters are set on the kernel material; only the time step is kept. */
    | PushParams(material: Handle, deltaTime: real)
      /** `Graphics.Blit(source, dest, material, pass)`; `None` is the null source. */
    | Blit(source: Option<Handle>, dest: Handle, material: Handle, pass: Pass)
      /** `Graphics.DrawMesh` of the bulk mesh with the two bound state buffers and the buffer offset. */
    | Draw(mesh: Handle, positionBuffer: Handle, rotationBuffer: Handle, row: int, offsetU: real, offsetV: real)
}
