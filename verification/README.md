# Kvant Spray: a Dafny model of the component's CPU side

Spray is a Unity component that animates mesh particles on the GPU. Each
particle's position and rotation live in a texel of a floating-point render
texture, and a kernel shader advances them. The C# side in
`Assets/Kvant/Spray/Spray.cs` is pure orchestration, and that is what this
project models:

- how many particles exist and how large the state buffers are;
- the two ping-pong generations of position and rotation buffers, and the
  exact order of `Graphics.Blit(source, dest, material, pass)` calls during
  pre-warm and during a play-mode step;
- the `_needsReset` flag and `ResetResources`. That means building or
  rebuilding the bulk mesh, releasing and re-creating the buffers, creating
  materials only when they are absent, and the warm-up;
- the per-frame `Update`, including the draw loop. The loop issues one
  `DrawMesh` per buffer row and selects the row through the offset
  `(0.5 + i) / height`;
- teardown in `OnDestroy`.

Every host call is a pure function. It maps the component record
(`Lifecycle.Spray`) to the next record plus the trace of engine events it
issues: create, rebuild, release, parameter push, blit and draw. Engine
objects are natural-number handles drawn from a counter.

A reference semantics (`Monitor.Replay`) replays such a trace. It keeps the
set of live objects and, for each grid, the buffer written most recently.
Replay fails on any of these hazards:

- a double create;
- a use or release of a dead object: a released buffer, a kernel material
  that is not alive when a parameter push or a blit targets it, or a
  released bulk mesh in a draw;
- a blit that reads anything but its grid's latest buffer, or reads the
  buffer it writes;
- a draw that binds anything but the latest buffers.

A blit records its destination as its grid's latest buffer. If that buffer
was the other grid's latest, the other grid loses it, so a blit that wrote
into the wrong grid makes the next read of that grid fail.

The central theorem, `Lifecycle.LifetimeIsHazardFreeAndLeakFree`, covers any
sequence of frames, config changes and editor resets followed by
destruction. It proves the whole trace replays without a hazard and leaves
nothing alive.

Modules:

- `Events`: the vocabulary of handles, grids, passes and events.
- `Monitor`: the replay semantics.
- `Sizing`: particle count and buffer dimensions in C# integer arithmetic.
- `PingPong`: the buffers, the swap and the blit sequences.
- `Rows`: the draw loop.
- `Lifecycle`: the component record and the host calls.

Facts about the code that the model keeps:

- The buffer height is `maxParticles / copyCount + 1` with truncating
  division (`Spray.cs:245`). It is not the ceiling of the quotient, so an
  exact multiple still gets an extra row.
- Within one `Update` the reset comes first and the parameter push second
  (`Spray.cs:342-344`).
- Pre-warm does not swap buffers. Each iteration advances generation 2 into
  generation 1 and back (`Spray.cs:312-317`).
- Pre-warm does not always run at the fixed step of one tenth of a second.
  A reset pushes the parameters before it pre-warms (`Spray.cs:299-300`),
  and the pushed step is the `deltaTime` property (`Spray.cs:272`). In play
  mode past the first frame that property is the measured `Time.deltaTime`
  (`Spray.cs:222`). So a reset requested during play pre-warms at the
  measured frame time.
- A reset has no failure path and no rollback. Allocation failure is not
  handled in the code, and it is not modelled.

## Model

| member | source | states |
|---|---|---|
| Sizing.TruncDiv | Assets/Kvant/Spray/Spray.cs:91 | C# `/` on `int` with a positive divisor truncates toward zero: the remainder has the sign of the dividend and is smaller than the divisor in magnitude |
| Sizing.MaxParticles | Assets/Kvant/Spray/Spray.cs:87-92 | The particle count is 0 without a bulk mesh. Otherwise it is a multiple of the copy count. For a non-negative configured count it lies strictly above that count, at most one copy count above it, and is at least one copy count |
| Sizing.MaxParticlesIsLeastMultipleAbove | Assets/Kvant/Spray/Spray.cs:87-92 | For a non-negative configured count, the particle count is exactly the least multiple of the copy count strictly above it (an independent reference definition) |
| Sizing.BufferDims | Assets/Kvant/Spray/Spray.cs:242-251 | A buffer has one column per copy. Width times height equals the `maxParticles` value. The height is the least number of full rows that exceeds the configured count |
| Sizing.MaxParticlesInt32 | Assets/Kvant/Spray/Spray.cs:91 | The getter in 32-bit `int` arithmetic is always congruent to `MaxParticles` modulo 2^32, and equal to it whenever the exact result fits in an `int` |
| Sizing.MaxParticlesInt32Overflows | Assets/Kvant/Spray/Spray.cs:91 | With `maxParticles = int.MaxValue` and 8 copies, the exact count is 2^31, but the getter returns `int.MinValue` |
| Sizing.BufferHeightInt32 | Assets/Kvant/Spray/Spray.cs:245 | The height in 32-bit arithmetic is always congruent to the `BufferDims` height modulo 2^32, and equal to it whenever the exact height fits in an `int` |
| Sizing.BufferHeightInt32Overflows | Assets/Kvant/Spray/Spray.cs:245 | With one copy per mesh and `int.MaxValue` particles, the 32-bit height wraps to `int.MinValue` |
| PingPong.Swap | Assets/Kvant/Spray/Spray.cs:348-355 | The swap exchanges generations 1 and 2 in both grids. It keeps the set of buffers, their distinctness and their common size |
| PingPong.SwapIsInvolution | Assets/Kvant/Spray/Spray.cs:348-355 | Swapping twice restores the buffers. A swap is the identity exactly when both generations of each grid are the same buffer |
| PingPong.Prewarm | Assets/Kvant/Spray/Spray.cs:305-318 | The loop issues two init blits, then eight rounds of four advance blits |
| PingPong.PrewarmWrites | Assets/Kvant/Spray/Spray.cs:305-318 | Per grid, exactly one init pass writes generation 2. Then 16 advance passes alternate between generation 1 and generation 2, and the last one writes generation 2 |
| PingPong.PrewarmWritesOwnGrid | Assets/Kvant/Spray/Spray.cs:308-316 | Passes 0 and 2 read and write only position buffers; passes 1 and 3 only rotation buffers. This holds in pre-warm and in the play step |
| PingPong.ReplayPrewarm | Assets/Kvant/Spray/Spray.cs:305-318 | Whatever was written before, every pre-warm blit uses the live kernel material, reads its grid's latest buffer and never its own destination. Generation 2 of each grid ends up latest |
| PingPong.ReplaySwapStep | Assets/Kvant/Spray/Spray.cs:348-359 | After a swap, the two advance blits use the live kernel material, read the buffers the previous frame drew, never alias, and leave the new generation 2 latest |
| Rows.RowSelectorAddressesRow | Assets/Kvant/Spray/Spray.cs:380 | The offset `(0.5 + i) / height` of row `i` lies strictly inside (0, 1), and point sampling at it reads row `i` |
| Rows.RowSelectorIncreasing | Assets/Kvant/Spray/Spray.cs:380 | Row offsets strictly increase with the row index |
| Rows.DrawCalls | Assets/Kvant/Spray/Spray.cs:369-383 | There is exactly one draw per row of the position buffer, in increasing row order. Each binds generation 2 of both grids and selects its own row with a strictly increasing offset |
| Rows.DrawRows | Assets/Kvant/Spray/Spray.cs:378-383 | The `for` loop issues exactly the draws of `DrawCalls` |
| Rows.ReplayDraws | Assets/Kvant/Spray/Spray.cs:372-383 | The draws use the live bulk mesh, bind only live, latest-written buffers and change nothing a later replay sees |
| Lifecycle.DeltaTime | Assets/Kvant/Spray/Spray.cs:220-224 | The step is the measured frame time only in play mode past the first frame; otherwise it is one tenth of a second |
| Lifecycle.DeltaTimeIgnoresFrameTimeOutsidePlay | Assets/Kvant/Spray/Spray.cs:220-224 | Outside live play, any two clocks give the same fixed step |
| Lifecycle.Initial | Assets/Kvant/Spray/Spray.cs:202-214 | A fresh component owns nothing and has a reset pending |
| Lifecycle.InitialIsValid | Assets/Kvant/Spray/Spray.cs:202-214 | The fresh component satisfies the lifecycle invariant |
| Lifecycle.EffectiveMaxParticles | Assets/Kvant/Spray/Spray.cs:87-92 | The component's `maxParticles` is 0 before the bulk mesh exists. Afterwards it is the configured count rounded up past the next multiple of the copy count |
| Lifecycle.MarkForReset | Assets/Kvant/Spray/Spray.cs:230-233 | `NotifyConfigChange`, and the editor's `Reset` at lines 324-327, set the reset flag, change nothing else and keep the invariant |
| Lifecycle.ResetResources | Assets/Kvant/Spray/Spray.cs:275-303 | Afterwards the invariant holds and the flag is clear. There are four new buffers sized by `CreateBuffer`. The bulk mesh and existing materials are kept. No old buffer stays alive |
| Lifecycle.ReplayResetResources | Assets/Kvant/Spray/Spray.cs:275-318 | From any history, every release hits a live buffer and every creation a fresh handle. Pre-warm leaves the new generation 2 latest. The live set matches the state |
| Lifecycle.ResetReleasesBeforeAllocating | Assets/Kvant/Spray/Spray.cs:283-292 | Every release of a reset precedes every buffer creation. Exactly four new, distinct buffers are live afterwards and no old one |
| Lifecycle.ResetCreatesMissingMaterialsOnly | Assets/Kvant/Spray/Spray.cs:294-296 | A reset creates the kernel or debug material if and only if it was absent, and then exactly once |
| Lifecycle.KernelPushNeedsCreation | Assets/Kvant/Spray/Spray.cs:294-299 | While the kernel material has not been created, pushing the parameters to it is a hazard, so the reset must create the materials before `UpdateKernelShader` |
| Lifecycle.Update | Assets/Kvant/Spray/Spray.cs:340-384 | `Update` keeps the invariant and always clears the flag. Without a pending reset, play mode only swaps the buffers and edit mode changes nothing. After a reset the buffers have the configured size |
| Lifecycle.ReplayUpdate | Assets/Kvant/Spray/Spray.cs:340-384 | In either branch, every blit reads its grid's latest buffer, never the one it writes. The draws bind the buffers last written, and the live set matches the next state |
| Lifecycle.ReplayFrame | Assets/Kvant/Spray/Spray.cs:344-383 | The frame part of `Update` (the parameter push to the live kernel material, swap-and-step or pre-warm, draws) is hazard-free and leaves the drawn generation 2 latest |
| Lifecycle.UpdateDrawsEachRowOnce | Assets/Kvant/Spray/Spray.cs:366-383 | Every `Update` ends with exactly one draw of the component's bulk mesh per row of the drawn position buffer, and no event before them is a draw |
| Lifecycle.ResetCapacityMatchesDraws | Assets/Kvant/Spray/Spray.cs:87-92 | Right after a rebuild, the `maxParticles` property equals the width times the height of the new buffers (lines 242-251), and the frame issues one draw per row (lines 378-383). For a non-negative configured count, the property is the copy count times the number of draws |
| Lifecycle.ThousandParticlesOnEightCopies | Assets/Kvant/Spray/Spray.cs:242-251 | 1000 configured particles on 8 copies give 1008 particles in 8 × 126 buffers, drawn by 126 calls |
| Lifecycle.OnDestroy | Assets/Kvant/Spray/Spray.cs:329-338 | Teardown releases every owned object that is still alive and nothing else, and leaves the fields unchanged. From a valid state nothing stays alive |
| Lifecycle.ReplayOnDestroy | Assets/Kvant/Spray/Spray.cs:329-338 | Teardown releases each owned object exactly once and leaves nothing alive |
| Lifecycle.Run | Assets/Kvant/Spray/Spray.cs:340-342 | Any sequence of frames, config changes and editor resets keeps the invariant. A sequence that ends with a frame leaves no reset pending |
| Lifecycle.ReplayRun | Assets/Kvant/Spray/Spray.cs:340-384 | The concatenated trace of any call sequence replays without a hazard to the final state's live set and latest buffers |
| Lifecycle.LifetimeIsHazardFreeAndLeakFree | Assets/Kvant/Spray/Spray.cs:329-384 | Any lifetime from a fresh component, ended by `OnDestroy`, has no aliasing blit, no stale, released or unwritten read, no double release and no leak |

## Left out

- Shader programs, `Graphics.DrawMesh` arguments (transform, material, shadows), the `MaterialPropertyBlock` contents other than the two buffers and the row offset, and texture formats: none of them affects the orchestration. Draw events keep only the mesh, the buffers, the row and the offsets.
- `UpdateKernelShader`: the packing of the emitter, life, speed, spin and noise parameters into shader vectors is left out. It is one parameter-push event that names the kernel material it writes to and carries the chosen `deltaTime`. `Time.time` is left out.
- BulkMesh internals: what the bulk mesh builds from the configured shapes is not modelled. Its `copyCount` is a model input. `Rebuild` is one event, and the mesh a draw uses is the bulk mesh's handle.
- `DrawMesh` is taken to use the property block's values as they are at the call, so each draw carries the row offset set just before it. The block's accumulation of `AddVector` entries is not modelled.
- Sizing.CopyCount: a `copyCount` of at least 1 is assumed, not derived. BulkMesh is not part of this model. With 0 copies, the `maxParticles` getter and `CreateBuffer` would throw a `DivideByZeroException`, and that path is not modelled.
- `OnGUI`, `OnDrawGizmosSelected`, and the property getters and setters other than `maxParticles`: debug and editor display only.
- Rows.RowSelector: the offset is an exact real, so the single-precision rounding of `(0.5f + i) / height` is not modelled.
- Lifecycle.Spray: the four buffer fields are one optional record, because every code path assigns all four together. The bulk mesh, buffers and materials exist together or not at all, which is the only shape the call sequences produce.
- Lifecycle.ResetResources: Unity's refusal of a render texture with a non-positive height (a negative configured count) is not modelled. The model creates the buffers regardless.
- Lifecycle.DeltaTime: `Application.isPlaying`, `Time.frameCount` and `Time.deltaTime` are a `Clock` parameter, and `Time.deltaTime` is a real rather than a float.
- Lifecycle.Update: the model uses the exact `MaxParticles`/`BufferDims` arithmetic, i.e. the corrected behaviour from the finding below, rather than the 32-bit wrap-around.
- Lifecycle.ResetResources: the material for the particles (`_material`) and the shaders are serialized references owned by the editor, not by the component. They are not handles here.

## Findings

| source | as written | input that shows it | evidently intended | confidence | as-written member | corrected member |
|---|---|---|---|---|---|---|
| Assets/Kvant/Spray/Spray.cs:91 | `(_maxParticles / copyCount + 1) * copyCount` in 32-bit `int` | `_maxParticles = 2147483647`, `copyCount = 8`: the exact count is 2147483648, and the getter wraps to -2147483648 | the least multiple of the copy count above the configured count | not executed | Sizing.MaxParticlesInt32 | Sizing.MaxParticles |
| Assets/Kvant/Spray/Spray.cs:245 | `_maxParticles / width + 1` in 32-bit `int` | `_maxParticles = 2147483647`, `width = 1`: the height wraps to -2147483648 | a positive height holding every configured particle | not executed | Sizing.BufferHeightInt32 | Sizing.BufferDims |
