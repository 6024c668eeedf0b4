# Direct3D 11 samples: vertex welding and frame resources

This project models the two pieces of logic in the two Direct3D 11 samples
(`Dx11HelloWorld` and `Dx11MeshViewer`) that do more than API plumbing:

- **Mesh loading** (`mesh_loader.dfy`, module `MeshLoader`). `LoadMesh` takes the
  output of the OBJ parser: the position and normal pools and the corner list of
  the first shape. It welds corners whose (position, normal) pair is bitwise
  equal. It appends six floats per new vertex to the vertex buffer and one index
  per corner to the index buffer, then computes the axis-aligned bounds of the
  vertex positions. Floats are 32-bit patterns (`bv32`), so equality is bitwise,
  as `std::equal_to<Vertex>` (a `memcmp`) makes it. The bounds use an ordered
  reading `value: Float -> real` that the caller supplies. The weld is proved
  against a reference definition: `Unique` (the distinct keys in first-encounter
  order) and `IndexOf` (a key's position in that order).
- **Frame resources** (`mesh_viewer.dfy`, module `MeshViewer`; `hello_world.dfy`,
  module `HelloWorld`). Each sample's `D3DApp` is a class whose fields are
  `m_width`, `m_height`, `m_frameIndex`, the `ComPtr` targets and the buffers.
  The targets are `Option` values that carry their size. The device, context
  and swap chain (`direct3d.dfy`, module `Direct3D`) form one `Device` object
  with a ghost log of every call made. A call that goes through `ThrowIfFailed`
  takes its HRESULT from a script fixed when the device is made. A method
  returns `ok == false` where the source would throw. Its postcondition says
  which prefix of its calls ran (`Ran`). The `MeshViewer` methods cover
  `ResizeResources`, the buffer sizes in `InitResources`, the constant-buffer
  choice in `Draw`, the frame counter in `Present` and the `lParam` decoding in
  `HandleInput`. The HelloWorld class is the same state machine with no depth
  target and no frame counter advance.
- `win32.dfy` (module `Win32`) holds the shared HRESULT, `UINT` and `lParam`
  word decoding.

Four behaviours of the code that a reader may not expect:

- The file-name check is a substring test (`strstr(filename, ".obj")`), not an
  extension test.
- `ResizeResources` releases both targets on every call, not only when the size
  changes.
- There is no zero-size guard. `Resize(0, 0)` stores 0×0, calls
  `ResizeBuffers(2, 0, 0)` when the stored size differs and asks for a 0×0
  depth texture, like any other size.
- `Present` advances the frame counter only after a successful present
  (`ThrowIfFailed` comes first). The HelloWorld `Present` never advances it.

## Model

| member | source | states |
|---|---|---|
| MeshLoader.FindFrom | Dx11MeshViewer/MeshLoader.cpp:67 | `strstr` finds the first position at or after `from` where `.obj` occurs; `None` means it occurs nowhere |
| MeshLoader.ObjExtensionIsSubstring | Dx11MeshViewer/MeshLoader.cpp:67-71 | the name check is a case-sensitive substring test: `teapot.obj.bak` passes, `teapot.OBJ` and `obj` fail |
| MeshLoader.LoadMesh | Dx11MeshViewer/MeshLoader.cpp:65-178 | fails iff the name has no `.obj`, the parser fails or the normal pool is empty, and then leaves `outMesh` untouched; on success it appends exactly the welded vertices of the first shape's corners and 3 indices per whole triangle (`size()/3`), and the bounds are those of the whole vertex buffer |
| MeshLoader.WeldShape | Dx11MeshViewer/MeshLoader.cpp:99-158 | the face loop appends `Flatten(Unique(corners))` to the vertex buffer and each corner's first-encounter number to the index buffer; its invariant keeps `uniqueVertexMap` equal to the numbering of the corners seen so far |
| MeshLoader.WeldFace | Dx11MeshViewer/MeshLoader.cpp:101-157 | one face: its three corners extend the map, vertex buffer and index buffer as the reference definition does for three more corners |
| MeshLoader.WeldCorner | Dx11MeshViewer/MeshLoader.cpp:131-156 | one corner: a miss appends six floats and numbers the key by the map size; a hit reuses the stored number; either way one index is appended |
| MeshLoader.FindBounds | Dx11MeshViewer/MeshLoader.cpp:161-175 | the bounds loop, stepping 6 floats at a time from `FLT_MAX`/`-FLT_MAX`, yields the component-wise min/max fold over every vertex position |
| MeshLoader.Unique | Dx11MeshViewer/MeshLoader.cpp:136-153 | the welded vertices hold exactly the keys of the corners, and there are never more of them than corners |
| MeshLoader.IndexOf | Dx11MeshViewer/MeshLoader.cpp:150-156 | a key's number is the position of its first occurrence among the welded vertices |
| MeshLoader.Flatten | Dx11MeshViewer/MeshLoader.cpp:141-147 | each vertex contributes six floats to the vertex buffer |
| MeshLoader.Lower | Dx11MeshViewer/MeshLoader.cpp:162-171 | `boundsMin` is at most every position component and at most `FLT_MAX`, and equals `FLT_MAX` or one of the components |
| MeshLoader.Upper | Dx11MeshViewer/MeshLoader.cpp:163-170 | `boundsMax` is at least every position component and at least `-FLT_MAX`, and equals `-FLT_MAX` or one of the components |
| MeshLoader.LoadedIntoEmpty | Dx11MeshViewer/D3DApp.cpp:167-168 | loading into a fresh `Mesh` gives exactly the welded vertex buffer, the welded index buffer and their bounds |
| MeshLoader.NumberingTracks | Dx11MeshViewer/MeshLoader.cpp:136-156 | after any corners, `uniqueVertexMap` holds exactly the keys seen, each mapped to its first-encounter position, and its size equals the number of distinct keys (so 6 × size floats were appended) |
| MeshLoader.UniqueIsDistinct | Dx11MeshViewer/MeshLoader.cpp:136-150 | no two welded vertices are equal |
| MeshLoader.NoWeldIffDistinct | Dx11MeshViewer/MeshLoader.cpp:136-153 | the vertex count equals the corner count iff no two corners share a bitwise-equal key |
| MeshLoader.FirstEncounterNumbering | Dx11MeshViewer/MeshLoader.cpp:149-156 | a corner whose key is new gets the number of distinct keys before it (0, 1, 2, … in corner order) |
| MeshLoader.IndexStable | Dx11MeshViewer/MeshLoader.cpp:136-156 | a key keeps its number however many corners follow |
| MeshLoader.SameIndexIffSameKey | Dx11MeshViewer/MeshLoader.cpp:58-61 | two corners get the same index iff their keys are bitwise equal |
| MeshLoader.IndicesDereference | Dx11MeshViewer/MeshLoader.cpp:101-156 | one index per corner in corner order; every index is below the vertex count, and the six floats it names are that corner's position and normal |
| MeshLoader.WeldedVerticesDistinct | Dx11MeshViewer/MeshLoader.cpp:138-150 | the six-float groups of the vertex buffer are pairwise different |
| MeshLoader.FloatsInjective | Dx11MeshViewer/MeshLoader.cpp:141-147 | different keys push different six-float groups |
| MeshLoader.WeldedPositions | Dx11MeshViewer/MeshLoader.cpp:165-168 | the positions read by the bounds loop are the welded vertices' positions, and every corner's position is among them |
| MeshLoader.WeldedBoundsContain | Dx11MeshViewer/MeshLoader.cpp:162-175 | `boundsMin ≤ position ≤ boundsMax` component-wise for every corner; with no corners the bounds stay at `FLT_MAX` and `-FLT_MAX` |
| MeshLoader.WeldedBoundsAttained | Dx11MeshViewer/MeshLoader.cpp:162-175 | each bound is some corner's coordinate unless there are no corners, so the bounds are the true extremes |
| MeshLoader.WeldingComparesBits | Dx11MeshViewer/MeshLoader.cpp:58-61 | +0.0 and -0.0 give two vertices; two corners with the same NaN bit pattern share one vertex and one index |
| MeshViewer.AlignTo256 | Dx11MeshViewer/D3DApp.cpp:204 | `(s + 255) & ~255` is a multiple of 256 |
| MeshViewer.AlignTo256Rounds | Dx11MeshViewer/D3DApp.cpp:204 | without size_t wrap-around the rounded size is at least `s` and below `s + 256` |
| MeshViewer.ConstantBufferSize | Dx11MeshViewer/D3DApp.cpp:33-49 | `sizeof(AppShaderConstants)` (192) rounds to 256, the width of the constant and staging buffers |
| MeshViewer.ByteWidth | Dx11MeshViewer/D3DApp.cpp:179 | a buffer of 4-byte elements has byte width 4 × count while that fits in a `UINT` |
| MeshViewer.BufferIndex | Dx11MeshViewer/D3DApp.cpp:358 | `m_frameIndex & 1` selects buffer 0 or 1 |
| MeshViewer.BufferAlternates | Dx11MeshViewer/D3DApp.cpp:410-411 | consecutive frames use different constant buffers, including across the wrap from 0xFFFFFFFF to 0 |
| MeshViewer.BufferAfterPresents | Dx11MeshViewer/D3DApp.cpp:408-412 | after N presents from 0 the next copy targets buffer N mod 2 |
| MeshViewer.ConstantBufferLoopSplit | Dx11MeshViewer/D3DApp.cpp:208-211 | the calls of the constant-buffer loop split at any iteration |
| MeshViewer.ResizeReleasesThenRecreates | Dx11MeshViewer/D3DApp.cpp:116-160 | every resize first releases the RTV, back buffer, DSV and depth buffer, and ends by recreating the back buffer, its view, a depth buffer of the requested size and its view |
| MeshViewer.ResizeBuffersIffChanged | Dx11MeshViewer/D3DApp.cpp:124-130 | the swap chain is resized iff the size changed, and then to the requested size |
| MeshViewer.TwoConstantBuffers | Dx11MeshViewer/D3DApp.cpp:203-218 | exactly two constant buffers (slots 0 and 1) are created, and the staging buffer has their size |
| MeshViewer.DrawUsesOneConstantBuffer | Dx11MeshViewer/D3DApp.cpp:354-406 | Draw first copies staging into buffer `m_frameIndex & 1`, binds that buffer and no other to both shader stages, and ends with `DrawIndexed`; none of its calls returns an HRESULT |
| MeshViewer.ClampPhi | Dx11MeshViewer/D3DApp.cpp:291 | the camera's polar angle is clamped to [5, 175] and left alone inside it |
| MeshViewer.Focus | Dx11MeshViewer/D3DApp.cpp:172-175 | the camera focus lies between the scaled bounds on each axis |
| MeshViewer.CursorPosition | Dx11MeshViewer/D3DApp.cpp:426-427 | the cursor x/y are bits 0-15 and 16-31 of `lParam`, both in [0, 65536) |
| MeshViewer.D3DApp.constructor | Dx11MeshViewer/D3DApp.h:18-39 | the initial state: 0×0, frame 0, phi 60, no targets or buffers |
| MeshViewer.D3DApp.Init | Dx11MeshViewer/D3DApp.cpp:52-64 | resizes to the client size, then creates the resources: when the mesh is accepted the device log is one run of the resize calls followed by the InitResources calls, stopping at the first failure, and a rejected mesh fails after the resize calls alone; on success both targets, all three constant/staging buffers and the mesh buffers with the welded byte widths exist, the index count is the welded index count and the camera focus is the centre of the welded bounds; the frame counter, the running flag and the object/camera angles and cursor are unchanged |
| MeshViewer.D3DApp.ResizeResources | Dx11MeshViewer/D3DApp.cpp:116-160 | stores the requested size; runs the resize calls with ResizeBuffers only if the size changed; on success the depth buffer and DSV have the stored size and the back buffer has the swap chain's size; the other fields are unchanged |
| MeshViewer.D3DApp.RecreateTargets | Dx11MeshViewer/D3DApp.cpp:124-159 | the swap chain resize (if changed) and the creation of both targets |
| MeshViewer.D3DApp.ReleaseTargets | Dx11MeshViewer/D3DApp.cpp:118-122 | all four targets are reset, in source order |
| MeshViewer.D3DApp.ResizeSwapChain | Dx11MeshViewer/D3DApp.cpp:124-130 | the stored size becomes the requested one, and the swap chain is resized to it iff it differed |
| MeshViewer.D3DApp.AcquireTargets | Dx11MeshViewer/D3DApp.cpp:132-159 | the back buffer and its view, then a depth buffer of the given size and its view |
| MeshViewer.D3DApp.AcquireBackBuffer | Dx11MeshViewer/D3DApp.cpp:133-144 | the back buffer has the swap chain's size and its view is made of it |
| MeshViewer.D3DApp.CreateDepthTarget | Dx11MeshViewer/D3DApp.cpp:146-159 | the depth texture is `width` × `height` and its view is made of it |
| MeshViewer.D3DApp.InitResources | Dx11MeshViewer/D3DApp.cpp:162-274 | a failed LoadMesh throws before any device call; otherwise the index count is the welded index-buffer length, the focus is the scaled centre of the welded bounds, and the buffers get byte widths 4 × element count |
| MeshViewer.D3DApp.UseMesh | Dx11MeshViewer/D3DApp.cpp:170-175 | the index count and camera focus are taken from the loaded mesh |
| MeshViewer.D3DApp.CreateResources | Dx11MeshViewer/D3DApp.cpp:178-273 | the mesh buffers, then the constant and staging buffers, then the pipeline objects, stopping at the first failure |
| MeshViewer.D3DApp.CreateMeshBuffers | Dx11MeshViewer/D3DApp.cpp:178-197 | the vertex buffer, then the index buffer, with the given byte widths |
| MeshViewer.D3DApp.CreateConstantBuffers | Dx11MeshViewer/D3DApp.cpp:203-218 | the loop creates `m_constantBuffer[0]` and `[1]`, then the staging buffer, all 256 bytes |
| MeshViewer.D3DApp.Update | Dx11MeshViewer/D3DApp.cpp:276-352 | rotation advances by speed × dt; theta and phi move by the cursor delta × rate × dt; phi is clamped to [5, 175]; `m_prevPos` becomes `m_currPos`; then Map/Unmap of the staging buffer |
| MeshViewer.D3DApp.UploadConstants | Dx11MeshViewer/D3DApp.cpp:346-351 | Map then Unmap of the staging buffer; Unmap is not reached if Map fails |
| MeshViewer.D3DApp.Draw | Dx11MeshViewer/D3DApp.cpp:354-406 | the frame's calls with constant buffer `m_frameIndex & 1` and the stored viewport size and index count; none of them consumes a scripted HRESULT |
| MeshViewer.D3DApp.Present | Dx11MeshViewer/D3DApp.cpp:408-412 | presents with sync interval 1; the frame counter advances by one (mod 2^32) iff the present succeeded, and no other field changes |
| MeshViewer.D3DApp.HandleInput | Dx11MeshViewer/D3DApp.cpp:414-450 | WM_DESTROY stops the app; WM_MOUSEMOVE sets the cursor from the two `lParam` words and, unless exactly MK_LBUTTON is held, sets `m_prevPos` to it; WM_SIZE resizes to the two `lParam` words; messages other than WM_SIZE consume no scripted HRESULT and other messages change nothing; no message changes the buffers, the frame counter, the rotation, the camera angles or the focus |
| HelloWorld.ResizeReleasesThenReacquires | Dx11HelloWorld/D3DApp.cpp:87-114 | every resize releases the view and back buffer first, and reacquires the back buffer and then its view last |
| HelloWorld.ResizeBuffersIffChanged | Dx11HelloWorld/D3DApp.cpp:92-99 | the swap chain is resized iff the size changed, and then to the requested size |
| HelloWorld.D3DApp.constructor | Dx11HelloWorld/D3DApp.h:12-17 | the initial state: running, 0×0, frame 0, no targets |
| HelloWorld.D3DApp.ResizeResources | Dx11HelloWorld/D3DApp.cpp:87-114 | stores the requested size; runs ResizeBuffers only if it changed; on success the back buffer has the swap chain's size and the view is made of it; the frame counter is unchanged |
| HelloWorld.D3DApp.ResizeSwapChain | Dx11HelloWorld/D3DApp.cpp:92-99 | the stored size becomes the requested one, and the swap chain is resized to it iff it differed |
| HelloWorld.D3DApp.AcquireBackBuffer | Dx11HelloWorld/D3DApp.cpp:101-113 | GetBuffer, then the render target view |
| HelloWorld.D3DApp.Present | Dx11HelloWorld/D3DApp.cpp:246-249 | presents with sync interval 1 and never changes the frame counter |
| HelloWorld.D3DApp.HandleInput | Dx11HelloWorld/D3DApp.cpp:252-275 | WM_DESTROY stops the app; WM_SIZE resizes to width = bits 0-15 and height = bits 16-31 of `lParam`; every message other than WM_SIZE leaves the size, the back buffer, its view, the swap chain and the device's script position unchanged, and unhandled messages change nothing |
| Direct3D.Device.Issue | Dx11HelloWorld/pch.h:35-41 | a call through `ThrowIfFailed` either succeeds or ends the operation; a successful ResizeBuffers sets the swap chain's size |
| Direct3D.Device.Run | Dx11HelloWorld/pch.h:35-41 | a run of calls stops at the first failed HRESULT, and a run with no fallible call always completes and consumes no scripted HRESULT |
| Direct3D.RanThen | Dx11HelloWorld/pch.h:35-41 | two runs that each complete, or where the second fails, make one run of the joined calls |
| Win32.LowWord | Dx11MeshViewer/D3DApp.cpp:439 | `(lParam & 0xffff) >> 0` is below 65536 |
| Win32.HighWord | Dx11MeshViewer/D3DApp.cpp:440 | `(lParam & 0xffff0000) >> 16` is below 65536 |
| Win32.WordsRoundTrip | Dx11MeshViewer/D3DApp.cpp:439-440 | decoding recovers both words packed into an `lParam` |
| Win32.WordsDetermineLowHalf | Dx11MeshViewer/D3DApp.cpp:439-440 | decoding reads only bits 0-31 of `lParam`, and those bits are exactly the two words |
| Win32.ToUInt32 | Dx11MeshViewer/D3DApp.cpp:170 | `static_cast<UINT>` keeps a value that fits in 32 bits |

## Left out

- MeshLoader.LoadMesh: requires that `shapes[0]` exists and that every corner index lies inside its pool (`Readable`). The source does not check these and reads out of bounds otherwise (undefined behaviour). It also requires that `outMesh.vertexBuffer` holds whole six-float vertices; the bounds loop of MeshLoader.cpp:160-175 also runs on a buffer of another size, but the only caller passes an empty mesh. The file name is a Dafny string searched in full, whereas `strstr` stops at the first NUL character of the C string.
- MeshLoader.FindBounds: the bounds use an ordered reading `value` of each float (a `real`), so the `XMVectorMin`/`XMVectorMax` treatment of NaN and the rounding of `FLT_MAX` are not modelled. The loop counter is a signed `int` (MeshLoader.cpp:165), and its overflow once the buffer holds more than INT_MAX floats (undefined behaviour) is not modelled; the model's counter is unbounded.
- The OBJ parser `tinyobj::LoadObj` is not part of this model. Its result is an input (`Option<ObjData>`, with `None` for a parse failure), and the `OutputDebugStringA` diagnostics are dropped.
- The quality of `hash_combine` and `std::hash<Vertex>` is not modelled. The map is a Dafny `map`, so only lookup by bitwise equality matters.
- `InitDevice`, adapter, device and swap-chain creation, and `Shutdown` are left out: API bring-up with no logic. The device is an input whose starting buffer size is a parameter.
- The DXGI rule that `ResizeBuffers` with width or height 0 uses the window's client size is not modelled. The swap chain takes the requested size.
- The shader blobs, input layout and fixed-function states are abstract fallible calls (`PipelineOps`). Their descriptions are not modelled.
- The matrix, trigonometry and aspect-ratio math of `Update` (Dx11MeshViewer/D3DApp.cpp:297-338) is floating point and is left out. Angles and positions are `real`, so single-precision rounding is not modelled, nor are the bytes copied by `memcpy` into the staging buffer.
- The HelloWorld `InitDevice`, `InitResources` and `Draw` are plumbing with no state logic and are not part of this model.
- GPU-side hazard freedom of the double buffering is not modelled. The code has no fence, so only the alternation of the buffer index is proved.
- The window class, message pump and delta-time loop of both `main.cpp` files are left out: Win32 I/O.
- MeshViewer.D3DApp.HandleInput, HelloWorld.D3DApp.HandleInput: the WM_QUIT that `PostQuitMessage(0)` posts on WM_DESTROY (Dx11MeshViewer/D3DApp.cpp:419, Dx11HelloWorld/D3DApp.cpp:257) is not modelled, because the message queue belongs to the left-out message pump; clearing `isRunning` stands for it.
- MeshViewer.D3DApp.HandleInput, HelloWorld.D3DApp.HandleInput: `DefWindowProc` (Dx11MeshViewer/D3DApp.cpp:448, Dx11HelloWorld/D3DApp.cpp:273) is modelled as having no effect. A WM_DESTROY or WM_SIZE that it sends back to the window (on WM_CLOSE or WM_WINDOWPOSCHANGED, say) is a separate HandleInput call, so "unhandled messages change nothing" speaks of the call itself only.
- The `Reset` entries of a resize are logged for every target, including a null one, on which `ComPtr::Reset` does nothing; the log records the calls the code makes, not which objects were actually released.
