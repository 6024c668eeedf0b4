// Dx11MeshViewer/D3DApp.cpp: the frame-resource state machine of the mesh
// viewer. ResizeResources recreates the colour and depth targets, Init and
// InitResources create the mesh, constant and staging buffers, Draw copies the
// staging buffer into one of two constant buffers chosen by the frame counter,
// and Present advances that counter.

module MeshViewer {
  import opened Win32
  import opened Direct3D
  import MeshLoader

  // ---------------------------------------------------------------------
  // Buffer sizing.

  /** sizeof(AppShaderConstants): two 4x4 float matrices (128 bytes), then the
      colour and shininess, the light position, the light colour and the
      camera position, 16 bytes each. */
  const SHADER_CONSTANTS_SIZE: bv64 := 192

  /** `(s + 255) & ~255` on size_t: round up to the next multiple of 256. */
  function AlignTo256(s: bv64): (aligned: bv64)
    ensures aligned & 0xFF == 0
  {
    (s + 255) & !0xFF
  }

  /** Without wrap-around, the rounded size is the least multiple of 256 that is at least `s`. */
  lemma AlignTo256Rounds(s: bv64)
    requires s <= 0xFFFF_FFFF_FFFF_FF00
    ensures AlignTo256(s) & 0xFF == 0
    ensures s <= AlignTo256(s) && AlignTo256(s) - s < 256
  {
  }

  /** cbDesc.ByteWidth, the UINT size of both constant buffers and of the
      staging buffer; ConstantBufferSize shows it is the rounded size of the
      shader constants. */
  const CONSTANT_BUFFER_SIZE: uint32 := 256

  lemma ConstantBufferSize()
    ensures AlignTo256(SHADER_CONSTANTS_SIZE) == 256
    ensures CONSTANT_BUFFER_SIZE as int == 256
    ensures SHADER_CONSTANTS_SIZE <= AlignTo256(SHADER_CONSTANTS_SIZE) < SHADER_CONSTANTS_SIZE + 256
  {
  }

  /** ByteWidth of a buffer of `count` 4-byte elements (float or uint32_t),
      computed on size_t and stored in a UINT. */
  function ByteWidth(count: nat): (w: uint32)
    ensures count < 0x4000_0000 ==> w as int == 4 * count
  {
    ToUInt32(4 * count)
  }

  // ---------------------------------------------------------------------
  // Double buffering.

  /** `m_frameIndex & 0x1`: the constant buffer of a frame. */
  function BufferIndex(frameIndex: bv32): (i: nat)
    ensures i < 2
  {
    if frameIndex & 1 == 0 then 0 else 1
  }

  /** The frame counter after `presents` successful presents, from 0, with
      the wrap-around of a 32-bit UINT. */
  function FrameAfter(presents: nat): bv32 {
    if presents == 0 then 0 else FrameAfter(presents - 1) + 1
  }

  /** Consecutive frames use different constant buffers, also from 0xFFFFFFFF to 0. */
  lemma BufferAlternates(frameIndex: bv32)
    ensures BufferIndex(frameIndex + 1) == 1 - BufferIndex(frameIndex)
  {
    assert (frameIndex + 1) & 1 == 1 - (frameIndex & 1);
  }

  /** After N presents the next frame draws with constant buffer N mod 2. */
  lemma {:induction false} BufferAfterPresents(presents: nat)
    ensures BufferIndex(FrameAfter(presents)) == presents % 2
  {
    if presents > 0 {
      var before := FrameAfter(presents - 1);
      BufferAfterPresents(presents - 1);
      BufferAlternates(before);
      ParityStep(presents);
    }
  }

  /** One more present flips the parity of the count. */
  lemma ParityStep(presents: nat)
    requires presents > 0
    ensures presents % 2 == 1 - (presents - 1) % 2
  {
  }

  // ---------------------------------------------------------------------
  // The calls of each operation, in order.

  /** ResizeResources first drops the view and the back buffer, then the depth view and buffer. */
  function ReleaseOps(): seq<Op> {
    [Reset(RenderTargetView), Reset(BackBuffer), Reset(DepthStencilView), Reset(DepthBuffer)]
  }

  function SwapChainOps(changed: bool, width: uint32, height: uint32): seq<Op> {
    if changed then [ResizeBuffers(2, width, height)] else []
  }

  function BackBufferOps(): seq<Op> {
    [GetBuffer(0), CreateRenderTargetView]
  }

  function DepthOps(width: uint32, height: uint32): seq<Op> {
    [CreateTexture2D(width, height), CreateDepthStencilView]
  }

  /** Everything after the releases: the swap chain, then both targets. */
  function RecreateOps(changed: bool, width: uint32, height: uint32): seq<Op> {
    SwapChainOps(changed, width, height) + (BackBufferOps() + DepthOps(width, height))
  }

  function ResizeOps(changed: bool, width: uint32, height: uint32): seq<Op> {
    ReleaseOps() + RecreateOps(changed, width, height)
  }

  /** The vertex buffer, then the index buffer, by their byte widths. */
  function MeshBufferOps(vertexBytes: uint32, indexBytes: uint32): seq<Op> {
    [CreateBuffer(VertexBuffer, vertexBytes), CreateBuffer(IndexBuffer, indexBytes)]
  }

  /** Constant buffers `from` up to (not including) `to`, one CreateBuffer each. */
  function ConstantBufferLoopOps(from: nat, to: nat): (ops: seq<Op>)
    requires from <= to
    ensures |ops| == to - from
    ensures forall i :: 0 <= i < |ops| ==> ops[i] == CreateBuffer(ConstantBuffer(from + i), CONSTANT_BUFFER_SIZE)
  {
    seq(to - from, i requires 0 <= i => CreateBuffer(ConstantBuffer(from + i), CONSTANT_BUFFER_SIZE))
  }

  /** The loop's calls split at any iteration. */
  lemma ConstantBufferLoopSplit(from: nat, middle: nat, to: nat)
    requires from <= middle <= to
    ensures ConstantBufferLoopOps(from, middle) + ConstantBufferLoopOps(middle, to) == ConstantBufferLoopOps(from, to)
  {
    var xs, ys, zs := ConstantBufferLoopOps(from, middle), ConstantBufferLoopOps(middle, to), ConstantBufferLoopOps(from, to);
    assert |xs + ys| == |zs|;
    forall i | 0 <= i < |zs| ensures (xs + ys)[i] == zs[i] {
      if i < |xs| {
        assert (xs + ys)[i] == xs[i];
      } else {
        assert (xs + ys)[i] == ys[i - |xs|];
      }
    }
  }

  /** The two constant buffers and then the staging buffer, all of one size. */
  function ConstantBufferOps(): seq<Op> {
    ConstantBufferLoopOps(0, 2) + [CreateBuffer(UploadBuffer, CONSTANT_BUFFER_SIZE)]
  }

  /** Shader blobs, shaders, input layout and the three fixed-function states. */
  function PipelineOps(): seq<Op> {
    [ ReadFileToBlob("BasicVS.cso"), CreateObject(VertexShader),
      ReadFileToBlob("BasicPS.cso"), CreateObject(PixelShader),
      CreateObject(InputLayout),
      CreateObject(RasterizerState), CreateObject(DepthStencilState), CreateObject(BlendState) ]
  }

  function InitOps(vertexBytes: uint32, indexBytes: uint32): seq<Op> {
    MeshBufferOps(vertexBytes, indexBytes) + ConstantBufferOps() + PipelineOps()
  }

  /** The byte widths of the vertex and index buffers welded from corners `ks`. */
  function MeshBytes(ks: seq<MeshLoader.Vertex>): uint32 {
    ByteWidth(|MeshLoader.Flatten(MeshLoader.Unique(ks))|)
  }

  function IndexBytes(ks: seq<MeshLoader.Vertex>): uint32 {
    ByteWidth(ToUInt32(|MeshLoader.WeldedIndices(ks)|) as nat)
  }

  /** Update maps the staging buffer, fills it and unmaps it. */
  function UpdateOps(): seq<Op> {
    [Map(UploadBuffer), Unmap(UploadBuffer)]
  }

  /** The calls of Draw for a frame that uses constant buffer `bufferIndex`. */
  function DrawOps(bufferIndex: nat, width: uint32, height: uint32, indexCount: uint32): seq<Op> {
    [ CopyResource(ConstantBuffer(bufferIndex), UploadBuffer),
      Clear(RenderTargetView), Clear(DepthStencilView),
      SetRenderTargets(true), SetViewport(width, height),
      SetTriangleListTopology, Bind(InputLayout),
      Bind(VertexBuffer), Bind(IndexBuffer),
      Bind(VertexShader), Bind(PixelShader),
      SetConstantBuffer(VertexStage, ConstantBuffer(bufferIndex)),
      SetConstantBuffer(PixelStage, ConstantBuffer(bufferIndex)),
      Bind(RasterizerState), Bind(DepthStencilState), Bind(BlendState),
      DrawIndexed(indexCount) ]
  }

  /** ResizeResources releases all four target objects before anything else,
      and ends by recreating the back buffer, its view, the depth buffer of the
      requested size and its view. */
  lemma ResizeReleasesThenRecreates(changed: bool, width: uint32, height: uint32)
    ensures var ops := ResizeOps(changed, width, height);
      && ops[..4] == ReleaseOps()
      && ops[|ops| - 4..] == BackBufferOps() + DepthOps(width, height)
  {
  }

  /** The swap chain is resized iff the size changed, then to the requested size. */
  lemma ResizeBuffersIffChanged(changed: bool, width: uint32, height: uint32)
    ensures var ops := ResizeOps(changed, width, height);
      && (changed <==> exists i :: 0 <= i < |ops| && ops[i].ResizeBuffers?)
      && (forall i :: 0 <= i < |ops| && ops[i].ResizeBuffers? ==> ops[i] == ResizeBuffers(2, width, height))
  {
    var ops := ResizeOps(changed, width, height);
    if changed {
      assert ops[4].ResizeBuffers?;
    }
  }

  /** Exactly two constant buffers are created, with slots 0 and 1, and the
      staging buffer has their size. */
  lemma TwoConstantBuffers()
    ensures var ops := ConstantBufferOps();
      && (forall i :: 0 <= i < |ops| && ops[i].CreateBuffer? && ops[i].target.ConstantBuffer? ==> i == ops[i].target.slot)
      && (forall i :: 0 <= i < |ops| ==> ops[i].CreateBuffer? && ops[i].byteWidth == CONSTANT_BUFFER_SIZE)
      && |set i | 0 <= i < |ops| && ops[i].target.ConstantBuffer?| == 2
  {
    var ops := ConstantBufferOps();
    assert (set i | 0 <= i < |ops| && ops[i].target.ConstantBuffer?) == {0, 1};
  }

  /** Draw copies the staging buffer into exactly one constant buffer, the
      frame's, and binds that same buffer, and only it, to both shader stages. */
  lemma DrawUsesOneConstantBuffer(frameIndex: bv32, width: uint32, height: uint32, indexCount: uint32)
    ensures var ops := DrawOps(BufferIndex(frameIndex), width, height, indexCount);
      && (forall i :: 0 <= i < |ops| && ops[i].CopyResource? ==>
            ops[i] == CopyResource(ConstantBuffer(BufferIndex(frameIndex)), UploadBuffer))
      && (forall i :: 0 <= i < |ops| && ops[i].SetConstantBuffer? ==>
            ops[i].buffer == ConstantBuffer(BufferIndex(frameIndex)))
      && (forall stage: Stage :: exists i :: 0 <= i < |ops| && ops[i] == SetConstantBuffer(stage, ConstantBuffer(BufferIndex(frameIndex))))
      && ops[0].CopyResource? && ops[|ops| - 1] == DrawIndexed(indexCount)
      && (forall i :: 0 <= i < |ops| ==> !Fallible(ops[i]))
  {
    var ops := DrawOps(BufferIndex(frameIndex), width, height, indexCount);
    forall stage: Stage
      ensures exists i :: 0 <= i < |ops| && ops[i] == SetConstantBuffer(stage, ConstantBuffer(BufferIndex(frameIndex)))
    {
      if stage == VertexStage {
        assert ops[11] == SetConstantBuffer(stage, ConstantBuffer(BufferIndex(frameIndex)));
      } else {
        assert ops[12] == SetConstantBuffer(stage, ConstantBuffer(BufferIndex(frameIndex)));
      }
    }
  }

  // ---------------------------------------------------------------------
  // Camera.

  /** `std::min(std::max(phi, 5.0f), 175.0f)`. */
  function ClampPhi(phi: real): (r: real)
    ensures 5.0 <= r <= 175.0
    ensures 5.0 <= phi <= 175.0 ==> r == phi
    ensures phi < 5.0 ==> r == 5.0
    ensures phi > 175.0 ==> r == 175.0
  {
    var atLeast5 := if phi < 5.0 then 5.0 else phi;
    if 175.0 < atLeast5 then 175.0 else atLeast5
  }

  /** `(max + min) / 2 * m_objectScale`: the centre of the bounds, scaled. */
  function Focus(lo: MeshLoader.Vec3<real>, hi: MeshLoader.Vec3<real>, scale: real): (focus: MeshLoader.Vec3<real>)
    requires scale > 0.0
    ensures forall a: MeshLoader.Axis :: lo.Get(a) <= hi.Get(a) ==> lo.Get(a) * scale <= focus.Get(a) <= hi.Get(a) * scale
  {
    var f := MeshLoader.Vec3((hi.x + lo.x) / 2.0 * scale, (hi.y + lo.y) / 2.0 * scale, (hi.z + lo.z) / 2.0 * scale);
    assert forall a: MeshLoader.Axis :: f.Get(a) == (hi.Get(a) + lo.Get(a)) / 2.0 * scale;
    f
  }

  /** A cursor position (XMFLOAT2). */
  datatype Point = Point(x: real, y: real)

  /** The cursor position of a WM_MOUSEMOVE: the two 16-bit words of lParam, as floats. */
  function CursorPosition(lParam: bv64): (p: Point)
    ensures p.x == LowWord(lParam) as int as real && p.y == HighWord(lParam) as int as real
    ensures 0.0 <= p.x < 65536.0 && 0.0 <= p.y < 65536.0
  {
    Point(LowWord(lParam) as int as real, HighWord(lParam) as int as real)
  }

  class D3DApp {
    const device: Device

    var isRunning: bool
    var width: uint32
    var height: uint32
    /** UINT m_frameIndex, which wraps around. */
    var frameIndex: bv32

    // Object and camera state (D3DApp.h:23-37); the constants are never reassigned.
    const objectScale: real := 0.7
    const objectRotationSpeed: real := 10.0
    const cameraRotateRate: real := 7.0
    var objectRotation: real
    var cameraFocus: MeshLoader.Vec3<real>
    var cameraPhi: real
    var cameraTheta: real
    var currPos: Point
    var prevPos: Point

    // Targets and buffers (ComPtr fields); None is a null ComPtr.
    var backBuffer: Option<Texture>
    var backBufferRTV: Option<Texture>
    var depthBuffer: Option<Texture>
    var depthBufferDSV: Option<Texture>
    var vertexBuffer: Option<Buffer>
    var indexBuffer: Option<Buffer>
    var indexCount: uint32
    var uploadBuffer: Option<Buffer>
    /** m_constantBuffer[2], one per frame in flight. */
    const constantBuffer: array<Option<Buffer>>

    /** m_constantBuffer has its two elements. */
    ghost predicate Valid()
      reads this
    {
      constantBuffer.Length == 2
    }

    /** The member initialisers of D3DApp.h:18-39. */
    constructor (device: Device)
      ensures Valid() && fresh(constantBuffer)
      ensures this.device == device
      ensures isRunning && width == 0 && height == 0 && frameIndex == 0
      ensures objectRotation == 0.0 && cameraFocus == MeshLoader.Vec3(0.0, 0.0, 0.0)
      ensures cameraPhi == 60.0 && cameraTheta == 0.0
      ensures currPos == Point(0.0, 0.0) && prevPos == Point(0.0, 0.0)
      ensures backBuffer.None? && backBufferRTV.None? && depthBuffer.None? && depthBufferDSV.None?
      ensures vertexBuffer.None? && indexBuffer.None? && indexCount == 0 && uploadBuffer.None?
      ensures constantBuffer[..] == [None, None]
    {
      this.device := device;
      isRunning := true;
      width, height, frameIndex := 0, 0, 0;
      objectRotation := 0.0;
      cameraFocus := MeshLoader.Vec3(0.0, 0.0, 0.0);
      cameraPhi, cameraTheta := 60.0, 0.0;
      currPos, prevPos := Point(0.0, 0.0), Point(0.0, 0.0);
      backBuffer, backBufferRTV, depthBuffer, depthBufferDSV := None, None, None, None;
      vertexBuffer, indexBuffer, indexCount, uploadBuffer := None, None, 0, None;
      constantBuffer := new Option<Buffer>[2](_ => None);
    }

    /** The fields that only ResizeResources changes. */
    function Targets(): (Option<Texture>, Option<Texture>, Option<Texture>, Option<Texture>)
      reads this
    {
      (backBuffer, backBufferRTV, depthBuffer, depthBufferDSV)
    }

    /** The fields that only InitResources changes. */
    function Buffers(): (Option<Buffer>, Option<Buffer>, uint32, Option<Buffer>)
      reads this
    {
      (vertexBuffer, indexBuffer, indexCount, uploadBuffer)
    }

    /** The fields that only Update and HandleInput change. */
    function View(): (real, real, real, Point, Point)
      reads this
    {
      (objectRotation, cameraPhi, cameraTheta, currPos, prevPos)
    }

    /** Init: the swap-chain size is the window's client size; InitDevice is
        not part of this model. `ok` is false where an exception escapes. */
    method Init(clientWidth: uint32, clientHeight: uint32, parsed: Option<MeshLoader.ObjData>, value: MeshLoader.Float -> real)
      returns (ok: bool)
      requires Valid()
      requires MeshLoader.Accepts("teapot.obj", parsed) ==> MeshLoader.Readable(parsed.value)
      modifies this`width, this`height, this`backBuffer, this`backBufferRTV, this`depthBuffer, this`depthBufferDSV
      modifies this`indexCount, this`cameraFocus, this`vertexBuffer, this`indexBuffer, this`uploadBuffer, device, constantBuffer
      ensures Valid()
      ensures width == clientWidth && height == clientHeight
      ensures ok ==> MeshLoader.Accepts("teapot.obj", parsed)
      ensures MeshLoader.Accepts("teapot.obj", parsed) ==>
        Ran(old(device.log), ResizeOps(old(width) != clientWidth || old(height) != clientHeight, clientWidth, clientHeight)
                             + InitOps(MeshBytes(MeshLoader.Corners(parsed.value)), IndexBytes(MeshLoader.Corners(parsed.value))),
            ok, device.log)
      ensures !MeshLoader.Accepts("teapot.obj", parsed) ==>
        var ops := ResizeOps(old(width) != clientWidth || old(height) != clientHeight, clientWidth, clientHeight);
        !ok && (Ran(old(device.log), ops, true, device.log) || Ran(old(device.log), ops, false, device.log))
      ensures ok ==> && backBufferRTV.Some? && depthBuffer == Some(Texture(width, height)) && depthBufferDSV == depthBuffer
                     && constantBuffer[..] == [Some(Buffer(CONSTANT_BUFFER_SIZE)), Some(Buffer(CONSTANT_BUFFER_SIZE))]
                     && uploadBuffer == Some(Buffer(CONSTANT_BUFFER_SIZE))
      ensures ok ==>
        var ks := MeshLoader.Corners(parsed.value);
        var (lo, hi) := MeshLoader.WeldedBounds(ks, value);
        && indexCount == ToUInt32(|MeshLoader.WeldedIndices(ks)|)
        && vertexBuffer == Some(Buffer(MeshBytes(ks))) && indexBuffer == Some(Buffer(IndexBytes(ks)))
        && cameraFocus == Focus(lo, hi, objectScale)
      ensures frameIndex == old(frameIndex) && isRunning == old(isRunning) && View() == old(View())
    {
      ghost var resize := ResizeOps(old(width) != clientWidth || old(height) != clientHeight, clientWidth, clientHeight);
      ghost var accepts := MeshLoader.Accepts("teapot.obj", parsed);
      ghost var init := if accepts then InitOps(MeshBytes(MeshLoader.Corners(parsed.value)), IndexBytes(MeshLoader.Corners(parsed.value))) else [];
      ok := ResizeResources(clientWidth, clientHeight);
      if !ok {
        if accepts {
          RanAbort(old(device.log), resize, init, device.log);
        }
        return;
      }
      ghost var middle := device.log;
      ghost var targets := Targets();
      ok := InitResources(parsed, value);
      assert Targets() == targets;
      if accepts {
        RanThen(old(device.log), resize, middle, init, ok, device.log);
      }
    }
    /** ResizeResources (D3DApp.cpp:116-160). The stored size is the requested
        one afterwards, even when a call then fails. */
    method ResizeResources(width: uint32, height: uint32) returns (ok: bool)
      requires Valid()
      modifies this`width, this`height, this`backBuffer, this`backBufferRTV, this`depthBuffer, this`depthBufferDSV, device
      ensures Valid()
      ensures this.width == width && this.height == height
      ensures Ran(old(device.log), ResizeOps(old(this.width) != width || old(this.height) != height, width, height), ok, device.log)
      ensures ok && (old(this.width) != width || old(this.height) != height) ==>
        device.bufferWidth == width && device.bufferHeight == height
      ensures old(this.width) == width && old(this.height) == height ==>
        device.bufferWidth == old(device.bufferWidth) && device.bufferHeight == old(device.bufferHeight)
      ensures ok ==> && backBuffer == Some(Texture(device.bufferWidth, device.bufferHeight)) && backBufferRTV == backBuffer
                     && depthBuffer == Some(Texture(this.width, this.height)) && depthBufferDSV == depthBuffer
      ensures !ok ==> depthBufferDSV.None?
    {
      ReleaseTargets();
      ghost var middle := device.log;
      ok := RecreateTargets(width, height);
      RanThen(old(device.log), ReleaseOps(), middle, RecreateOps(old(this.width) != width || old(this.height) != height, width, height), ok, device.log);
    }

    /** The rest of ResizeResources: the swap chain is resized if the size
        changed, then the back buffer, its view, the depth buffer and its view
        are created. */
    method RecreateTargets(width: uint32, height: uint32) returns (ok: bool)
      modifies this`width, this`height, this`backBuffer, this`backBufferRTV, this`depthBuffer, this`depthBufferDSV, device
      requires depthBufferDSV.None?
      ensures this.width == width && this.height == height
      ensures Ran(old(device.log), RecreateOps(old(this.width) != width || old(this.height) != height, width, height), ok, device.log)
      ensures ok && (old(this.width) != width || old(this.height) != height) ==>
        device.bufferWidth == width && device.bufferHeight == height
      ensures old(this.width) == width && old(this.height) == height ==>
        device.bufferWidth == old(device.bufferWidth) && device.bufferHeight == old(device.bufferHeight)
      ensures ok ==> && backBuffer == Some(Texture(device.bufferWidth, device.bufferHeight)) && backBufferRTV == backBuffer
                     && depthBuffer == Some(Texture(width, height)) && depthBufferDSV == depthBuffer
      ensures !ok ==> depthBufferDSV.None?
    {
      ghost var changed := this.width != width || this.height != height;
      ok := ResizeSwapChain(width, height);
      if !ok {
        RanAbort(old(device.log), SwapChainOps(changed, width, height), BackBufferOps() + DepthOps(width, height), device.log);
        return;
      }
      ghost var middle := device.log;
      ok, backBuffer, backBufferRTV, depthBuffer, depthBufferDSV := AcquireTargets(width, height);
      RanThen(old(device.log), SwapChainOps(changed, width, height), middle, BackBufferOps() + DepthOps(width, height), ok, device.log);
    }

    /** The start of ResizeResources: the four ComPtr targets are reset. */
    method ReleaseTargets()
      modifies this`backBuffer, this`backBufferRTV, this`depthBuffer, this`depthBufferDSV, device
      ensures Targets() == (None, None, None, None)
      ensures Ran(old(device.log), ReleaseOps(), true, device.log)
      ensures device.bufferWidth == old(device.bufferWidth) && device.bufferHeight == old(device.bufferHeight)
    {
      backBufferRTV := None;
      backBuffer := None;
      depthBufferDSV := None;
      depthBuffer := None;
      var released := device.Run(ReleaseOps());
    }

    /** The middle of ResizeResources: a new size is stored and the swap chain resized to it. */
    method ResizeSwapChain(width: uint32, height: uint32) returns (ok: bool)
      modifies this`width, this`height, device
      ensures this.width == width && this.height == height
      ensures Ran(old(device.log), SwapChainOps(old(this.width) != width || old(this.height) != height, width, height), ok, device.log)
      ensures ok && (old(this.width) != width || old(this.height) != height) ==>
        device.bufferWidth == width && device.bufferHeight == height
      ensures !(ok && (old(this.width) != width || old(this.height) != height)) ==>
        device.bufferWidth == old(device.bufferWidth) && device.bufferHeight == old(device.bufferHeight)
    {
      ok := true;
      if this.width != width || this.height != height {
        this.width, this.height := width, height;
        ok := device.Issue(ResizeBuffers(2, width, height));
      }
    }

    /** The end of ResizeResources: the back buffer and its view, then a depth
        buffer of the stored size and its view. */
    method AcquireTargets(width: uint32, height: uint32)
      returns (ok: bool, backBuffer: Option<Texture>, backBufferRTV: Option<Texture>,
               depthBuffer: Option<Texture>, depthBufferDSV: Option<Texture>)
      modifies device
      ensures Ran(old(device.log), BackBufferOps() + DepthOps(width, height), ok, device.log)
      ensures device.bufferWidth == old(device.bufferWidth) && device.bufferHeight == old(device.bufferHeight)
      ensures ok ==> && backBuffer == Some(Texture(device.bufferWidth, device.bufferHeight)) && backBufferRTV == backBuffer
                     && depthBuffer == Some(Texture(width, height)) && depthBufferDSV == depthBuffer
      ensures !ok ==> depthBufferDSV.None?
    {
      depthBuffer, depthBufferDSV := None, None;
      ok, backBuffer, backBufferRTV := AcquireBackBuffer();
      if !ok {
        RanAbort(old(device.log), BackBufferOps(), DepthOps(width, height), device.log);
        return;
      }
      ghost var middle := device.log;
      ok, depthBuffer, depthBufferDSV := CreateDepthTarget(width, height);
      RanThen(old(device.log), BackBufferOps(), middle, DepthOps(width, height), ok, device.log);
    }

    /** GetBuffer(0) and CreateRenderTargetView. */
    method AcquireBackBuffer() returns (ok: bool, backBuffer: Option<Texture>, backBufferRTV: Option<Texture>)
      modifies device
      ensures Ran(old(device.log), BackBufferOps(), ok, device.log)
      ensures device.bufferWidth == old(device.bufferWidth) && device.bufferHeight == old(device.bufferHeight)
      ensures ok ==> backBuffer == Some(Texture(device.bufferWidth, device.bufferHeight)) && backBufferRTV == backBuffer
      ensures !ok ==> backBufferRTV.None?
    {
      backBuffer, backBufferRTV := None, None;
      assert BackBufferOps() == [GetBuffer(0)] + [CreateRenderTargetView];
      ok := device.Issue(GetBuffer(0));
      if !ok {
        RanAbort(old(device.log), [GetBuffer(0)], [CreateRenderTargetView], device.log);
        return;
      }
      backBuffer := Some(Texture(device.bufferWidth, device.bufferHeight));
      ghost var middle := device.log;
      ok := device.Issue(CreateRenderTargetView);
      RanThen(old(device.log), [GetBuffer(0)], middle, [CreateRenderTargetView], ok, device.log);
      if ok {
        backBufferRTV := backBuffer;
      }
    }

    /** CreateTexture2D with the stored size (depthBufferDesc.Width and .Height),
        then CreateDepthStencilView. */
    method CreateDepthTarget(width: uint32, height: uint32) returns (ok: bool, depthBuffer: Option<Texture>, depthBufferDSV: Option<Texture>)
      modifies device
      ensures Ran(old(device.log), DepthOps(width, height), ok, device.log)
      ensures device.bufferWidth == old(device.bufferWidth) && device.bufferHeight == old(device.bufferHeight)
      ensures ok ==> depthBuffer == Some(Texture(width, height)) && depthBufferDSV == depthBuffer
      ensures !ok ==> depthBufferDSV.None?
    {
      depthBuffer, depthBufferDSV := None, None;
      assert DepthOps(width, height) == [CreateTexture2D(width, height)] + [CreateDepthStencilView];
      ok := device.Issue(CreateTexture2D(width, height));
      if !ok {
        RanAbort(old(device.log), [CreateTexture2D(width, height)], [CreateDepthStencilView], device.log);
        return;
      }
      depthBuffer := Some(Texture(width, height));
      ghost var middle := device.log;
      ok := device.Issue(CreateDepthStencilView);
      RanThen(old(device.log), [CreateTexture2D(width, height)], middle, [CreateDepthStencilView], ok, device.log);
      if ok {
        depthBufferDSV := depthBuffer;
      }
    }

    /** InitResources (D3DApp.cpp:162-274) on the parser's output for
        "teapot.obj". A failed LoadMesh throws before any device call. */
    method InitResources(parsed: Option<MeshLoader.ObjData>, value: MeshLoader.Float -> real) returns (ok: bool)
      requires Valid()
      requires MeshLoader.Accepts("teapot.obj", parsed) ==> MeshLoader.Readable(parsed.value)
      modifies this`indexCount, this`cameraFocus, this`vertexBuffer, this`indexBuffer, this`uploadBuffer, device, constantBuffer
      ensures Valid()
      ensures !MeshLoader.Accepts("teapot.obj", parsed) ==> !ok && device.log == old(device.log)
      ensures MeshLoader.Accepts("teapot.obj", parsed) ==>
        var ks := MeshLoader.Corners(parsed.value);
        && indexCount == ToUInt32(|MeshLoader.WeldedIndices(ks)|)
        && Ran(old(device.log), InitOps(MeshBytes(ks), IndexBytes(ks)), ok, device.log)
        && (ok ==> vertexBuffer == Some(Buffer(MeshBytes(ks))) && indexBuffer == Some(Buffer(IndexBytes(ks))))
      ensures ok ==> && vertexBuffer.Some? && indexBuffer == Some(Buffer(ByteWidth(indexCount as nat)))
                     && constantBuffer[..] == [Some(Buffer(CONSTANT_BUFFER_SIZE)), Some(Buffer(CONSTANT_BUFFER_SIZE))]
                     && uploadBuffer == Some(Buffer(CONSTANT_BUFFER_SIZE))
      ensures MeshLoader.Accepts("teapot.obj", parsed) ==>
        var (lo, hi) := MeshLoader.WeldedBounds(MeshLoader.Corners(parsed.value), value);
        cameraFocus == Focus(lo, hi, objectScale)
      ensures device.bufferWidth == old(device.bufferWidth) && device.bufferHeight == old(device.bufferHeight)
    {
      var origin := MeshLoader.Vec3(0.0, 0.0, 0.0);
      var hr, mesh := MeshLoader.LoadMesh("teapot.obj", parsed, value, MeshLoader.Mesh([], [], origin, origin));
      if hr == Fail {
        return false;
      }
      MeshLoader.LoadedIntoEmpty(MeshLoader.Corners(parsed.value), value, origin, mesh);
      UseMesh(mesh);
      ok := CreateResources(ByteWidth(|mesh.vertexBuffer|), ByteWidth(indexCount as nat));
    }

    /** The index count and the camera focus taken from the loaded mesh. */
    method UseMesh(mesh: MeshLoader.Mesh)
      modifies this`indexCount, this`cameraFocus
      ensures indexCount == ToUInt32(|mesh.indexBuffer|)
      ensures cameraFocus == Focus(mesh.boundsMin, mesh.boundsMax, objectScale)
    {
      indexCount := ToUInt32(|mesh.indexBuffer|);
      cameraFocus := Focus(mesh.boundsMin, mesh.boundsMax, objectScale);
    }

    /** The device calls of InitResources, after the mesh is loaded: the mesh
        buffers, the constant and staging buffers, then the pipeline objects. */
    method CreateResources(vertexBytes: uint32, indexBytes: uint32) returns (ok: bool)
      requires Valid()
      modifies this`vertexBuffer, this`indexBuffer, this`uploadBuffer, device, constantBuffer
      ensures Ran(old(device.log), InitOps(vertexBytes, indexBytes), ok, device.log)
      ensures ok ==> && vertexBuffer == Some(Buffer(vertexBytes)) && indexBuffer == Some(Buffer(indexBytes))
                     && constantBuffer[..] == [Some(Buffer(CONSTANT_BUFFER_SIZE)), Some(Buffer(CONSTANT_BUFFER_SIZE))]
                     && uploadBuffer == Some(Buffer(CONSTANT_BUFFER_SIZE))
      ensures device.bufferWidth == old(device.bufferWidth) && device.bufferHeight == old(device.bufferHeight)
    {
      ghost var meshOps := MeshBufferOps(vertexBytes, indexBytes);
      Associative(meshOps, ConstantBufferOps(), PipelineOps());
      ok, vertexBuffer, indexBuffer := CreateMeshBuffers(vertexBytes, indexBytes);
      if !ok {
        RanAbort(old(device.log), meshOps, ConstantBufferOps() + PipelineOps(), device.log);
        return;
      }
      ghost var middle := device.log;
      ok, uploadBuffer := CreateConstantBuffers();
      RanThen(old(device.log), meshOps, middle, ConstantBufferOps(), ok, device.log);
      if !ok {
        RanAbort(old(device.log), meshOps + ConstantBufferOps(), PipelineOps(), device.log);
        return;
      }
      middle := device.log;
      ok := device.Run(PipelineOps());
      RanThen(old(device.log), meshOps + ConstantBufferOps(), middle, PipelineOps(), ok, device.log);
    }

    /** The immutable vertex and index buffers. */
    method CreateMeshBuffers(vertexBytes: uint32, indexBytes: uint32) returns (ok: bool, vertexBuffer: Option<Buffer>, indexBuffer: Option<Buffer>)
      modifies device
      ensures Ran(old(device.log), MeshBufferOps(vertexBytes, indexBytes), ok, device.log)
      ensures ok ==> vertexBuffer == Some(Buffer(vertexBytes)) && indexBuffer == Some(Buffer(indexBytes))
      ensures device.bufferWidth == old(device.bufferWidth) && device.bufferHeight == old(device.bufferHeight)
    {
      vertexBuffer, indexBuffer := None, None;
      assert MeshBufferOps(vertexBytes, indexBytes) == [CreateBuffer(VertexBuffer, vertexBytes)] + [CreateBuffer(IndexBuffer, indexBytes)];
      ok := device.Issue(CreateBuffer(VertexBuffer, vertexBytes));
      if !ok {
        RanAbort(old(device.log), [CreateBuffer(VertexBuffer, vertexBytes)], [CreateBuffer(IndexBuffer, indexBytes)], device.log);
        return;
      }
      vertexBuffer := Some(Buffer(vertexBytes));
      ghost var middle := device.log;
      ok := device.Issue(CreateBuffer(IndexBuffer, indexBytes));
      RanThen(old(device.log), [CreateBuffer(VertexBuffer, vertexBytes)], middle, [CreateBuffer(IndexBuffer, indexBytes)], ok, device.log);
      if ok {
        indexBuffer := Some(Buffer(indexBytes));
      }
    }

    /** The loop creating m_constantBuffer[0] and [1], then the staging buffer of the same size. */
    method CreateConstantBuffers() returns (ok: bool, uploadBuffer: Option<Buffer>)
      requires constantBuffer.Length == 2
      modifies device, constantBuffer
      ensures Ran(old(device.log), ConstantBufferOps(), ok, device.log)
      ensures ok ==> && constantBuffer[..] == [Some(Buffer(CONSTANT_BUFFER_SIZE)), Some(Buffer(CONSTANT_BUFFER_SIZE))]
                     && uploadBuffer == Some(Buffer(CONSTANT_BUFFER_SIZE))
      ensures device.bufferWidth == old(device.bufferWidth) && device.bufferHeight == old(device.bufferHeight)
    {
      uploadBuffer := None;
      var upload := CreateBuffer(UploadBuffer, CONSTANT_BUFFER_SIZE);
      assert ConstantBufferLoopOps(0, 0) == [];
      for i := 0 to 2
        invariant Ran(old(device.log), ConstantBufferLoopOps(0, i), true, device.log)
        invariant forall j :: 0 <= j < i ==> constantBuffer[j] == Some(Buffer(CONSTANT_BUFFER_SIZE))
        invariant device.bufferWidth == old(device.bufferWidth) && device.bufferHeight == old(device.bufferHeight)
      {
        ghost var middle := device.log;
        ok := device.Issue(CreateBuffer(ConstantBuffer(i), CONSTANT_BUFFER_SIZE));
        ConstantBufferLoopSplit(0, i, i + 1);
        assert ConstantBufferLoopOps(i, i + 1) == [CreateBuffer(ConstantBuffer(i), CONSTANT_BUFFER_SIZE)];
        RanThen(old(device.log), ConstantBufferLoopOps(0, i), middle, [CreateBuffer(ConstantBuffer(i), CONSTANT_BUFFER_SIZE)], ok, device.log);
        if !ok {
          RanAbort(old(device.log), ConstantBufferLoopOps(0, i + 1), ConstantBufferLoopOps(i + 1, 2) + [upload], device.log);
          ConstantBufferLoopSplit(0, i + 1, 2);
          Associative(ConstantBufferLoopOps(0, i + 1), ConstantBufferLoopOps(i + 1, 2), [upload]);
          return;
        }
        constantBuffer[i] := Some(Buffer(CONSTANT_BUFFER_SIZE));
      }
      ghost var middle := device.log;
      ok := device.Issue(upload);
      RanThen(old(device.log), ConstantBufferLoopOps(0, 2), middle, [upload], ok, device.log);
      if ok {
        uploadBuffer := Some(Buffer(CONSTANT_BUFFER_SIZE));
        assert constantBuffer[..] == [constantBuffer[0], constantBuffer[1]];
      }
    }

    /** Update(dt) without the matrix math: the auto-rotation, the camera
        orbit by the cursor motion since the last frame, the phi clamp, and the
        upload of the shader constants through Map/Unmap. */
    method Update(dt: real) returns (ok: bool)
      modifies this, device
      ensures Ran(old(device.log), UpdateOps(), ok, device.log)
      ensures objectRotation == old(objectRotation) + objectRotationSpeed * dt
      ensures prevPos == currPos && currPos == old(currPos)
      ensures cameraTheta == old(cameraTheta) + (old(currPos.x) - old(prevPos.x)) * cameraRotateRate * dt
      ensures cameraPhi == ClampPhi(old(cameraPhi) - (old(currPos.y) - old(prevPos.y)) * cameraRotateRate * dt)
      ensures 5.0 <= cameraPhi <= 175.0
      ensures device.bufferWidth == old(device.bufferWidth) && device.bufferHeight == old(device.bufferHeight)
      ensures Targets() == old(Targets()) && Buffers() == old(Buffers())
      ensures width == old(width) && height == old(height) && cameraFocus == old(cameraFocus)
      ensures isRunning == old(isRunning) && frameIndex == old(frameIndex)
    {
      objectRotation := objectRotation + objectRotationSpeed * dt;
      var deltaX, deltaY := currPos.x - prevPos.x, currPos.y - prevPos.y;
      assert deltaY * cameraRotateRate * dt == (old(currPos.y) - old(prevPos.y)) * cameraRotateRate * dt;
      prevPos := currPos;
      cameraPhi := cameraPhi - deltaY * cameraRotateRate * dt;
      cameraTheta := cameraTheta + deltaX * cameraRotateRate * dt;
      cameraPhi := ClampPhi(cameraPhi);
      assert cameraPhi == ClampPhi(old(cameraPhi) - deltaY * cameraRotateRate * dt);
      assert cameraPhi == ClampPhi(old(cameraPhi) - (old(currPos.y) - old(prevPos.y)) * cameraRotateRate * dt);
      ok := UploadConstants();
    }

    /** Map the staging buffer, copy the constants into it (the memcpy), unmap it. */
    method UploadConstants() returns (ok: bool)
      modifies device
      ensures Ran(old(device.log), UpdateOps(), ok, device.log)
      ensures device.bufferWidth == old(device.bufferWidth) && device.bufferHeight == old(device.bufferHeight)
    {
      assert UpdateOps() == [Map(UploadBuffer)] + [Unmap(UploadBuffer)];
      ok := device.Issue(Map(UploadBuffer));
      if !ok {
        RanAbort(old(device.log), [Map(UploadBuffer)], [Unmap(UploadBuffer)], device.log);
        return;
      }
      ghost var middle := device.log;
      ok := device.Issue(Unmap(UploadBuffer));
      RanThen(old(device.log), [Map(UploadBuffer)], middle, [Unmap(UploadBuffer)], ok, device.log);
    }

    /** Draw: none of its calls returns a result. The frame's constant buffer
        is `m_frameIndex & 1`, which is the number of presents modulo 2. */
    method Draw()
      requires Valid()
      modifies device
      ensures device.log == old(device.log) + Completed(DrawOps(BufferIndex(frameIndex), width, height, indexCount))
      ensures device.issued == old(device.issued)
      ensures device.bufferWidth == old(device.bufferWidth) && device.bufferHeight == old(device.bufferHeight)
    {
      var bufferIndex := BufferIndex(frameIndex);
      DrawUsesOneConstantBuffer(frameIndex, width, height, indexCount);
      var ok := device.Run(DrawOps(bufferIndex, width, height, indexCount));
    }

    /** Present: flip on the next vertical blank; the frame counter advances
        only when the present succeeds (ThrowIfFailed comes first). */
    method Present() returns (ok: bool)
      requires Valid()
      modifies this`frameIndex, device
      ensures Valid()
      ensures Ran(old(device.log), [SwapChainPresent(1)], ok, device.log)
      ensures frameIndex == if ok then old(frameIndex) + 1 else old(frameIndex)
      ensures device.bufferWidth == old(device.bufferWidth) && device.bufferHeight == old(device.bufferHeight)
      ensures Targets() == old(Targets()) && Buffers() == old(Buffers()) && View() == old(View())
      ensures width == old(width) && height == old(height) && isRunning == old(isRunning) && cameraFocus == old(cameraFocus)
    {
      ok := device.Issue(SwapChainPresent(1));
      if ok {
        frameIndex := frameIndex + 1;
      }
    }

    /** HandleInput: `handled` is false for a message passed on to
        DefWindowProc. WM_MOUSEMOVE and WM_SIZE read x/width from bits 0-15
        and y/height from bits 16-31 of lParam. */
    method HandleInput(message: bv32, wParam: bv64, lParam: bv64) returns (handled: bool, ok: bool)
      requires Valid()
      modifies this`isRunning, this`currPos, this`prevPos, this`width, this`height
      modifies this`backBuffer, this`backBufferRTV, this`depthBuffer, this`depthBufferDSV, device
      ensures Valid()
      ensures handled <==> message == WM_DESTROY || message == WM_MOUSEMOVE || message == WM_SIZE
      ensures message == WM_DESTROY ==> !isRunning && ok && device.log == old(device.log)
      ensures message == WM_MOUSEMOVE ==>
        && currPos == CursorPosition(lParam)
        && prevPos == (if wParam != MK_LBUTTON then currPos else old(prevPos))
        && ok && device.log == old(device.log)
      ensures message == WM_SIZE ==>
        && width == LowWord(lParam) as uint32 && height == HighWord(lParam) as uint32
        && Ran(old(device.log), ResizeOps(old(width) != width || old(height) != height, width, height), ok, device.log)
        && (ok ==> depthBuffer == Some(Texture(width, height)) && depthBufferDSV == depthBuffer)
      ensures message != WM_DESTROY ==> isRunning == old(isRunning)
      ensures message != WM_SIZE ==> Targets() == old(Targets()) && width == old(width) && height == old(height)
      ensures message != WM_MOUSEMOVE ==> currPos == old(currPos) && prevPos == old(prevPos)
      ensures !handled ==> ok && device.log == old(device.log)
      ensures message != WM_SIZE ==> device.bufferWidth == old(device.bufferWidth) && device.bufferHeight == old(device.bufferHeight)
      ensures message != WM_SIZE ==> device.issued == old(device.issued)
      ensures Buffers() == old(Buffers()) && frameIndex == old(frameIndex)
      ensures objectRotation == old(objectRotation) && cameraPhi == old(cameraPhi) && cameraTheta == old(cameraTheta)
      ensures cameraFocus == old(cameraFocus)
    {
      handled, ok := true, true;
      if message == WM_DESTROY {
        isRunning := false;
      } else if message == WM_MOUSEMOVE {
        currPos := CursorPosition(lParam);
        if wParam != MK_LBUTTON {
          prevPos := currPos;
        }
      } else if message == WM_SIZE {
        var newWidth := LowWord(lParam) as uint32;
        var newHeight := HighWord(lParam) as uint32;
        ok := ResizeResources(newWidth, newHeight);
      } else {
        handled := false;
      }
    }
  }
}
