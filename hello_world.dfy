// Dx11HelloWorld/D3DApp.cpp: the window-size state machine of the first
// sample. ResizeResources drops and reacquires the back buffer and its render
// target view, and resizes the swap chain only when the size has changed.

module HelloWorld {
  import opened Win32
  import opened Direct3D

  /** The first calls of ResizeResources: the view, then the back buffer, are released. */
  function ReleaseOps(): seq<Op> {
    [Reset(RenderTargetView), Reset(BackBuffer)]
  }

  /** The swap chain is resized only when the size changed. */
  function SwapChainOps(changed: bool, width: uint32, height: uint32): seq<Op> {
    if changed then [ResizeBuffers(2, width, height)] else []
  }

  /** The back buffer is fetched from the swap chain and a view made of it. */
  function AcquireOps(): seq<Op> {
    [GetBuffer(0), CreateRenderTargetView]
  }

  /** The calls of ResizeResources, in order. */
  function ResizeOps(changed: bool, width: uint32, height: uint32): seq<Op> {
    ReleaseOps() + SwapChainOps(changed, width, height) + AcquireOps()
  }

  /** Every call releases both objects before anything else, and reacquires
      the back buffer and then its view as its last two calls. */
  lemma ResizeReleasesThenReacquires(changed: bool, width: uint32, height: uint32)
    ensures var ops := ResizeOps(changed, width, height);
      && ops[..2] == [Reset(RenderTargetView), Reset(BackBuffer)]
      && ops[|ops| - 2..] == [GetBuffer(0), CreateRenderTargetView]
  {
  }

  /** The swap chain is resized iff the size changed, and then to the requested size. */
  lemma ResizeBuffersIffChanged(changed: bool, width: uint32, height: uint32)
    ensures var ops := ResizeOps(changed, width, height);
      && (changed <==> exists i :: 0 <= i < |ops| && ops[i].ResizeBuffers?)
      && (forall i :: 0 <= i < |ops| && ops[i].ResizeBuffers? ==> ops[i] == ResizeBuffers(2, width, height))
  {
    var ops := ResizeOps(changed, width, height);
    if changed {
      assert ops[2].ResizeBuffers?;
    }
  }

  class D3DApp {
    const device: Device
    var isRunning: bool
    var width: uint32
    var height: uint32
    /** UINT m_frameIndex, a bv32 as in MeshViewer; this sample never advances it. */
    var frameIndex: bv32
    var backBuffer: Option<Texture>
    var backBufferRTV: Option<Texture>

    /** The constructor's member initialisers (D3DApp.h:12-17). */
    constructor (device: Device)
      ensures this.device == device
      ensures isRunning && width == 0 && height == 0 && frameIndex == 0
      ensures backBuffer.None? && backBufferRTV.None?
    {
      this.device := device;
      isRunning := true;
      width, height, frameIndex := 0, 0, 0;
      backBuffer, backBufferRTV := None, None;
    }

    /** ResizeResources: `ok` is false where ThrowIfFailed throws. The stored
        size is the requested one afterwards, even when a call then fails. */
    method ResizeResources(width: uint32, height: uint32) returns (ok: bool)
      modifies this`width, this`height, this`backBuffer, this`backBufferRTV, device
      ensures this.width == width && this.height == height
      ensures Ran(old(device.log), ResizeOps(old(this.width) != width || old(this.height) != height, width, height), ok, device.log)
      ensures ok && (old(this.width) != width || old(this.height) != height) ==>
        device.bufferWidth == width && device.bufferHeight == height
      ensures old(this.width) == width && old(this.height) == height ==>
        device.bufferWidth == old(device.bufferWidth) && device.bufferHeight == old(device.bufferHeight)
      ensures ok ==> backBuffer == Some(Texture(device.bufferWidth, device.bufferHeight)) && backBufferRTV == backBuffer
      ensures !ok ==> backBufferRTV.None?
      ensures isRunning == old(isRunning) && frameIndex == old(frameIndex)
    {
      ghost var changed := this.width != width || this.height != height;
      backBufferRTV := None;
      backBuffer := None;
      var released := device.Run(ReleaseOps());
      ghost var middle := device.log;
      ok := ResizeSwapChain(width, height);
      RanThen(old(device.log), ReleaseOps(), middle, SwapChainOps(changed, width, height), ok, device.log);
      if !ok {
        RanAbort(old(device.log), ReleaseOps() + SwapChainOps(changed, width, height), AcquireOps(), device.log);
        return;
      }
      middle := device.log;
      ok := AcquireBackBuffer();
      RanThen(old(device.log), ReleaseOps() + SwapChainOps(changed, width, height), middle, AcquireOps(), ok, device.log);
    }

    /** The middle of ResizeResources: a new size is stored and the swap chain resized to it. */
    method ResizeSwapChain(width: uint32, height: uint32) returns (ok: bool)
      modifies this`width, this`height, device
      ensures this.width == width && this.height == height
      ensures Ran(old(device.log), SwapChainOps(old(this.width) != width || old(this.height) != height, width, height), ok, device.log)
      ensures ok && (old(this.width) != width || old(this.height) != height) ==>
        device.bufferWidth == width && device.bufferHeight == height
      ensures !(ok && (old(this.width) != width || old(this.height) != height)) ==>
        device.bufferWidth == old(device.bufferWidth) && device.bufferHeight == old(device.bufferHeight)
      ensures backBuffer == old(backBuffer) && backBufferRTV == old(backBufferRTV)
      ensures isRunning == old(isRunning) && frameIndex == old(frameIndex)
    {
      ok := true;
      if this.width != width || this.height != height {
        this.width, this.height := width, height;
        ok := device.Issue(ResizeBuffers(2, width, height));
      }
    }

    /** The second half of ResizeResources: GetBuffer, then the render target view. */
    method AcquireBackBuffer() returns (ok: bool)
      modifies this`backBuffer, this`backBufferRTV, device
      ensures Ran(old(device.log), AcquireOps(), ok, device.log)
      ensures device.bufferWidth == old(device.bufferWidth) && device.bufferHeight == old(device.bufferHeight)
      ensures ok ==> backBuffer == Some(Texture(device.bufferWidth, device.bufferHeight)) && backBufferRTV == backBuffer
      ensures !ok ==> backBufferRTV == old(backBufferRTV)
      ensures width == old(width) && height == old(height)
      ensures isRunning == old(isRunning) && frameIndex == old(frameIndex)
    {
      assert AcquireOps() == [GetBuffer(0)] + [CreateRenderTargetView];
      ok := device.Issue(GetBuffer(0));
      if !ok {
        RanAbort(old(device.log), [GetBuffer(0)], [CreateRenderTargetView], device.log);
        return;
      }
      backBuffer := Some(Texture(device.bufferWidth, device.bufferHeight));
      ghost var middle := device.log;
      ok := device.Issue(CreateRenderTargetView);
      RanThen(old(device.log), [GetBuffer(0)], middle, [CreateRenderTargetView], ok, device.log);
      if ok {
        backBufferRTV := backBuffer;
      }
    }

    /** Present: flip on the next vertical blank. The frame counter is never
        advanced in this sample. */
    method Present() returns (ok: bool)
      modifies device
      ensures Ran(old(device.log), [SwapChainPresent(1)], ok, device.log)
      ensures frameIndex == old(frameIndex)
    {
      ok := device.Issue(SwapChainPresent(1));
    }

    /** HandleInput: `handled` is false for a message passed on to
        DefWindowProc. WM_SIZE carries the new client size in the two low
        words of lParam. */
    method HandleInput(message: bv32, wParam: bv64, lParam: bv64) returns (handled: bool, ok: bool)
      modifies this`isRunning, this`width, this`height, this`backBuffer, this`backBufferRTV, device
      ensures handled <==> message == WM_DESTROY || message == WM_SIZE
      ensures message == WM_DESTROY ==> !isRunning && ok && device.log == old(device.log)
      ensures message == WM_SIZE ==>
        && width == LowWord(lParam) as uint32 && height == HighWord(lParam) as uint32
        && isRunning == old(isRunning)
        && Ran(old(device.log), ResizeOps(old(width) != width || old(height) != height, width, height), ok, device.log)
      ensures !handled ==> ok && device.log == old(device.log) && isRunning == old(isRunning)
      ensures message != WM_SIZE ==>
        && width == old(width) && height == old(height)
        && backBuffer == old(backBuffer) && backBufferRTV == old(backBufferRTV)
        && device.bufferWidth == old(device.bufferWidth) && device.bufferHeight == old(device.bufferHeight)
        && device.issued == old(device.issued)
      ensures frameIndex == old(frameIndex)
    {
      handled, ok := true, true;
      if message == WM_DESTROY {
        isRunning := false;
      } else if message == WM_SIZE {
        var newWidth := LowWord(lParam) as uint32;
        var newHeight := HighWord(lParam) as uint32;
        ok := ResizeResources(newWidth, newHeight);
      } else {
        handled := false;
      }
    }
  }
}
