// The Direct3D 11 / DXGI device as the two applications see it: every call
// they make is appended to a log, and the calls whose HRESULT goes through
// ThrowIfFailed take their outcome from a script fixed when the device is made.

module Direct3D {
  import opened Win32

  /** A 2D texture (back buffer, depth buffer) or a view of one, by its size. */
  datatype Texture = Texture(width: uint32, height: uint32)

  /** A GPU buffer, by its ByteWidth. */
  datatype Buffer = Buffer(byteWidth: uint32)

  /** The API objects the applications hold in ComPtr fields. */
  datatype Resource =
    | BackBuffer | RenderTargetView | DepthBuffer | DepthStencilView
    | VertexBuffer | IndexBuffer | UploadBuffer | ConstantBuffer(slot: nat)
    | VertexShader | PixelShader | InputLayout
    | RasterizerState | DepthStencilState | BlendState

  datatype Stage = VertexStage | PixelStage

  /** The device, context and swap-chain calls of the applications. */
  datatype Op =
    // Fallible calls, checked with ThrowIfFailed.
    | ResizeBuffers(bufferCount: nat, width: uint32, height: uint32)
    | GetBuffer(index: nat)
    | CreateRenderTargetView
    | CreateTexture2D(width: uint32, height: uint32)
    | CreateDepthStencilView
    | CreateBuffer(target: Resource, byteWidth: uint32)
    | ReadFileToBlob(fileName: string)
    | CreateObject(target: Resource)
    | Map(mapped: Resource)
    | SwapChainPresent(syncInterval: nat)
    // Calls without a result.
    /** ComPtr::Reset: logged whether or not the pointer holds an object; on
        a null ComPtr the call does nothing. */
    | Reset(reset: Resource)
    | Unmap(unmapped: Resource)
    | CopyResource(destination: Resource, source: Resource)
    | Clear(cleared: Resource)
    | SetRenderTargets(depth: bool)
    | SetViewport(viewportWidth: uint32, viewportHeight: uint32)
    | SetTriangleListTopology
    | Bind(bound: Resource)
    | SetConstantBuffer(stage: Stage, buffer: Resource)
    | DrawIndexed(indexCount: uint32)

  /** The calls that return an HRESULT. */
  predicate Fallible(op: Op) {
    op.ResizeBuffers? || op.GetBuffer? || op.CreateRenderTargetView? || op.CreateTexture2D? ||
    op.CreateDepthStencilView? || op.CreateBuffer? || op.ReadFileToBlob? || op.CreateObject? ||
    op.Map? || op.SwapChainPresent?
  }

  /** One logged call and its outcome (Ok for calls without a result). */
  datatype Entry = Entry(op: Op, hr: HResult)

  /** The log entries of `ops` all succeeding, in order. */
  ghost function Completed(ops: seq<Op>): seq<Entry>
  {
    seq(|ops|, i requires 0 <= i < |ops| => Entry(ops[i], Ok))
  }

  /** An application operation that issues `ops` moved the log from `before` to
      `after`: all of them succeeded (`ok`), or a prefix succeeded and the
      next call, a fallible one, failed and ended the operation (the
      exception of ThrowIfFailed). */
  ghost predicate Ran(before: seq<Entry>, ops: seq<Op>, ok: bool, after: seq<Entry>) {
    if ok then after == before + Completed(ops)
    else exists k :: 0 <= k < |ops| && Fallible(ops[k]) && after == before + Completed(ops[..k]) + [Entry(ops[k], Fail)]
  }

  /** Running `xs` and then `ys`: an operation made of two parts. */
  lemma RanThen(before: seq<Entry>, xs: seq<Op>, middle: seq<Entry>, ys: seq<Op>, ok: bool, after: seq<Entry>)
    requires Ran(before, xs, true, middle) && Ran(middle, ys, ok, after)
    ensures Ran(before, xs + ys, ok, after)
  {
    if ok {
      CompletedAppend(xs, ys);
    } else {
      var k :| 0 <= k < |ys| && Fallible(ys[k]) && after == middle + Completed(ys[..k]) + [Entry(ys[k], Fail)];
      var zs := xs + ys;
      assert zs[..|xs| + k] == xs + ys[..k] && zs[|xs| + k] == ys[k];
      CompletedAppend(xs, ys[..k]);
      var f := [Entry(ys[k], Fail)];
      calc {
        after;
        (before + Completed(xs)) + Completed(ys[..k]) + f;
        { Associative(before, Completed(xs), Completed(ys[..k])); }
        before + (Completed(xs) + Completed(ys[..k])) + f;
        before + Completed(zs[..|xs| + k]) + [Entry(zs[|xs| + k], Fail)];
      }
    }
  }

  lemma Associative<T>(a: seq<T>, b: seq<T>, c: seq<T>)
    ensures (a + b) + c == a + (b + c)
  {
  }

  /** A failure in `xs` ends the operation before `ys`. */
  lemma RanAbort(before: seq<Entry>, xs: seq<Op>, ys: seq<Op>, after: seq<Entry>)
    requires Ran(before, xs, false, after)
    ensures Ran(before, xs + ys, false, after)
  {
    var k :| 0 <= k < |xs| && Fallible(xs[k]) && after == before + Completed(xs[..k]) + [Entry(xs[k], Fail)];
    assert (xs + ys)[..k] == xs[..k];
  }

  /** The successful log of two parts is the concatenation of the parts'. */
  lemma CompletedAppend(xs: seq<Op>, ys: seq<Op>)
    ensures Completed(xs + ys) == Completed(xs) + Completed(ys)
  {
  }

  /** The device, its immediate context and the swap chain of one window. */
  class Device {
    /** The HRESULT of each fallible call, in call order; Ok once exhausted. */
    const outcomes: seq<HResult>
    /** How many fallible calls have been made. */
    var issued: nat
    /** The size of the swap chain's buffers. */
    var bufferWidth: uint32
    var bufferHeight: uint32
    ghost var log: seq<Entry>

    /** The outcome of the next fallible call. */
    function Next(): HResult
      reads this
    {
      if issued < |outcomes| then outcomes[issued] else Ok
    }

    constructor (outcomes: seq<HResult>, bufferWidth: uint32, bufferHeight: uint32)
      ensures this.outcomes == outcomes && issued == 0
      ensures this.bufferWidth == bufferWidth && this.bufferHeight == bufferHeight
      ensures log == []
    {
      this.outcomes := outcomes;
      issued := 0;
      this.bufferWidth := bufferWidth;
      this.bufferHeight := bufferHeight;
      log := [];
    }

    /** A call that returns an HRESULT; a successful ResizeBuffers resizes the
        swap chain's buffers. */
    method Call(op: Op) returns (hr: HResult)
      requires Fallible(op)
      modifies this
      ensures hr == old(Next())
      ensures issued == old(issued) + 1
      ensures log == old(log) + [Entry(op, hr)]
      ensures op.ResizeBuffers? && hr == Ok ==> bufferWidth == op.width && bufferHeight == op.height
      ensures !(op.ResizeBuffers? && hr == Ok) ==> bufferWidth == old(bufferWidth) && bufferHeight == old(bufferHeight)
    {
      hr := Next();
      issued := issued + 1;
      log := log + [Entry(op, hr)];
      if op.ResizeBuffers? && hr == Ok {
        bufferWidth, bufferHeight := op.width, op.height;
      }
    }

    /** One call, fallible or not, with the conventions of Call and Record. */
    method Issue(op: Op) returns (ok: bool)
      modifies this
      ensures Ran(old(log), [op], ok, log)
      ensures ok <==> !Fallible(op) || old(Next()) == Ok
      ensures issued == old(issued) + (if Fallible(op) then 1 else 0)
      ensures op.ResizeBuffers? && ok ==> bufferWidth == op.width && bufferHeight == op.height
      ensures !(op.ResizeBuffers? && ok) ==> bufferWidth == old(bufferWidth) && bufferHeight == old(bufferHeight)
    {
      if Fallible(op) {
        var hr := Call(op);
        ok := hr == Ok;
        if !ok {
          assert [op][..0] == [];
        }
      } else {
        Record(op);
        ok := true;
      }
    }

    /** The calls `ops` in order, stopping at the first failure; a successful
        ResizeBuffers is not among them. */
    method Run(ops: seq<Op>) returns (ok: bool)
      requires forall i :: 0 <= i < |ops| ==> !ops[i].ResizeBuffers?
      modifies this
      ensures Ran(old(log), ops, ok, log)
      ensures (forall i :: 0 <= i < |ops| ==> !Fallible(ops[i])) ==> ok && issued == old(issued)
      ensures bufferWidth == old(bufferWidth) && bufferHeight == old(bufferHeight)
    {
      ok := true;
      var i := 0;
      assert ops[..0] == [];
      while i < |ops|
        invariant 0 <= i <= |ops|
        invariant Ran(old(log), ops[..i], true, log)
        invariant bufferWidth == old(bufferWidth) && bufferHeight == old(bufferHeight)
        invariant (forall j :: 0 <= j < i ==> !Fallible(ops[j])) ==> issued == old(issued)
      {
        ghost var middle := log;
        ok := Issue(ops[i]);
        assert ops[..i + 1] == ops[..i] + [ops[i]];
        RanThen(old(log), ops[..i], middle, [ops[i]], ok, log);
        if !ok {
          RanAbort(old(log), ops[..i + 1], ops[i + 1..], log);
          assert ops[..i + 1] + ops[i + 1..] == ops;
          return;
        }
        i := i + 1;
      }
      assert ops[..i] == ops;
    }

    /** A call without a result. */
    method Record(op: Op)
      requires !Fallible(op)
      modifies this
      ensures issued == old(issued) && bufferWidth == old(bufferWidth) && bufferHeight == old(bufferHeight)
      ensures log == old(log) + [Entry(op, Ok)]
    {
      log := log + [Entry(op, Ok)];
    }
  }
}
