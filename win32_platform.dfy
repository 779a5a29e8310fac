/** The Win32 platform layer: the back buffer it owns (a device-independent
    bitmap section), the window procedure's `running` transitions and the
    frame loop of WinMain.

    Calls into the operating system are abstracted: VirtualAlloc and
    VirtualFree become ghost bookkeeping of live regions, GetClientRect's
    answer is a parameter, window creation is a boolean parameter, and the
    message queue is a finite sequence of per-frame batches of message tags. */
module Win32Platform {
  import opened GameHeader
  import Game

  /** sizeof(BITMAPINFOHEADER). */
  const BITMAPINFOHEADER_SIZE: int := 40
  /** Uncompressed RGB. */
  const BI_RGB: int := 0
  /** The back buffer size WinMain allocates once, at start-up. */
  const BACKBUFFER_WIDTH: int := 1280
  const BACKBUFFER_HEIGHT: int := 720

  /** The BITMAPINFOHEADER fields. */
  datatype BitmapInfoHeader = BitmapInfoHeader(
    biSize: int,
    biWidth: int,
    biHeight: int,
    biPlanes: int,
    biBitCount: int,
    biCompression: int,
    biSizeImage: int,
    biXPelsPerMeter: int,
    biYPelsPerMeter: int,
    biClrUsed: int,
    biClrImportant: int)

  /** A zero-initialised header, as in the zero-initialised global back buffer. */
  function ZeroHeader(): (z: BitmapInfoHeader) {
    BitmapInfoHeader(0, 0, 0, 0, 0, 0, 0, 0, 0, 0, 0)
  }

  /** Freshly committed memory: `n` zero pixels. */
  function Blank(n: nat): (s: seq<u32>)
    ensures |s| == n && forall i :: 0 <= i < n ==> s[i] == 0
  {
    seq(n, _ => 0)
  }

  /** One request made of the virtual-memory allocator. */
  datatype AllocEvent =
    | Released(region: array<u32>)
    | Committed(region: array<u32>, bytes: int)

  /** win32_bmp_buffer: the bitmap header, the pixel memory and its geometry. */
  class BmpBuffer {
    var info: BitmapInfoHeader
    var memory: array?<u32>
    var width: int
    var height: int
    var pitch: int
    var pixelSizeInBytes: int
    /** Regions the allocator has committed and not yet released, with their
        sizes in bytes. Only this buffer allocates. */
    ghost var live: map<array<u32>, int>
    /** Every request made of the allocator, oldest first. */
    ghost var allocLog: seq<AllocEvent>

    /** Either nothing has been allocated yet (the zero-initialised global),
        or exactly one region of `width * height * 4` bytes is live and it is
        `memory`, with the pitch of a tightly packed row. */
    ghost predicate Valid()
      reads this
    {
      if memory == null then
        live == map[] && width == 0 && height == 0 && pitch == 0
      else
        live == map[memory := width * height * pixelSizeInBytes] &&
        0 <= width && 0 <= height && pixelSizeInBytes == 4 && pitch == width * 4 &&
        memory.Length == width * height
    }

    /** The buffer as the renderer sees it. */
    function View(): (v: OffscreenBuffer)
      reads this
      ensures v.memory == memory && v.width == width && v.height == height && v.pitch == pitch
    {
      OffscreenBuffer(memory, width, height, pitch)
    }

    /** The zero-initialised global `backbuf`. */
    constructor ()
      ensures Valid()
      ensures memory == null && info == ZeroHeader()
      ensures width == 0 && height == 0 && pitch == 0 && pixelSizeInBytes == 0
      ensures live == map[] && allocLog == []
    {
      info := ZeroHeader();
      memory := null;
      width, height, pitch, pixelSizeInBytes := 0, 0, 0, 0;
      live := map[];
      allocLog := [];
    }

    /** win32_resize_dbi_section: releases the old region if there is one,
        records the new geometry, fills a top-down 32-bit header and commits
        exactly `w * h * 4` fresh, zeroed bytes. */
    method ResizeDibSection(w: int, h: int)
      requires Valid()
      requires 0 <= w && 0 <= h && w * h * 4 <= INT32_MAX
      modifies this
      ensures Valid()
      ensures width == w && height == h && pixelSizeInBytes == 4 && pitch == w * 4
      ensures info == BitmapInfoHeader(BITMAPINFOHEADER_SIZE, w, -h, 1, 32, BI_RGB, 0, 0, 0, 0, 0)
      ensures memory != null && fresh(memory) && memory.Length == w * h
      ensures forall i :: 0 <= i < memory.Length ==> memory[i] == 0
      ensures live == map[memory := w * h * 4]
      ensures old(memory) != null ==> old(memory) !in live
      ensures allocLog == old(allocLog)
                          + (if old(memory) != null then [Released(old(memory))] else [])
                          + [Committed(memory, w * h * 4)]
    {
      if memory != null {
        // release the old region
        live := live - {memory};
        allocLog := allocLog + [Released(memory)];
      }
      width := w;
      height := h;
      pixelSizeInBytes := 4;
      info := BitmapInfoHeader(BITMAPINFOHEADER_SIZE, width, -height, 1, 32, BI_RGB, 0, 0, 0, 0, 0);
      var bitmapMemorySize := width * height * pixelSizeInBytes;
      // commit `bitmapMemorySize` bytes; freshly committed pages read as zero
      memory := new u32[bitmapMemorySize / 4](_ => 0);
      live := live[memory := bitmapMemorySize];
      allocLog := allocLog + [Committed(memory, bitmapMemorySize)];
      pitch := width * pixelSizeInBytes;
    }
  }

  /** A valid back buffer can be handed to the renderer. */
  lemma ValidIsRenderable(buf: BmpBuffer)
    requires buf.Valid()
    ensures Game.Renderable(buf.View())
  {
    if buf.memory != null && buf.width > 0 && buf.height > 0 {
      assert buf.pitch / 4 == buf.width;
      assert (buf.height - 1) * buf.width + buf.width == buf.width * buf.height;
    }
  }

  /** render_cool_gradient of the platform layer: the same nested loops over
      the buffer's rows, stepped by its pitch. */
  method RenderCoolGradient(buf: BmpBuffer, xOffset: int, yOffset: int)
    requires Game.Renderable(buf.View())
    modifies buf.memory
    ensures buf.memory != null ==>
      buf.memory[..] == Game.Rendered(old(buf.memory[..]), buf.width, buf.height, buf.pitch / 4, xOffset, yOffset)
  {
    Game.RenderCoolGradient(buf.View(), xOffset, yOffset);
  }

  /** A client rectangle, as GetClientRect reports it. */
  datatype Rect = Rect(left: int, top: int, right: int, bottom: int)

  datatype WindowDimension = WindowDimension(width: int, height: int)

  /** win32_get_window_dimension: the size of the client rectangle. */
  function GetWindowDimension(clientRect: Rect): (d: WindowDimension)
    ensures clientRect.left + d.width == clientRect.right
    ensures clientRect.top + d.height == clientRect.bottom
  {
    WindowDimension(clientRect.right - clientRect.left, clientRect.bottom - clientRect.top)
  }

  /** The rectangle GetClientRect reports for a client area of size `d`:
      client coordinates start at the top-left corner (0, 0). */
  function ClientRectOf(d: WindowDimension): (r: Rect)
    ensures r.left == 0 && r.top == 0
  {
    Rect(0, 0, d.width, d.height)
  }

  /** The dimension read back from a client rectangle is the size it was
      made from, and a client rectangle is rebuilt from its dimension. */
  lemma WindowDimensionRoundTrip(d: WindowDimension, r: Rect)
    ensures GetWindowDimension(ClientRectOf(d)) == d
    ensures r.left == 0 && r.top == 0 ==> ClientRectOf(GetWindowDimension(r)) == r
  {
  }

  /** The dimension depends only on the rectangle's extent, not on where it
      lies: moving it by (dx, dy) keeps its dimension, and a rectangle is
      determined by its top-left corner and its dimension. */
  lemma WindowDimensionMoves(r: Rect, dx: int, dy: int)
    ensures GetWindowDimension(Rect(r.left + dx, r.top + dy, r.right + dx, r.bottom + dy))
         == GetWindowDimension(r)
    ensures forall q: Rect :: q.left == r.left && q.top == r.top && GetWindowDimension(q) == GetWindowDimension(r)
              ==> q == r
  {
  }

  /** The message tags the platform layer distinguishes; every other message
      is `Other`. */
  datatype Message =
    | WmSize
    | WmDestroy
    | WmClose
    | WmActivateApp
    | WmPaint
    | WmQuit
    | Other(code: int)

  /** The messages after which the frame loop does not start another frame. */
  predicate StopsLoop(m: Message) {
    m.WmClose? || m.WmDestroy? || m.WmQuit?
  }

  /** `running` after the window procedure has handled `m`. */
  function RunningAfterCallback(running: bool, m: Message): (r: bool)
    ensures r == (running && !(m.WmClose? || m.WmDestroy?))
  {
    match m
    case WmDestroy => false
    case WmClose => false
    case _ => running
  }

  /** `running` after the message loop has taken `m` off the queue. WM_QUIT
      clears the flag; it belongs to no window, so dispatching it reaches no
      window procedure. Every other message is handled by the window
      procedure. */
  function RunningAfterMessage(running: bool, m: Message): (r: bool)
    ensures r == (running && !StopsLoop(m))
  {
    if m.WmQuit? then false else RunningAfterCallback(running, m)
  }

  /** `running` after a whole batch of messages has been drained, in order. */
  function RunningAfterDrain(running: bool, queue: seq<Message>): (r: bool)
    decreases |queue|
  {
    if queue == [] then running
    else RunningAfterDrain(RunningAfterMessage(running, queue[0]), queue[1..])
  }

  /** No message of the batch stops the loop. */
  predicate KeepsRunning(queue: seq<Message>) {
    forall i :: 0 <= i < |queue| ==> !StopsLoop(queue[i])
  }

  /** Draining a batch leaves `running` set exactly when it was set before
      and no WM_CLOSE, WM_DESTROY or WM_QUIT was among the messages. */
  lemma {:induction false} RunningAfterDrainIff(running: bool, queue: seq<Message>)
    ensures RunningAfterDrain(running, queue) == (running && KeepsRunning(queue))
    decreases |queue|
  {
    if queue != [] {
      RunningAfterDrainIff(RunningAfterMessage(running, queue[0]), queue[1..]);
      assert KeepsRunning(queue) == (!StopsLoop(queue[0]) && KeepsRunning(queue[1..])) by {
        if KeepsRunning(queue[1..]) && !StopsLoop(queue[0]) {
          forall i | 0 <= i < |queue| ensures !StopsLoop(queue[i]) {
            if i > 0 {
              assert queue[i] == queue[1..][i - 1];
            }
          }
        }
      }
    }
  }

  /** The process-wide state of the platform layer: the `running` flag and
      the back buffer, both globals in the program. */
  class Win32App {
    var running: bool
    var backbuf: BmpBuffer
    /** The scroll offsets of every frame rendered so far, in order. */
    ghost var frameOffsets: seq<(int, int)>

    ghost predicate Valid()
      reads this`backbuf, backbuf
    {
      backbuf.Valid()
    }

    /** The zero-initialised globals before WinMain runs. */
    constructor ()
      ensures Valid() && fresh(backbuf)
      ensures !running && backbuf.memory == null && frameOffsets == []
      ensures backbuf.info == ZeroHeader() && backbuf.pixelSizeInBytes == 0
      ensures backbuf.live == map[] && backbuf.allocLog == []
    {
      running := false;
      backbuf := new BmpBuffer();
      frameOffsets := [];
    }

    /** win32_main_window_callback: WM_CLOSE and WM_DESTROY clear `running`;
        WM_SIZE, WM_ACTIVATEAPP and WM_PAINT leave it alone and answer 0;
        anything else goes to the default window procedure, whose answer is
        `defaultResult`. */
    method MainWindowCallback(message: Message, defaultResult: int) returns (result: int)
      modifies this`running
      ensures running == RunningAfterCallback(old(running), message)
      ensures result == if message.Other? || message.WmQuit? then defaultResult else 0
    {
      result := 0;
      match message {
        case WmSize =>
        case WmDestroy =>
          running := false;
        case WmClose =>
          running := false;
        case WmActivateApp =>
        case WmPaint =>
        case WmQuit =>
          result := defaultResult;
        case Other(_) =>
          result := defaultResult;
      }
    }

    /** The inner PeekMessage loop of WinMain: every pending message is
        checked for WM_QUIT and then dispatched. WM_QUIT carries no window,
        so only the other messages reach the window procedure. */
    method DrainMessages(queue: seq<Message>)
      modifies this`running
      ensures running == RunningAfterDrain(old(running), queue)
    {
      var i := 0;
      while i < |queue|
        invariant 0 <= i <= |queue|
        invariant running == (old(running) && KeepsRunning(queue[..i]))
      {
        var message := queue[i];
        if message.WmQuit? {
          running := false;
        } else {
          // dispatch to the window procedure, whose answer is discarded
          var _ := MainWindowCallback(message, 0);
        }
        assert queue[..i + 1] == queue[..i] + [message];
        i := i + 1;
      }
      assert queue[..i] == queue;
      RunningAfterDrainIff(old(running), queue);
    }

    /** One pass of the frame loop: drain the pending messages, render the
        gradient at the current offsets. */
    method Frame(queue: seq<Message>, xOffset: int, yOffset: int)
      requires Valid() && backbuf.memory != null
      modifies this`running, this`frameOffsets, backbuf.memory
      ensures running == (old(running) && KeepsRunning(queue))
      ensures frameOffsets == old(frameOffsets) + [(xOffset, yOffset)]
      ensures backbuf.memory[..] == Game.Rendered(old(backbuf.memory[..]), backbuf.width, backbuf.height,
                                                  backbuf.pitch / 4, xOffset, yOffset)
    {
      DrainMessages(queue);
      RunningAfterDrainIff(old(running), queue);
      ValidIsRenderable(backbuf);
      RenderCoolGradient(backbuf, xOffset, yOffset);
      frameOffsets := frameOffsets + [(xOffset, yOffset)];
    }

    /** The `while (running)` loop of WinMain, entered with `running` set and
        offsets (0, 0). Each frame drains one batch of messages and renders
        with offsets (k, k) for frame k, even when that batch stopped the
        loop, then advances both offsets by one. `batches` is the finite part
        of the message stream that the model follows; the loop also ends when
        it runs out. */
    method FrameLoop(batches: seq<seq<Message>>)
      requires Valid() && backbuf.memory != null && running && frameOffsets == []
      modifies this`running, this`frameOffsets, backbuf.memory
      ensures var n := |frameOffsets|;
        n <= |batches| &&
        (forall k :: 0 <= k < n ==> frameOffsets[k] == (k, k)) &&
        (forall k :: 0 <= k < n - 1 ==> KeepsRunning(batches[k])) &&
        running == (n == |batches| && (n == 0 || KeepsRunning(batches[n - 1]))) &&
        (n > 0 ==> backbuf.memory[..] == Game.Rendered(old(backbuf.memory[..]), backbuf.width,
                                                       backbuf.height, backbuf.pitch / 4, n - 1, n - 1))
      ensures var n := |frameOffsets|; n < |batches| ==> 0 < n && !KeepsRunning(batches[n - 1])
      ensures frameOffsets == [] ==> backbuf.memory[..] == old(backbuf.memory[..])
    {
      ghost var start := backbuf.memory[..];
      ghost var w, h, p := backbuf.width, backbuf.height, backbuf.pitch / 4;
      var xOffset := 0;
      var yOffset := 0;
      var k := 0;
      while running && k < |batches|
        invariant Valid() && backbuf.memory != null
        invariant 0 <= k <= |batches|
        invariant xOffset == k && yOffset == k
        invariant |frameOffsets| == k && forall j :: 0 <= j < k ==> frameOffsets[j] == (j, j)
        invariant forall j :: 0 <= j < k - 1 ==> KeepsRunning(batches[j])
        invariant running == (k == 0 || KeepsRunning(batches[k - 1]))
        invariant k == 0 ==> backbuf.memory[..] == start
        invariant backbuf.width == w && backbuf.height == h && backbuf.pitch / 4 == p
        invariant k > 0 ==> backbuf.memory[..] == Game.Rendered(start, w, h, p, k - 1, k - 1)
      {
        Frame(batches[k], xOffset, yOffset);
        if k > 0 {
          Game.RenderedOverwrites(start, w, h, p, k - 1, k - 1, xOffset, yOffset);
        }
        xOffset := xOffset + 1;
        yOffset := yOffset + 1;
        k := k + 1;
      }
    }

    /** WinMain: if the window class registers, allocate the 1280 by 720 back
        buffer; if the window is also created, set `running` and run the frame
        loop from offsets (0, 0). The exit code is always 0. */
    method WinMain(registered: bool, windowCreated: bool, batches: seq<seq<Message>>) returns (exitCode: int)
      requires Valid()
      modifies this, backbuf
      ensures exitCode == 0
      ensures backbuf == old(backbuf) && Valid()
      ensures !registered ==> unchanged(this) && unchanged(backbuf)
      ensures registered ==>
        backbuf.width == BACKBUFFER_WIDTH && backbuf.height == BACKBUFFER_HEIGHT &&
        backbuf.pitch == BACKBUFFER_WIDTH * 4 && fresh(backbuf.memory)
      ensures registered ==>
        backbuf.info == BitmapInfoHeader(BITMAPINFOHEADER_SIZE, BACKBUFFER_WIDTH, -BACKBUFFER_HEIGHT,
                                         1, 32, BI_RGB, 0, 0, 0, 0, 0) &&
        backbuf.allocLog == old(backbuf.allocLog)
                            + (if old(backbuf.memory) != null then [Released(old(backbuf.memory))] else [])
                            + [Committed(backbuf.memory, BACKBUFFER_WIDTH * BACKBUFFER_HEIGHT * 4)]
      ensures registered && (!windowCreated || frameOffsets == []) ==>
        backbuf.memory[..] == Blank(backbuf.memory.Length)
      ensures registered && !windowCreated ==> running == old(running) && frameOffsets == old(frameOffsets)
      ensures registered && windowCreated ==>
        var n := |frameOffsets|;
        n <= |batches| &&
        (forall k :: 0 <= k < n ==> frameOffsets[k] == (k, k)) &&
        (forall k :: 0 <= k < n - 1 ==> KeepsRunning(batches[k])) &&
        running == (n == |batches| && (n == 0 || KeepsRunning(batches[n - 1]))) &&
        (n > 0 ==> backbuf.memory[..] == Game.Rendered(Blank(backbuf.memory.Length), backbuf.width,
                                                       backbuf.height, backbuf.pitch / 4, n - 1, n - 1)) &&
        (n < |batches| ==> 0 < n && !KeepsRunning(batches[n - 1]))
    {
      if registered {
        backbuf.ResizeDibSection(BACKBUFFER_WIDTH, BACKBUFFER_HEIGHT);
        if windowCreated {
          assert backbuf.memory[..] == Blank(backbuf.memory.Length);
          running := true;
          frameOffsets := [];
          FrameLoop(batches);
        }
      }
      exitCode := 0;
    }
  }
}
