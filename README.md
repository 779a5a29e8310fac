# Handmade-hero platform core, modelled in Dafny

This is a model of a small Windows game skeleton. It has two layers.

- **Game layer** (`GameHeader`, `Game`). It fills an offscreen buffer with a scrolling gradient.
  - Each pixel is a 32-bit word `(g << 8) | b`.
  - `b` is the column plus the horizontal offset, truncated to 8 bits.
  - `g` is the row plus the vertical offset, truncated to 8 bits.
  - Rows start `pitch` bytes apart.
  - The header also defines the `GET_BIT` bit-test macro and the `offscreen_buffer` record.
- **Platform layer** (`Win32Platform`). It owns a global back buffer, which is a device-independent bitmap section, and a global `running` flag.
  - The back buffer is reallocated by `win32_resize_dbi_section`.
  - The window procedure clears `running` on WM_CLOSE and WM_DESTROY.
  - WinMain allocates a 1280 by 720 back buffer once the window class registers. If the window was also created, it runs the frame loop.
  - Each frame drains the pending messages, setting `running` to false on WM_QUIT. It then renders the gradient at offsets `(k, k)` for frame `k`, and advances both offsets.
  - `while (running)` is tested only at the top of the loop, so the frame in which a close arrives is still rendered. The loop ends after that frame.
  - WM_SIZE only logs. There is no input layer and no fatal path for a failed allocation.

How the model represents this:

- Pixel memory is an `array<u32>`, and pitch is kept in bytes as in the source. The renderer walks the array in steps of `pitch / 4` pixels.
- The renderer is two nested `while` loops. They are proved against `Game.Rendered`, a function that gives the whole rendered picture.
- The back buffer is a class whose fields are reassigned by `ResizeDibSection`.
- The virtual-memory allocator becomes ghost bookkeeping:
  - the map of live regions and their sizes in bytes;
  - a log of release and commit events.
- The message queue is a finite sequence of per-frame batches of message tags.
- Operating-system answers are parameters: whether registration and window creation succeed, the client rectangle, and the default window procedure's result.

## Model

| member | source | states |
|---|---|---|
| GameHeader.GetBit | src/main.h:11 | `GET_BIT(v, p)` is either 0 or exactly `1 << p`. It is non-zero iff bit `p` of the 32-bit two's-complement pattern of `v` is set. It is 0 when `v` is 0. |
| GameHeader.BitAndPow2 | src/main.h:11 | AND-ing a number with `1 << p` keeps exactly bit `p` of it: the result is `1 << p` if that bit is set, otherwise 0. |
| GameHeader.Bits32 | src/main.h:11 | The bit pattern of a C `int` is below 2^32. It equals `v` for non-negative `v` and `v + 2^32` for negative `v`. |
| GameHeader.BitOrDisjoint | src/main.cpp:14 | OR-ing a number below `1 << k` into a value shifted left by `k` is plain addition, because the two share no bit. |
| GameHeader.ShiftLeftIsProduct | src/main.cpp:14 | `a << k` is `a * 2^k`. |
| Game.Wrap8Congruent | src/main.cpp:8-9 | The conversion of `x + x_offset` to `u8` keeps values from 0 to 255 as they are and ignores whole multiples of 256. |
| Game.PixelValue | src/main.cpp:8-14 | The stored word `(g << 8) \| b` is below 0x1_0000: the red byte and the top byte are zero. |
| Game.GradientValue | src/main.cpp:8-14 | The pixel word is below 0x1_0000. Its second byte is `(y + yOffset) mod 256`, and its low byte is `(x + xOffset) mod 256`. |
| Game.PixelValueIsGradient | src/main.cpp:8-14 | The word the renderer stores, `(u8(y + yOffset) << 8) \| u8(x + xOffset)`, equals the gradient value. |
| Game.RenderCoolGradient | src/main.cpp:3-19 | After the nested row and column loops, the buffer's memory is exactly `Rendered` of its old contents. Every pixel `(x, y)` with `x < width` and `y < height`, at index `y * pitch/4 + x`, holds the gradient value. Every other word keeps its old value. |
| Game.GameUpdateAndRender | src/main.cpp:21-23 | A game frame is the gradient at phase (0, 0). |
| Game.RenderedPixel | src/main.cpp:5-17 | In the rendered picture, pixel `(x, y)` at index `y * p + x` is the gradient value, and it is below 0x1_0000. |
| Game.RenderedKeepsPadding | src/main.cpp:5-17 | Words between the end of a row's `width` pixels and the next row start are not written. |
| Game.RenderedKeepsTail | src/main.cpp:5-17 | No word from index `height * p` on is written. |
| Game.RenderedOffsetWraps | src/main.cpp:8-9 | Adding 256 to either offset renders the same picture, because of the 8-bit truncation. |
| Game.GradientWraps | src/main.cpp:8-9 | The gradient value of a pixel repeats with period 256 in either offset. |
| Game.RenderedShiftColumn | src/main.cpp:8-14 | Pixel `x + 1` equals pixel `x` rendered with a horizontal offset one larger: the picture scrolls by whole columns. |
| Game.RenderedShiftRow | src/main.cpp:9-17 | Pixel `(x, y + 1)` equals pixel `(x, y)` rendered with a vertical offset one larger. |
| Game.RenderedOverwrites | src/main.cpp:3-19 | Rendering over a rendered picture gives the same result as rendering over the original: nothing of the earlier frame shows through. |
| Game.GameFramePixel | src/main.cpp:21-23 | After a game frame, pixel `(x, y)` is `(y mod 256) * 256 + x mod 256`. |
| Game.GameFrameTopLeft | src/main.cpp:21-23 | In a 4 by 3 game frame, pixel 0 is 0. |
| Game.GameFrameCorner | src/main.cpp:21-23 | In a 4 by 3 game frame, pixel (3, 2) is 0x0203. |
| Game.WrapExample | src/main.cpp:8-14 | A 2 by 1 picture at horizontal offset 255 is `[0xFF, 0x00]`: blue wraps from 255 to 0. |
| Win32Platform.BmpBuffer.constructor | src/win32_main.cpp:20-34 | The zero-initialised global back buffer has no memory, zero geometry, and nothing allocated. |
| Win32Platform.BmpBuffer.ResizeDibSection | src/win32_main.cpp:69-92 | Any old region is released and is no longer live. The geometry becomes `w` by `h`, with 4 bytes per pixel and pitch `w * 4`. The header becomes `(40, w, -h, 1, 32, BI_RGB)` with all other fields zero. A fresh zeroed region of exactly `w * h * 4` bytes is committed, and it is the only live region. The allocation log grows by the release, if there was one, and then the commit. |
| Win32Platform.ValidIsRenderable | src/win32_main.cpp:89-91 | A back buffer sized by the resize (tightly packed, `width * height` pixels) satisfies everything the renderer needs. |
| Win32Platform.RenderCoolGradient | src/win32_main.cpp:46-62 | The platform layer's copy of the renderer leaves the back buffer's memory as `Rendered` of its old contents. |
| Win32Platform.GetWindowDimension | src/win32_main.cpp:36-44 | The width and height span the client rectangle (`left + width == right`, `top + height == bottom`). Its partner is `WindowDimensionRoundTrip`, a round trip with the client rectangle of a given size. |
| Win32Platform.WindowDimensionRoundTrip | src/win32_main.cpp:36-44 | The dimension read back from a client rectangle (top-left corner at (0, 0), as GetClientRect reports it) of size `d` is `d`. Conversely, such a rectangle is rebuilt from its dimension. |
| Win32Platform.WindowDimensionMoves | src/win32_main.cpp:36-44 | The dimension depends only on the rectangle's extent: moving the rectangle keeps it, and two rectangles with the same top-left corner and the same dimension are equal. |
| Win32Platform.RunningAfterCallback | src/win32_main.cpp:115-151 | After the window procedure, `running` is set iff it was set and the message was neither WM_CLOSE nor WM_DESTROY. |
| Win32Platform.RunningAfterMessage | src/win32_main.cpp:192-199 | After the drain loop handles one message, `running` is set iff it was set and the message was not WM_CLOSE, WM_DESTROY or WM_QUIT. |
| Win32Platform.RunningAfterDrainIff | src/win32_main.cpp:192-199 | After a whole batch is drained, `running` is set iff it was set before and no message of the batch stops the loop. |
| Win32Platform.Win32App.constructor | src/win32_main.cpp:33-34 | Before WinMain runs, `running` is false. The back buffer is the zero-initialised global: no memory, zero geometry, zero pixel size, the all-zero header, no live region and an empty allocation log. |
| Win32Platform.Win32App.MainWindowCallback | src/win32_main.cpp:107-154 | WM_CLOSE and WM_DESTROY clear `running`; other messages leave it alone. Unhandled messages return the default procedure's answer; the rest return 0. (WM_QUIT carries no window, so the drain loop never hands it to this procedure.) |
| Win32Platform.Win32App.DrainMessages | src/win32_main.cpp:192-199 | The PeekMessage loop leaves `running` as the fold of `RunningAfterMessage` over the batch. |
| Win32Platform.Win32App.Frame | src/win32_main.cpp:189-209 | One pass of the loop clears `running` exactly when the batch holds a stopping message. Its offsets are recorded, and the back buffer ends up as the gradient at those offsets. |
| Win32Platform.Win32App.FrameLoop | src/win32_main.cpp:186-210 | Frame `k` renders with offsets `(k, k)`, and every frame before the last keeps running. The loop ends early only when the last rendered frame's batch held WM_CLOSE, WM_DESTROY or WM_QUIT, and that frame is still rendered. `running` is still set exactly when the batches ran out with no stop. The back buffer shows the last frame's gradient. |
| Win32Platform.Win32App.WinMain | src/win32_main.cpp:156-215 | The exit code is always 0. With no registered class, neither the application state nor the back buffer changes. Once the class registers, the back buffer is resized to 1280 by 720, whether or not the window was created. That resize sets the top-down 32-bit header `(40, 1280, -720, 1, 32, BI_RGB)`, and the allocation log grows by the release of any old region, then the commit of 1280 * 720 * 4 bytes. The buffer stays all zero when no frame is rendered. If the window was created, the frame loop runs over the blank buffer with the `FrameLoop` guarantees, including that it ends early only because of a stopping message. |

## Left out

- Window class registration, window creation, GetDC/ReleaseDC, BeginPaint/EndPaint and TranslateMessage are not modelled. They are operating-system calls: their outcomes are parameters or nothing.
- `win32_display_buffer` (StretchDIBits) and the WM_PAINT redraw are not modelled. They copy pixels to the screen, which has no state in the model. The argument comments in that function have the source and destination rectangles the wrong way round; this makes no difference to the model.
- OutputDebugStringA calls are not modelled, because they are debugger output only.
- `PI_32`, the float typedefs and the `internal`/`local_persist`/`global_var` macros are not modelled. They are unused by the core.
- `BITMAPINFO.bmiColors` is not modelled; for 32-bit BI_RGB bitmaps it is unused.
- Win32Platform.BmpBuffer.ResizeDibSection assumes VirtualAlloc always returns a region of zeroed memory. The source does not check the result. Two cases are therefore not represented:
  - a failed request, which leaves `memory` null while the geometry says `w` by `h`;
  - a zero-byte request (`w` or `h` zero), which VirtualAlloc answers with null. The model returns an empty, non-null array instead.
- Win32Platform.BmpBuffer.ResizeDibSection requires `0 <= w`, `0 <= h` and `w * h * 4` to fit in an `int`. The source relies on this without checking it, and WinMain only calls it with 1280 by 720.
- Game.RenderCoolGradient requires, through `Game.Renderable`:
  - `pitch` is a multiple of 4;
  - for a non-empty picture, the memory is non-null;
  - `width <= pitch / 4`, so rows do not overlap;
  - the memory holds `height` rows.
  
  The source does not check any of these; it just writes through the pointer. Writes through a null or out-of-bounds pointer are undefined behaviour there and are not modelled.
- GameHeader.GetBit covers only an `int` operand and bit positions below 31:
  - at position 31 the mask `1 << 31` is INT_MIN;
  - the macro itself is type-generic and also applies to other integer types.
- Game.PixelValue does not model overflow of the C `int` in `x + x_offset` or `y + y_offset`. Integers are unbounded, and only the truncation to `u8` is written out.
- Win32Platform.Win32App.FrameLoop does not model the `int` offsets overflowing after 2^31 frames, and Win32Platform.WindowDimensionRoundTrip does not model overflow of `right - left`.
- Win32Platform.Win32App.FrameLoop sees a finite prefix of the message stream: the loop also stops when the batches run out. Messages sent directly to the window procedure, outside the queue, are treated as drained with the batch.
- Win32Platform.Win32App.MainWindowCallback does not model the default window procedure. Its result is the `defaultResult` parameter, and its side effects are part of the host's message stream. For example, DefWindowProc turns WM_SYSCOMMAND/SC_CLOSE into a WM_CLOSE sent to the window procedure; in the model that WM_CLOSE is one more message of the batch.
- Concurrency and timing are not modelled. The loop is single-threaded in the source.
