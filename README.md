# boxcutter, modelled in Dafny

boxcutter is a small Windows screenshot tool. `boxcutter [options] [file]`
takes a region of the screen and saves it as a .bmp file, or puts it on the
clipboard when no file is given. The region comes from `-c x1,y1,x2,y2`,
from `-f` (the whole virtual screen), or from a rectangle the user drags
with the mouse in a full-screen transparent window. `boxcutter-fs file`
captures the whole virtual screen into a file. The same bitmap writer,
`save_bitmap_file`, appears three times in the repository (boxcutter.cpp,
boxcutter-fs.cpp, bmp.cpp). The three copies differ only in their
diagnostics, so one model covers all three.

The project models:

- `bytes.dfy` (`Bytes`): bytes, `Option`, and the little-endian WORD and
  DWORD layouts with their decoders.
- `bmp.dfy` (`Bmp`): the header arithmetic of `save_bitmap_file`:
  - the colour-depth ladder and the WORD cast before it;
  - `biClrUsed` and `biSizeImage`;
  - BITMAPFILEHEADER and BITMAPINFOHEADER and their byte layout;
  - a reader that parses the headers back, used to state round trips.
- `save.dfy` (`SaveBitmap`): the step sequence of `save_bitmap_file`.
  - Each Win32 call is an oracle answer.
  - The file system, the live GlobalAlloc blocks and the open handles form a
    value that the method threads through the steps.
- `capture.dfy` (`Capture`):
  - `normalize_coords`;
  - both `capture_screen` variants and `capture_screen_clipboard`;
  - the call order of the clipboard protocol;
  - the screen rectangle built from the virtual-screen metrics.
- `window.dfy` (`Selection`):
  - the fields the `BoxCutterWindow` mouse callbacks update, as a class with
    those fields;
  - a value-level transition function that the callbacks are proved
    against;
  - `main_loop`, which stops at the first button-up;
  - what a run of mouse events leaves in `have_coords` and `get_coords`.
- `cmdline.dfy` (`CommandLine`):
  - the `sscanf("%d,%d,%d,%d")` scanner, and a renderer it round-trips with;
  - the option loop of `main` and what it decides;
  - `main` and its exit codes;
  - `boxcutter-fs`'s `main`.

## Model

| member | source | states |
|---|---|---|
| Bytes.Dec16Le16 | boxcutter.cpp:144-145 | A WORD header field reads back as its value modulo 2^16. |
| Bytes.Dec32Le32 | boxcutter.cpp:141-143 | A DWORD header field reads back as its value modulo 2^32. |
| Bmp.DepthClass | boxcutter.cpp:113-123 | The ladder's result is one of 1, 4, 8, 16, 24 or 32. For 1..32 bits it is the smallest such class holding the bit count. 0 goes to 4, and anything above 24 goes to 32. |
| Bmp.WordProduct | boxcutter.cpp:112 | `(WORD)(planes * bitsPixel)` is below 2^16 and equals the product when the product fits. |
| Bmp.ColorBits | bmp.cpp:70-81 | cClrBits is always a depth class. |
| Bmp.ClrUsedFor | boxcutter-fs.cpp:107-108 | The palette count is 0 exactly at 24 and 32 bits, where it keeps the zero that LPTR allocation left. It is 2, 16, 256 and 65536 at 1, 4, 8 and 16 bits. |
| Bmp.ClrUsed | boxcutter.cpp:147-148 | biClrUsed never exceeds 65536. |
| Bmp.SizeImage | boxcutter.cpp:155-156 | biSizeImage is ((width + 7) / 8) · height · cClrBits, reduced modulo 2^32 to fit its DWORD. It is below 2^32, and 0 for an empty bitmap. |
| Bmp.SizeImageCoversPixels | bmp.cpp:113-114 | If the DWORD does not wrap, 8 × biSizeImage covers width·height·cClrBits bits. For a non-zero height it falls short of (width+8)·height·cClrBits. It is exact when the width is a multiple of 8. |
| Bmp.RowPadding | boxcutter.cpp:155-156 | Rounding a row of w pixels up to a multiple of 8 covers the row, adds less than 8 pixels when there is at least one row, and adds nothing when w is a multiple of 8. |
| Bmp.FileHeaderFields | boxcutter.cpp:205-215 | bfType is "BM" and both reserved words are 0. bfOffBits = 14 + 40 + 4·biClrUsed, at most 54 + 4·65536. bfSize = bfOffBits + biSizeImage as a DWORD. |
| Bmp.EncodeFileHeader | boxcutter.cpp:218-219 | The file header write is exactly 14 bytes. |
| Bmp.EncodeInfoHeader | boxcutter.cpp:227-228 | The info header occupies exactly 40 bytes of the second write. |
| Bmp.FileHeaderRoundTrip | boxcutter.cpp:205-224 | A "BM" file header whose fields fit parses back to itself from the front of any byte sequence. |
| Bmp.InfoHeaderRoundTrip | boxcutter.cpp:141-160 | An info header whose fields fit parses back to itself from the front of any byte sequence. |
| Bmp.InfoHeaderOfFits | boxcutter.cpp:141-160 | Every field the function sets fits its WORD or DWORD slot. |
| Bmp.MagicBytes | boxcutter.cpp:205 | 0x4d42 is laid out as the bytes 'B', 'M'. |
| Bmp.PayloadSizes | boxcutter.cpp:218-244 | The three writes carry 14, 40 + 4·biClrUsed and biSizeImage bytes. |
| Bmp.ImageSize | bmp.cpp:163-202 | The saved file is bfOffBits + biSizeImage bytes long. bfSize is that length modulo 2^32, so it equals the length below 2^32. The pixel buffer starts at bfOffBits. |
| Bmp.FileHeaderReadBack | boxcutter-fs.cpp:162-181 | A saved file starts with "BM", and its first 14 bytes parse back as the file header computed from the info header. |
| Bmp.InfoHeaderReadBack | boxcutter-fs.cpp:183-190 | The 40 bytes after the file header parse back as the info header computed from the bitmap. |
| Bmp.ImageHeadersReadBack | boxcutter-fs.cpp:162-198 | A saved file starts with "BM". Both headers read back as computed: width, height and bit count survive. |
| SaveBitmap.FillInfoHeader | boxcutter.cpp:139-160 | Filling the zeroed info header field by field gives the header the arithmetic above defines. |
| SaveBitmap.FillFileHeader | boxcutter.cpp:205-215 | The file header is filled from the finished info header. |
| SaveBitmap.CreateFile | boxcutter.cpp:193-204 | CREATE_ALWAYS leaves the named file empty with one more open handle. On failure nothing changes. |
| SaveBitmap.WriteFile | boxcutter.cpp:218-224 | WriteFile returns TRUE exactly when the oracle does not report a failure, which includes a short write. The file grows by the prefix of the buffer that landed. |
| SaveBitmap.WriteImage | boxcutter.cpp:217-244 | The three writes stop at the first one that returns FALSE; a short write does not stop them. The result is true exactly when none returns FALSE. The file then holds what landed of each buffer that was written, in order. |
| SaveBitmap.SaveBitmapFile | boxcutter.cpp:99-258 | Returns true exactly when every call succeeds. The world afterwards is EnvAfterSave: the partial file is left behind, and so are the unfreed block and the unclosed handle on every failure path. |
| SaveBitmap.WrittenBounds | boxcutter.cpp:218-244 | The writes never put more than the full image on disk. |
| SaveBitmap.SavedFileIsImage | bmp.cpp:57-216 | After a successful save in which every write wrote its whole buffer, the file is exactly the image. Its length is bfOffBits + biSizeImage, equal to bfSize below 2^32. Its headers parse back, and its pixels start at bfOffBits. |
| SaveBitmap.ShortWriteGoesUnnoticed | boxcutter.cpp:218-244 | The number of bytes written is never read: when every call returns TRUE but some write wrote less than its buffer, the save still returns true and leaves a file shorter than the image. |
| SaveBitmap.EarlyFailureTouchesNoFile | boxcutter.cpp:107-204 | A failure before or at CreateFile creates no file and opens no handle. It leaks the pixel block exactly when GlobalAlloc had succeeded. |
| SaveBitmap.FailedWriteLeavesPrefix | boxcutter-fs.cpp:175-198 | Once the file is created, and no write returns TRUE short of its buffer, the file holds a prefix of the image. A write that returns FALSE short of its buffer leaves the file shorter than the image. |
| Capture.Normalized | boxcutter.cpp:264-276 | Both pairs come out ordered, and each pair keeps its two values. Ordered pairs are left alone. |
| Capture.NormalizeCoords | boxcutter.cpp:264-276 | The two conditional swaps through the pointers leave the corners ordered, permuted within each pair, and equal to Normalized. |
| Capture.NormalizedIdempotent | boxcutter.cpp:264-276 | Normalising twice is normalising once. |
| Capture.NormalizedUnique | boxcutter.cpp:264-276 | Normalized is the only ordered rearrangement of each pair. |
| Capture.RegionOf | boxcutter.cpp:295-297 | The blit starts at (x, y) and spans w = x2 - x and h = y2 - y. |
| Capture.NormalizedRegion | boxcutter.cpp:295-308 | After normalising, the blit starts at the smaller coordinates. Its width and height are the absolute distances, never negative. |
| Capture.RawRegionAgreesWhenOrdered | boxcutter-fs.cpp:217-228 | Without normalisation the region matches on ordered corners. Otherwise it has a negative width or height. |
| Capture.EnvAfterCapture | boxcutter.cpp:305-308 | A failed BitBlt leaves the world untouched. |
| Capture.CaptureScreen | boxcutter.cpp:292-318 | The blit is the normalised region. The result is BitBlt && save_bitmap_file, and the world is what the save leaves, or unchanged. |
| Capture.CaptureScreenFs | boxcutter-fs.cpp:217-240 | The same without normalisation: the blit is the raw region. |
| Capture.CaptureScreenClipboard | boxcutter.cpp:323-359 | The blit is the normalised region. The result is true exactly when BitBlt, OpenClipboard, EmptyClipboard and SetClipboardData all succeed. The calls made are ClipCalls. |
| Capture.ClipboardProtocol | boxcutter.cpp:342-351 | CloseClipboard is called exactly when OpenClipboard succeeded, and then it is the last call. SetClipboardData is reached exactly through a successful open and empty. Success requires it. OpenClipboard comes first, and is reached exactly when BitBlt succeeds. |
| Capture.ScreenRect | boxcutter.cpp:279-286 | As written: left and top are the virtual-screen origin, and right and bottom are the virtual-screen sizes. |
| Capture.ScreenRectOvershoots | boxcutter-fs.cpp:242-249 | With a 1920-wide monitor left of the primary one, the rectangle as written ends at 3840 instead of 1920. A capture of it is 5760 columns wide instead of 3840. |
| Capture.VirtualScreenRect | boxcutter.cpp:279-286 | Corrected: the rectangle starts at the origin and is cx by cy. |
| Capture.VirtualScreenRegion | boxcutter.cpp:279-286 | A capture of the corrected rectangle copies exactly cx × cy from the origin. |
| Capture.ScreenRectAgreesOnlyAtOrigin | boxcutter-fs.cpp:242-249 | The rectangle as written and the corrected one agree exactly when the virtual screen starts at (0, 0). |
| Selection.Initial | boxcutter.cpp:368-375 | The constructor leaves the window active, with no drag, no drawing and no selection. |
| Selection.Step | boxcutter.cpp:512-565 | Button-up stops the window. Button-down starts a drag at the cursor. A move without a drag changes nothing. A move while dragging draws and moves the end corner. A selection, once made, is kept. |
| Selection.StepPhase | boxcutter.cpp:512-565 | Each callback keeps "drawing implies dragging". It advances the selection phase as the down→move→up automaton does. |
| Selection.RunPhase | boxcutter.cpp:512-565 | The same over any sequence of callbacks, including callbacks after a button-up, which main_loop never dispatches. |
| Selection.HaveCoordsIff | boxcutter.cpp:520-539 | After any sequence of callbacks (not only the ones main_loop dispatches), have_coords holds exactly when some button-down was followed by a move and later by a button-up. |
| Selection.RunWithoutUp | boxcutter.cpp:512-517 | Before any button-up the window stays active. m_start is the last button-down, and m_end is the last move made while the button was held. |
| Selection.FirstUpSelection | boxcutter.cpp:520-539 | At the first button-up the window stops. have_coords holds exactly when a move followed a button-down. get_coords then gives the last button-down and the last dragged move. |
| Selection.PumpPrefix | boxcutter.cpp:597-613 | Before the first button-up the message loop dispatches every event. |
| Selection.PumpStopsAtFirstUp | boxcutter.cpp:597-613 | The message loop ends at the first button-up. What follows it is never dispatched. |
| Selection.PumpWithoutUp | boxcutter.cpp:597-613 | If no button-up arrives, the loop dispatches everything and there is no selection. |
| Selection.BoxCutterWindow.constructor | boxcutter.cpp:368-375 | The fields start in Initial. |
| Selection.BoxCutterWindow.OnMouseDown | boxcutter.cpp:512-517 | on_mouse_down updates the fields as Step does for a button-down. |
| Selection.BoxCutterWindow.OnMouseUp | boxcutter.cpp:520-539 | on_mouse_up updates the fields as Step does for a button-up. |
| Selection.BoxCutterWindow.OnMouseMove | boxcutter.cpp:542-565 | on_mouse_move updates the fields as Step does for a move. |
| Selection.BoxCutterWindow.MainLoop | boxcutter.cpp:597-613 | main_loop leaves the fields at Pump: events are dispatched only while the window is active. |
| Selection.BoxCutterWindow.IsActive | boxcutter.cpp:452-455 | active() reports m_active. |
| Selection.BoxCutterWindow.HaveCoords | boxcutter.cpp:470-473 | have_coords() reports m_have_coords. |
| Selection.BoxCutterWindow.GetCoords | boxcutter.cpp:462-468 | get_coords gives m_start then m_end. |
| CommandLine.SpaceRun | boxcutter.cpp:729 | The white space %d skips is a run of white-space characters, ended by a non-space. |
| CommandLine.DigitRun | boxcutter.cpp:729 | The digits %d reads: a run of digits, ended by a non-digit. |
| CommandLine.ScanSigned | boxcutter.cpp:729 | The part of %d after the white space: an optional sign and at least one digit. It fails on text without any digit. On success the unread rest is shorter than the input and does not start with a digit. |
| CommandLine.ScanInt | boxcutter.cpp:729 | One %d: it skips C-locale white space, takes an optional '+' or '-', and needs at least one digit. It fails on text without any digit. On success the unread rest is shorter than the input and does not start with a digit. |
| CommandLine.ScanComma | boxcutter.cpp:729 | The literal ',' of the format succeeds exactly when a comma comes next, with no white space before it. |
| CommandLine.ScanNext | boxcutter.cpp:729 | ",%d" succeeds only on text starting with a comma. It consumes the comma and at least one digit, and the rest does not start with a digit. |
| CommandLine.ScanCoords | boxcutter.cpp:729 | The whole four-number conversion. It fails on an argument without digits. Text after the fourth number is ignored (ScanCoordsRoundTrip). |
| CommandLine.ScanIntSkipsSpace | boxcutter.cpp:729 | A white-space character in front of a %d changes nothing. |
| CommandLine.ScanIntAfterSpace | boxcutter.cpp:729 | %d depends only on what follows the leading white space. |
| CommandLine.ScanIntRest | boxcutter.cpp:729 | What %d leaves unread is a tail of its input. |
| CommandLine.ScanPlusSign | boxcutter.cpp:729 | An explicit '+' before the digits is accepted and gives the same value. |
| CommandLine.ScanCoordsNeedsComma | boxcutter.cpp:729 | An argument without a comma never converts four numbers. |
| CommandLine.ValueOfNatToString | boxcutter.cpp:729 | The decimal text of n is all digits, and its value is n. |
| CommandLine.DigitRunOf | boxcutter.cpp:729 | A run of digits followed by a non-digit is read up to exactly that point. |
| CommandLine.ScanIntRoundTrip | boxcutter.cpp:729 | %d reads back any integer's decimal text and leaves the rest, when the rest does not start with a digit. |
| CommandLine.ScanNextRoundTrip | boxcutter.cpp:729 | ",%d" reads back a comma and an integer. |
| CommandLine.ScanCoordsRoundTrip | boxcutter.cpp:729 | "%d,%d,%d,%d" reads back any four coordinates rendered as "x1,y1,x2,y2". |
| CommandLine.FlagOf | boxcutter.cpp:708-758 | The strcmp chain recognises exactly -f/--fullscreen, -c/--coords, -v/--version and -h/--help. |
| CommandLine.ParseOptions | boxcutter.cpp:703-763 | The option loop over argv ends with MainOptions: the early return it takes, or the coordinates and the filename it chose. |
| CommandLine.LastChoice | boxcutter.cpp:708-736 | After a run of -f and -c options the coordinates are the last option's, or the earlier ones when there is none. |
| CommandLine.FullScreenSpelling | boxcutter.cpp:708-709 | "-f" and "--fullscreen" are both options the strcmp chain reads as the full-screen flag. |
| CommandLine.CoordsSpelling | boxcutter.cpp:720-721 | "-c" and "--coords" are both options the strcmp chain reads as the coordinates flag. |
| CommandLine.ScanOneOption | boxcutter.cpp:708-736 | One -f/--fullscreen, or one -c/--coords with an argument sscanf accepts, is consumed and fixes its coordinates. |
| CommandLine.ScanPastOptions | boxcutter.cpp:703-736 | A run of such options, in either spelling, is consumed, and the last one wins. |
| CommandLine.OptionsThenFilename | boxcutter.cpp:703-763 | Options are read up to the first argument not starting with '-'. That argument is the filename, and everything after it is ignored. |
| CommandLine.OptionsOnly | boxcutter.cpp:703-763 | Without a non-option argument there is no filename. |
| CommandLine.FlagExits | boxcutter.cpp:738-758 | -v/--version, -h/--help and any unrecognised option end main with 1, whatever follows. The reason is Version, Help or UnknownOption respectively. |
| CommandLine.MissingCoordsExits | boxcutter.cpp:720-726 | -c or --coords as the last argument ends main with 1. |
| CommandLine.BadCoordsExits | boxcutter.cpp:729-733 | A -c or --coords argument that is not four comma-separated integers ends main with 1. |
| CommandLine.Resolve | boxcutter.cpp:771-786 | An early return stays one. Coordinates from the options are used as they are, with the filename. |
| CommandLine.SelectionDecides | boxcutter.cpp:771-786 | Without -c or -f, main captures exactly when the pump saw a button-down and then a move before the first button-up. The corners are then the last button-down and the last dragged move. |
| CommandLine.NoUpNoCapture | boxcutter.cpp:775-786 | Without -c or -f and without a button-up, main gives up for lack of a selection. |
| CommandLine.FullScreenOption | boxcutter.cpp:708-718 | `boxcutter -f file` or `boxcutter --fullscreen file` captures the corners of the screen rectangle into the file, whatever the window saw. |
| CommandLine.FullScreenPlan | boxcutter.cpp:708-718 | With GetScreenRect as written (ScreenRect), `-f file` captures, normalised, the span from the virtual-screen origin to the point (cx, cy). With the corrected VirtualScreenRect it captures the whole virtual screen, cx × cy from the origin. |
| CommandLine.BoxCutterMain | boxcutter.cpp:685-818 | The screen rectangle is a parameter, so the contract holds for ScreenRect as written and for VirtualScreenRect. The pump is the window's main_loop. Every early return gives 1 and touches nothing. Otherwise the normalised region is captured to the file or to the clipboard, and main returns 0 exactly when that capture succeeds. |
| CommandLine.BoxCutterFsMain | boxcutter-fs.cpp:256-272 | The screen rectangle is a parameter, as for BoxCutterMain. With fewer than two arguments the result is 1. Otherwise argv[1] receives the un-normalised capture of the rectangle's corners, and the exit code is 0 exactly when it succeeds. |
| CommandLine.FsCaptureRegion | boxcutter-fs.cpp:242-271 | With get_screen_rect as written, the fs capture spans SM_CXVIRTUALSCREEN - SM_XVIRTUALSCREEN columns and SM_CYVIRTUALSCREEN - SM_YVIRTUALSCREEN rows. |

## Left out

- Win32 calls are oracle answers. Each of GetObject, GlobalAlloc, GetDIBits, CreateFile, WriteFile, CloseHandle, BitBlt and the clipboard calls becomes a field of an oracle datatype. The pixels and colour table GetDIBits produces are opaque bytes.
- GetDIBits can rewrite the info header it is given. The model assumes it leaves the header as save_bitmap_file filled it.
- The GetObject geometry is not tied to the width and height given to CreateCompatibleBitmap and BitBlt. The bitmap's geometry is the oracle's.
- LocalAlloc for the BITMAPINFO block is not checked for failure in the source, and the block is never freed. The model does not track it. The palette allocation size `1 << cClrBits` shifts a 32-bit int by 32 at 32 bits per pixel, which is undefined in C. The model does not model it, because biClrUsed is 0 there and the write size does not depend on that allocation.
- Bmp.SizeImage: the source computes the value in signed 32-bit LONG arithmetic, where overflow is undefined in C. The model takes the exact product modulo 2^32. On a machine that wraps, that is the same value unless width + 7 itself overflows, i.e. for widths from 2^31 - 7 up. There the wrapped sum is negative and C's division truncates toward zero. For example, width 2^31 - 1, height 1 and 32 bits per pixel give 32 on such a machine, but 0 in the model.
- Bmp.Bitmap: width and height are non-negative LONGs. A negative biHeight, which marks a top-down DIB, is not modelled.
- Bmp.SizeImageCoversPixels: proved only when the product does not wrap the DWORD. It states the row size the code computes: ceil(width/8)·cClrBits bytes, which pads each row to a multiple of 8 pixels. That is not always the DWORD-aligned stride GetDIBits uses. At 4 bits the two agree for every width. At 1 bit the code's rows can be shorter than the stride and are never longer. At 8 bits and above they can be longer and are never shorter.
- The GDI cleanup is not modelled, and the DCs and the bitmap are not part of the modelled world. The capture functions call DeleteDC on the GetDC(0) screen handle, where ReleaseDC is meant (boxcutter.cpp:313-314, 354-355). They restore the old object with SelectObject only after its DC is deleted. shot_bitmap is never freed: no capture function calls DeleteObject, so one GDI bitmap leaks per capture. The one exception is a successful SetClipboardData, which hands the bitmap to the clipboard. The early return after a failed BitBlt skips the DeleteDC calls as well.
- printf output, usage() and version() text, MessageBox, InitCommonControls, setup_console, the window class registration, show/maximize/activate and win.close are not modelled. Nor is the XOR rectangle drawn on the desktop. None of them affects the outcome or the exit code.
- The window procedure's WM_DESTROY branch is not modelled, and neither are messages other than the three mouse messages. GetMessage returning 0 or -1 is modelled as the event sequence running out. main_loop calls GetMessage before it tests active(), so after the button-up has been dispatched it still waits for one more message and takes it off the queue without dispatching it. The model stops right after the button-up and does not consume that message. The outcome and the exit code are the same.
- GetCursorPos results are carried by the events. The uninitialised POINT members m_start and m_end are constructor parameters.
- sscanf's `%d` saturation or wrap-around on out-of-range numerals is not modelled: the scanned values are unbounded. The 32-bit int overflow in `x2 - x` is not modelled either.
- Only the parts of sscanf that `%d,%d,%d,%d` uses are modelled: leading white space, an optional sign and digits for each `%d`, and a literal comma that must follow at once. Trailing text is ignored, as sscanf ignores it. There are no lemmas about concrete argument strings.
- SaveBitmap.FailedWriteLeavesPrefix: the prefix property is stated only for runs without short writes. A write that returns TRUE short of its buffer lets the next write append after a gap, so the file is then not a prefix of the image.
- SaveBitmap.SavedFileIsImage: stated only when every write wrote its whole buffer, because save_bitmap_file never reads the byte count WriteFile reports (ShortWriteGoesUnnoticed).
- Concurrency with other programs writing the clipboard or the file is not modelled.

## Findings

| source | as written | input that shows it | evidently intended | confidence | as-written member | corrected member |
|---|---|---|---|---|---|---|
| boxcutter.cpp:279-286, boxcutter-fs.cpp:242-249 | The screen rectangle stores SM_CXVIRTUALSCREEN and SM_CYVIRTUALSCREEN (sizes) as its right and bottom edges. A capture of it (`-f`, or `boxcutter-fs`) then spans cx - x by cy - y. | Metrics(x = -1920, y = 0, cx = 3840, cy = 1080): a monitor left of the primary one. right = 3840 instead of 1920, so the capture is 5760 wide instead of 3840. | right = x + cx and bottom = y + cy, so that `-f` captures the virtual screen exactly. | not executed | Capture.ScreenRect, Capture.ScreenRectOvershoots | Capture.VirtualScreenRect, Capture.VirtualScreenRegion |

The two `main` models take the screen rectangle as a parameter. Their
contracts hold for `Capture.ScreenRect` as written and for the corrected
`Capture.VirtualScreenRect`. `CommandLine.FullScreenPlan` and
`CommandLine.FsCaptureRegion` spell out what each rectangle captures.
