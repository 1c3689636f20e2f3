# ViveToPi core, modelled in Dafny

ViveToPi is a dual-output live video compositor. A render loop builds named
layers every frame from the cameras and the image catalogue and draws them to two framebuffers: a stereo headset
surface with two 1080x1200 eyes, and a monitor. A second thread reads the
operator's commands and edits the ordered list of instructions that the
render loop replays.

This project models the logic of that core and proves properties of it:

- **Instructions** (`terminal_functions.h`): the instruction store.
  - It offers push-at-index, edit, delete and clear.
  - The consistency sweep ("refactor") erases instructions that refer to a
    layer no earlier instruction defines, or to an image missing from the
    catalogue.
  - A flag dispatcher runs the sweep after every mutation.
  - The per-frame executor builds one layer per layer instruction, then
    processes the first layer with each named name. It records the names
    of the layers it draws, in order.
- **Console** (`terminal.h`): the older terminal revision.
  - `splitString` tokenises a line; `getCommand` looks up the command table.
  - Push, delete and edit read their index with `std::stoi` into a
    `size_t`, so a negative number wraps past every list size.
  - The terminal thread's loop runs over a given sequence of lines.
- **Display** (`canvas.h`): the placement arithmetic of `draw`.
  - It centres a layer on each eye using truncating division and crops
    layers that are too large.
  - The right eye sits 1080 pixels to the right of the left eye.
  - The row writes go to both eyes; the output toggles are part of the model.
- **Compositing** (`layer.h`): the overlay window, the per-pixel blend over
  that window, `setImage`, `setAlpha` and the constructor's opaque alpha plane.
- **Typography** (`text.h`): the bitmap text renderer.
  - `getLine` draws a string with an 8x8 glyph table.
  - `getText` has two passes. The first splits the message at spaces, cuts
    words longer than the line width, and measures the image in 8-pixel
    cells. The second copies each piece into the image.
- **CppInt** and **CppString** hold the C++ semantics the core relies on:
  - C++ `/` truncating toward zero;
  - wrap-around into `size_t` and `uchar`;
  - `std::string::find`, and splitting and joining on a delimiter.

Each method that works by changing state is a method on a class: the store,
the terminal, the canvas, the layer or the text renderer. Its `ensures`
clause ties the new state to a specification function of the old state. The
lemmas state the properties of those functions.

## Model

| member | source | states |
|---|---|---|
| CppInt.TDiv | canvas.h:105-107 | The quotient is truncated toward zero: the remainder has the sign of the dividend and is smaller than the divisor in size. |
| CppInt.ToSizeT | terminal.h:113-116 | Storing an int into a `size_t` wraps modulo 2^64: values already in range are unchanged, and negative ones gain 2^64. |
| CppInt.ToByte | text.h:57 | Narrowing an int channel to `uchar` keeps values 0..255 unchanged. |
| CppString.Find | terminal.h:101 | `find` gives the first position where the delimiter occurs, or -1 exactly when it occurs nowhere. |
| CppString.SplitJoin | terminal.h:96-109 | Splitting gives at least one piece, and joining the pieces with the delimiter gives back the input. |
| CppString.SplitPiecesClean | terminal.h:96-109 | No piece of a split contains the delimiter. |
| CppString.JoinSplit | terminal.h:96-109 | For a one-character delimiter, splitting the join of a non-empty list of pieces that are free of it gives back the pieces. |
| Console.Terminal.SplitString | terminal.h:96-109 | The erase-and-push loop returns the split of its input. There is at least one piece, the pieces join back to the input, and no piece contains the delimiter. |
| Console.GetCommand | terminal.h:299-305 | A recognised command is the one whose table word is the input. `Invalid` comes back exactly when no command's word equals the input. |
| Console.KeywordsRecognised | terminal.h:29-44 | Every word in the constructor's table, including "" for `Empty`, maps back to its own command. |
| Console.NegativeIndexWraps | terminal.h:113-116 | A negative parsed index, and the initial -1, both become a `size_t` above any list size below 2^63. |
| Console.PushCases | terminal.h:111-143 | Fewer than two tokens change nothing. A non-numeric token 1 appends `command[1..]`. A parsed index p with 0 <= p <= length inserts `command[2..]` at p and shifts the rest. A negative, too large or out-of-range index changes nothing. |
| Console.DeleteCases | terminal.h:145-168 | With exactly two tokens and a parsed index d below the length, exactly element d is removed and the order is kept. Any other command leaves the list unchanged. |
| Console.EditCases | terminal.h:170-198 | With more than two tokens and a parsed index e below the length, only element e changes, to `command[2..]`. Any other command leaves the list unchanged. |
| Console.PushThenDelete | terminal.h:111-168 | `push p ...` at a valid p followed by `delete p` restores the list. |
| Console.DisplayCases | terminal.h:209-251 | With exactly three tokens, `true`/`false` at token 2 and `monitor`/`vive` at token 1, exactly the named toggle is set. Any other command changes nothing. |
| Console.LineEffectFrame | terminal.h:56-91 | Only push, delete and edit lines touch the list, and only display lines touch the screens. The run flag is cleared exactly by an exit line. |
| Console.RunStopsAtExit | terminal.h:56-93 | Once a line whose first token is `exit` has been handled, the loop stops: later lines have no effect. |
| Console.Terminal.PushInstruction | terminal.h:111-143 | The shared list becomes the push effect of its old value. |
| Console.Terminal.DeleteInstruction | terminal.h:145-168 | The shared list becomes the delete effect of its old value. |
| Console.Terminal.EditInstruction | terminal.h:170-198 | The shared list becomes the edit effect of its old value. |
| Console.Terminal.SetDisplayOutput | terminal.h:209-251 | The canvas state becomes the display effect of its old value. |
| Console.Terminal.HandleLine | terminal.h:58-91 | One loop pass splits the line, looks up token 0 and dispatches. The new list, run flag and screens are the line effect of the old ones. |
| Console.Terminal.TerminalThread | terminal.h:46-93 | Reading the given lines until the run flag is cleared leaves the state that the run effect gives. |
| Display.Place | canvas.h:104-131 | The right-eye offset is the left-eye offset plus 1080, and the crop rectangle lies inside the layer. |
| Display.PlaceHorizontal | canvas.h:105-119 | A layer at most 1080 wide is drawn whole and centred, with truncation. A layer at least 1082 wide is cropped to 1080 columns from (w-1080)/2 and drawn at x 0. A layer exactly 1081 wide is drawn whole at x 0. |
| Display.PlaceVertical | canvas.h:107-129 | The same rule holds vertically with the eye height 1200. |
| Display.PlaceOverflowsEye | canvas.h:105-131 | As written: a 1081-wide layer is not cropped and overruns the eye, and so does a 1201-high one. |
| Display.PlaceIntendedFits | canvas.h:104-131 | Cropping whenever the layer is larger than the eye keeps every write inside the eye, and the crop inside the layer. For every other size this agrees with `Place`. |
| Display.ViveRowsAt | canvas.h:135-140 | Cropped row i is written to both eyes at height top+i, the right copy at the left offset plus 1080, with `4 * width` bytes each. |
| Display.ViveRowsStep | canvas.h:136-139 | One more loop iteration appends the left and right writes of the next row. |
| Display.Canvas.Draw | canvas.h:104-149 | The headset log grows by exactly the row writes of the placement when the headset flag is on. The monitor log grows by the crop when the monitor flag is on. |
| Display.Canvas.DrawCurrent | canvas.h:99-101 | `draw(Layer)` draws to the outputs currently switched on. |
| Display.Canvas.SetOutput | canvas.h:154-163 | Both toggles are assigned, and each output turned off is blanked with a 1080x1200 draw. |
| Display.Canvas.SetMonitorOutput | canvas.h:151 | The monitor toggle takes the argument, the headset toggle keeps its value, and `setOutput` blanks every output that is off. |
| Display.Canvas.SetViveOutput | canvas.h:152 | The headset toggle takes the argument, the monitor toggle keeps its value, and `setOutput` blanks every output that is off. |
| Display.Canvas.constructor | canvas.h:41-68 | The catalogue is the given image set, and the toggles are set through `setOutput`. |
| Compositing.OverlayWindow | layer.h:22-30 | The window lies inside this layer and starts at or after the offset at which top's origin lands. |
| Compositing.OverlayWindowCentres | layer.h:24-30 | Each offset is half the size difference, truncated. A pixel is in the window exactly when it is in the layer and within topW rows and topH columns of the offset. |
| Compositing.OverlayWindowSquareReadsInside | layer.h:24-30 | For a square top, every blended pixel reads top inside its bounds. |
| Compositing.OverlayWindowReadsOutside | layer.h:29-30 | As written: a 2x4 top on a 10x10 layer gets a window that reads top's row 2, outside its 2 rows. |
| Compositing.IntendedOverlayWindowIsOverlap | layer.h:22-30 | With the ends swapped back, the window is exactly the overlap of the layer and the centred top, and every read is in bounds. For square tops it equals the window as written. |
| Compositing.Layer.constructor | layer.h:16-19 | The alpha plane has the image's rows and columns, and every entry is 1.0. |
| Compositing.Layer.SetImage | layer.h:118-125 | The image is replaced only by one with the same rows and columns; otherwise it is unchanged. |
| Compositing.Layer.SetAlpha | layer.h:128-134 | Every alpha entry becomes the value. |
| Compositing.Layer.BlendWindow | layer.h:44-73 | Each pixel inside the window becomes blend(pixel, top pixel, top alpha), reading top's pixel at the offset position as it was before the call. Pixels outside the window are unchanged. A top that shares this layer's buffer is allowed when it lies exactly over it; each pixel is then blended with itself. |
| Compositing.Layer.BlendRow | layer.h:65-73 | The operator over one row: each pixel of the row inside the window is blended with top's pixel as it was before the call, and no other pixel changes. |
| Compositing.Layer.Overlay | layer.h:22-49 | `overlay` applies that blend over the window computed as written, including to a top that shares this layer's buffer (a layer overlaid with itself, or two layers from one file). It requires that the window's reads stay inside top. |
| Compositing.SharedOverlayWindowIsSquare | layer.h:22-30 | A top of this layer's own size, such as a copy sharing its buffer, is centred with zero offsets. With the ends as written, the window is the leading min(rows, cols) square, which is the whole layer exactly when the layer is square. |
| Compositing.Layer.OverlayIntended | layer.h:22-49 | `overlay` with the intended window blends exactly the overlap. It needs no precondition on top's shape, and accepts a top that shares this layer's buffer. |
| Instructions.ContainsFlag | terminal_functions.h:293-300 | True exactly when the query is one of the instruction's flags. |
| Instructions.IsInstructionValid | terminal_functions.h:283-291 | True exactly when some instruction before `listInd` is a layer instruction whose token 1 equals the given token. |
| Instructions.TerminalFunctions.CheckInstructionValid | terminal_functions.h:283-291 | The search loop answers that same existential. |
| Instructions.RefactorErasesOnly | terminal_functions.h:246-281 | The sweep only erases: its result is an order-preserving subsequence, and the instructions with none of flags 20/21/22 all survive, in order. |
| Instructions.RefactorFromFixes | terminal_functions.h:246-281 | The sweep leaves an already consistent list unchanged. |
| Instructions.RefactorIdempotent | terminal_functions.h:246-291 | After the sweep the list is consistent, so sweeping it again changes nothing. |
| Instructions.ConsistentReferencesDefined | terminal_functions.h:246-304 | In a consistent list every image-layer instruction names an image in the catalogue by its last token, and every process or draw instruction names a layer defined earlier. An overlay's second name is also defined earlier. |
| Instructions.TerminalFunctions.IsIrrelevant | terminal_functions.h:248-280 | The if/else-if chain erases the instruction exactly when the sweep would not keep it, given the instructions before it. |
| Instructions.TerminalFunctions.RefactorInstructions | terminal_functions.h:246-281 | The in-place loop, erasing and stepping back with `i--`, leaves exactly the sweep of the old list. |
| Instructions.PushInserts | terminal_functions.h:193-210 | The index is token 1 parsed when flag 11 is present, otherwise the length. At a valid index the trimmed instruction is inserted there and nothing else moves except the shift. An invalid index changes nothing. |
| Instructions.DeleteRemoves | terminal_functions.h:212-226 | A parsable index d with 0 <= d < length removes exactly element d. Anything else changes nothing. |
| Instructions.EditReplaces | terminal_functions.h:228-244 | Only element e changes, to the command minus `edit INDEX`. The length and all other elements are unchanged. |
| Instructions.PushThenDelete | terminal_functions.h:193-226 | A push at a valid index p followed by a delete of p restores the list. |
| Instructions.ShapedAfterEdits | terminal_functions.h:193-244 | Push, edit and delete keep every stored instruction well-formed for the grammar. |
| Instructions.TerminalFunctions.PushInstruction | terminal_functions.h:193-210 | The list becomes the push effect of its old value. |
| Instructions.TerminalFunctions.DeleteInstruction | terminal_functions.h:212-226 | The list becomes the delete effect of its old value. |
| Instructions.TerminalFunctions.EditInstruction | terminal_functions.h:228-244 | The list becomes the edit effect of its old value. |
| Instructions.TerminalFunctions.ClearInstructions | terminal_functions.h:174-176 | The list becomes empty. |
| Instructions.TerminalFunctions.SetDisplayOutput | terminal_functions.h:179-191 | Flag 53 means on. Flag 51 sets the monitor toggle; otherwise the headset toggle is set. |
| Instructions.FlagEffectConsistent | terminal_functions.h:135-176 | Each flag keeps a consistent list consistent. Push, edit, delete and clear leave a consistent list whatever came before. |
| Instructions.FlagsEffectConsistent | terminal_functions.h:135-171 | After the dispatcher, the list is consistent if it started consistent or if a push, edit, delete or clear was among the flags processed. |
| Instructions.FlagsEffectRunning | terminal_functions.h:139-141 | The run flag ends cleared exactly when an exit flag was processed. |
| Instructions.FlagsEffectClear | terminal_functions.h:145-147 | With no push, edit or delete among the flags, a clear flag leaves the list empty. |
| Instructions.TerminalFunctions.ProcessFlags | terminal_functions.h:135-171 | The list, run flag and screens become the flags' effect, in order, on the old ones. |
| Instructions.FirstNamed | terminal_functions.h:32-45 | Gives the first layer with the name, or -1 when none has it. |
| Instructions.TerminalFunctions.FindLayer | terminal_functions.h:32-45 | The search loop finds that same first match, or -1. |
| Instructions.Processed | terminal_functions.h:72-118 | Among the layers as values, processing changes only the layer at the index, and keeps its name and source. Buffer sharing is not modelled; see Left out. |
| Instructions.TerminalFunctions.ProcessLayer | terminal_functions.h:72-118 | The flag loop gives the processed layers. |
| Instructions.TerminalFunctions.GetLayer | terminal_functions.h:50-70 | The layer's source comes from the last camera or image flag, and its name is token 1. |
| Instructions.ExecuteBuildsDefinedLayers | terminal_functions.h:24-48 | The executor appends exactly one layer per layer instruction, in list order. |
| Instructions.DefinedLayersNamed | terminal_functions.h:24-48 | A name is carried by some layer the executor builds exactly when some layer instruction of the list defines it, so a later search by that name finds a layer. |
| Instructions.ExecuteDrawsEveryDraw | terminal_functions.h:24-48 | On a consistent list, which is what the sweep leaves, the names drawn are exactly the names of the draw instructions, in list order: no draw is skipped. |
| Instructions.TerminalFunctions.ProcessInstructions | terminal_functions.h:24-48 | The loop over the list gives the frame that the executor function gives. |
| Typography.CutsShape | text.h:72-80 | Every cut has exactly maxCharWidth characters. What is left has at most that many and is the end of the word after the last dropped character. |
| Typography.CutsPositions | text.h:72-79 | Cut i starts i*(m+1) characters into the word: the character after each cut is dropped, and nothing else is. |
| Typography.CutWord | text.h:72-79 | The inner while gives exactly the cut pieces and the leftover. |
| Typography.StepSane | text.h:70-92 | One pass pushes at least one piece, keeps each piece within the line width, keeps the width non-negative and keeps at least one line. |
| Typography.MeasureFromSane | text.h:66-98 | The whole first pass keeps every piece within the line width and yields at least one line, so the image is at least 8 pixels high and both sides are multiples of 8. |
| Typography.MeasureFromSplit | text.h:66-94 | The do-while visits the words between single spaces, in order, and a space follows every word but the last. |
| Typography.StepsShortWords | text.h:70-92 | Over words no longer than the line width, each pass pushes its word whole, so the pieces are the words. |
| Typography.MeasureFromWords | text.h:69-94 | When no word exceeds the line width, the pieces are exactly the words between single spaces, in order. |
| Typography.PushWord | text.h:80-89 | The update after the cuts agrees with the pass specification: the leftover is pushed, the line wraps when it would reach the width, and the widest position is kept. |
| Typography.Text.MeasureWords | text.h:66-94 | The do-while, which terminates, gives the measured pieces and counters. |
| Typography.LayoutAt | text.h:100-110 | Box k starts at the carried offsets, moved to the start of the next line when the piece after others would reach the line width. |
| Typography.FitsIffWithinExtent | text.h:98-108 | An image holds every box exactly when it is at least as large as their extent. |
| Typography.GetTextRowsShort | text.h:69-110 | As written: with width 2, "a aaaa" is measured as 2 lines, but its last piece is placed at row 16 of the 16-row image. |
| Typography.SizedLayoutFits | text.h:96-110 | An image sized to the layout's extent holds every box, and no smaller image does. |
| Typography.Text.GetLine | text.h:50-63 | The strip has 8 rows and 8 columns per character. Pixel (y, x) is the ink colour where the glyph of character x/8 has dot (y, x mod 8) set, and all zero otherwise. |
| Typography.Text.PastePiece | text.h:107 | Copying a piece's strip changes exactly the pixels of its box, to those of the strip. |
| Typography.Text.PasteNext | text.h:101-108 | Copying piece k into its box turns the image of the first k pieces into the image of the first k + 1. |
| Typography.Text.Render | text.h:98-112 | It fails exactly when some box falls outside the image, which is the ROI exception. Otherwise each pixel is that of the last piece whose box covers it, or zero. |
| Typography.Text.GetText | text.h:65-113 | The image is measured at 8 pixels a cell, and the call succeeds exactly when the layout fits the measured size. |
| Typography.Text.GetTextSized | text.h:65-113 | Sized from the layout, every copy lands inside the image, and the pixels are as the copy loop leaves them. |
| Typography.PiecesPrintable | text.h:72-80 | Every piece is made of the message's characters, so each has a glyph. |
| Typography.CopyTo | text.h:108 | The ROI copy overwrites exactly the rectangle at (x0, y0) and keeps every other pixel. |
| Typography.Text.constructor | text.h:24-48 | The default styling is opaque white, scale 1, 128 characters a line. |
| Typography.Text.SetStyling | text.h:123-125 | The styling becomes the argument, which `getStyling` then returns. |
| Typography.Text.SetStylingFields | text.h:115-122 | Each styling field is set from its argument. |
| Typography.Text.GetStyling | text.h:126-128 | Returns the current styling. |

## Left out

- Threads and the mutex in terminal.h are left out. Each command is one atomic step on the shared list.
- Camera capture, image loading and framebuffer device I/O (`open`, `ioctl`, `mmap`, `putRow`'s copy) are left out. A frame source is an abstract value, the image catalogue is a set of names, and framebuffer writes are an append-only log of row writes.
- The image operations `resizeLayer`, `rotateLayer`, `setAlphaPattern_Circular`, `overlayText` and the monitor downscale are left out. They are recorded as opaque operations with their raw tokens.
- The floating-point blend in `alphaOperator` is a parameter of the overlay methods, an uninterpreted function.
- `parseInteger`, `canParseInteger`, `parseFloat` and `std::stoi` are left out: they are parameters of the classes. `std::stoi`'s outcome is a parsed 32-bit value, an invalid argument or out of range.
- Reading lines from standard input is left out. The terminal loop takes its lines as a sequence.
- All `printf` help, welcome and diagnostic text is left out, as are the font-file reading of the `Text` constructor (the glyph table is a parameter) and the uninitialised default constructors.
- `isValidInstruction` in terminal.h accepts every instruction, so it is not modelled.
- Out-of-range reads of `command[k]` are undefined behaviour in C++. The grammar rules them out, so the model requires the token counts the grammar guarantees (`Shaped`, `Admissible`).
- Typography.Text.GetText: requires a non-negative maximum line width. A negative width compares as a huge `size_t` in the first pass but as an int in the second, and is not modelled. It also requires every character to be in 32..125, for the reason given for `GetLine`.
- Typography.Text.GetLine: requires every character to be in 32..125, because other characters index outside the glyph table, which is undefined behaviour.
- Console.PushCases, Console.DeleteCases and Console.EditCases: require a list shorter than 2^63 entries. A longer vector cannot be allocated.
- This revision has no save or load command. `setAlphaPattern_Circular` (layer.h:136) takes two parameters, an inner and an outer radius, and is left out with the other image operations.
- Instructions.Processed and Instructions.Execute: layers are independent values here. In the code, a layer built from the catalogue is a copy of a `cv::Mat` and shares its pixel and alpha buffers with the catalogue entry and with every other layer loaded from the same file. The in-place operations of `processLayer` write through those shared buffers: `overlay`'s `forEach` (layer.h:44-45), a same-size `warpAffine` in `rotateLayer` (layer.h:105-106) and `setAlpha` (layer.h:128-134). So processing one layer also changes the other layers from that file in the same frame. It also changes the catalogue image, so the change carries into later frames; for example, a rotation would build up from frame to frame. The model promises "only the indexed layer changes" only at the value level and does not capture this aliasing.
- Instructions.Execute and Instructions.TerminalFunctions.ProcessInstructions: the executor's `canvas->draw(layers[i])` (terminal_functions.h:41) is recorded as an entry of `Frame.drawn`, and executor layers carry no size. The executor is not connected to the canvas. Where a drawn layer lands on the two outputs is modelled separately by Display.Canvas.Draw, for a layer of a given width and height.

## Findings

| source | as written | input that shows it | evidently intended | confidence | as-written member | corrected member |
|---|---|---|---|---|---|---|
| layer.h:29-30 | The Y end adds top's width and the X end adds top's height. | A 2-row, 4-column top on a 10x10 layer: rows 4..7 are blended, reading top rows 0..3 of 2. | Y end `yOff + topH` and X end `xOff + topW`: the overlap of the two images. | high; not executed | Compositing.OverlayWindowReadsOutside | Compositing.IntendedOverlayWindowIsOverlap |
| canvas.h:105-107, 110-129 | Centring uses `(1080 - w) / 2` with truncation, and crops only when that is negative. | A layer 1081 wide: the offset is 0, there is no crop, and 1081 pixels are written into a 1080-pixel eye. Likewise a layer 1201 high. | Crop whenever the layer is wider than 1080 or higher than 1200. | high; not executed | Display.PlaceOverflowsEye | Display.PlaceIntendedFits |
| text.h:72-85, 102-108 | After cutting a long word, the first pass sets `curr_x` to 0 and counts the leftover on the line of the last cut piece. The copy loop puts the leftover on a new line. | Maximum width 2, message "a aaaa": measured 16x16, but the last "a" is copied to row 16, and the ROI check throws. | Size the image to the layout the copy loop uses. | high; not executed | Typography.GetTextRowsShort | Typography.SizedLayoutFits |
