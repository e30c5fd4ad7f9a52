# frozen_term core in Dafny

frozen_term is a terminal emulator widget for the iced GUI toolkit. The
wezterm terminal engine interprets the program's output, and frozen_term
draws the engine's screen as rich text. This project models two parts of it
and proves properties of the model.

- **The styled cell grid, `TextGrid`** (`text_grid.dfy`, module `Grid`). It
  keeps `width*height` symbols in one flat row-major buffer. A symbol is a
  character and its `Format`.
  - `SetSymbol` and `FillRange` are bounds-checked writes that report typed
    errors.
  - `PushRow` scrolls the buffer up one row in place and clears the last row.
  - `Rows` cuts the buffer into rows.
  - `View` renders one span per cell plus a newline span per row. A hidden
    cell shows a space.
  - `RetrieveFont` picks the font weight and style.

  The class keeps the buffer as an `array` and its methods are proved against
  whole-buffer postconditions. Row-level statements are lemmas about `Chunks`
  and `Concat`, the cutting and flattening of a sequence. Index `y*width+x` is
  written `RowStart(y, width) + x`, where `RowStart(y, w)` is `y` additions of
  `w`. `RowStartIsProduct` proves it equals `y*w`.
- **The terminal widget's own logic** (`terminal.dfy`, module `Terminal`).
  - `TransformKey` translates a GUI key press into an engine key code and
    modifier set.
  - `GetColor` resolves an engine colour attribute against the 256-entry
    palette.
  - The span coalescing done on every layout: `WidgetState.Layout` is the
    imperative loop. `Coalesce` is the fold it is proved equal to.
    `Labelled` is an independent reference: every character of the screen
    paired with the attributes it is drawn in. The lemmas relate the spans
    to `Labelled` and to the screen's plain text, and prove that spans are
    non-empty and maximal.
  - `OnEvent` is the resize decision taken on every redraw.

`wrappers.dfy` holds `Option`.

## Model

| member | source | states |
|---|---|---|
| Grid.TextGrid.constructor | frozen_term/src/components/text_grid.rs:71-83 | the buffer holds exactly width*height symbols, each a space with the default format (no colours, every flag off) |
| Grid.TextGrid.Width | frozen_term/src/components/text_grid.rs:85-87 | the reported width times the height is the buffer length |
| Grid.TextGrid.Height | frozen_term/src/components/text_grid.rs:89-91 | the width times the reported height is the buffer length |
| Grid.TextGrid.SetSymbol | frozen_term/src/components/text_grid.rs:93-109 | x is checked first (XOutOfBounds(x, width)), then y (YOutOfBounds(y, height)); on either error the buffer is unchanged; otherwise Ok and exactly the cell at y*width+x becomes the symbol |
| Grid.SetCellInRows | frozen_term/src/components/text_grid.rs:106 | writing flat index y*width+x changes exactly cell x of row y in the row view |
| Grid.CellIndex | frozen_term/src/components/text_grid.rs:106 | for x < width and y < height, index y*width+x lies inside row y and inside the buffer |
| Grid.RowStartIsProduct | frozen_term/src/components/text_grid.rs:106 | the row offset used throughout is y*width |
| Grid.TextGrid.FillRange | frozen_term/src/components/text_grid.rs:111-138 | the start bound maps Included s to s, Excluded s to s+1 and Unbounded to 0, and the end bound maps Included e to e+1, Excluded e to e and Unbounded to len; start >= len gives IndexOutOfBounds(start, len) before the end is looked at; end > len gives IndexOutOfBounds(end, len); both leave the buffer untouched; otherwise Ok, every index in [start, end) holds the symbol and every other index keeps its value |
| Grid.FillSlice | frozen_term/src/components/text_grid.rs:135 | a slice fill sets exactly the indices in [start, end) |
| Grid.TextGrid.PushRow | frozen_term/src/components/text_grid.rs:140-151 | the new buffer is the old buffer without its first width symbols, followed by width blanks |
| Grid.ScrollUp | frozen_term/src/components/text_grid.rs:142-146 | after the nested copy loops every cell before the last row holds the old symbol one row below, and the last row is untouched |
| Grid.CopyRowUp | frozen_term/src/components/text_grid.rs:143-145 | one pass of the inner loop copies row y+1 over row y and changes nothing else |
| Grid.ChunksScroll | frozen_term/src/components/text_grid.rs:140-151 | in the row view, a push makes row y equal to the old row y+1 for every y < height-1 and the last row all blanks, keeping height rows |
| Grid.TextGrid.Rows | frozen_term/src/components/text_grid.rs:153-155 | height rows of width symbols each, which flatten back to the buffer in row-major order |
| Grid.ChunksConcat | frozen_term/src/components/text_grid.rs:154 | cutting a sequence into chunks and flattening them gives back the sequence |
| Grid.ChunksShape | frozen_term/src/components/text_grid.rs:154 | a buffer of h*w symbols cuts into exactly h chunks of w symbols |
| Grid.ConcatChunks | frozen_term/src/components/text_grid.rs:153-155 | rows of equal width w flatten to h*w symbols, and cutting them again gives back the same rows |
| Grid.TextGrid.View | frozen_term/src/components/text_grid.rs:168-186 | the spans are, row after row, each cell's span followed by one newline span |
| Grid.ViewShape | frozen_term/src/components/text_grid.rs:168-186 | the view holds (width+1)*height spans, and cutting it every width+1 spans gives each row's cell spans and its newline |
| Grid.RetrieveFont | frozen_term/src/components/text_grid.rs:196-208 | monospace always; Bold exactly when bold (also when faint); Light exactly when faint without bold; Normal otherwise; Italic exactly when italic; no flags gives the plain monospace font |
| Terminal.TransformKey | frozen_term/src/components/terminal.rs:165-223 | None exactly for an unidentified key or a named key other than Enter, Space, Backspace, Delete, the arrows, Tab, Escape and F1 to F12; a character key sends its first character; Space sends ' '; Fn sends Function(n) exactly for n in 1..12; otherwise the modifier set holds SHIFT, ALT, CTRL and SUPER exactly when shift, alt, control and logo are pressed |
| Terminal.ModifierSet | frozen_term/src/components/terminal.rs:202-219 | each engine modifier is in the set exactly when its GUI flag is set |
| Terminal.ModifierSetInjective | frozen_term/src/components/terminal.rs:202-219 | two modifier states give the same set only if they are equal |
| Terminal.NamedCodesDistinct | frozen_term/src/components/terminal.rs:174-198 | distinct forwarded named keys send distinct codes, and only Space sends a character |
| Terminal.SpaceIsCharacter | frozen_term/src/components/terminal.rs:170-176 | the Space key and a character key starting with a space translate identically, and the characters after the first one never matter |
| Terminal.GetColor | frozen_term/src/components/terminal.rs:225-238 | None exactly for Default; a palette index gives that palette entry's colour; both true-colour forms give the carried colour |
| Terminal.GetColorPaletteIndependent | frozen_term/src/components/terminal.rs:226-231 | only a palette index depends on the palette, and a true colour ignores its palette fallback |
| Terminal.WidgetState.Layout | frozen_term/src/components/terminal.rs:296-333 | the span list is cleared and rebuilt by the nested cell loop, and equals the fold Coalesce of the screen lines from the default attributes, whatever it held before |
| Terminal.StepCellTracks | frozen_term/src/components/terminal.rs:303-319 | one cell step keeps the pushed spans plus the current text equal to the labelled characters seen so far, and makes the cell's attributes current |
| Terminal.ScanCellsTracks | frozen_term/src/components/terminal.rs:302-320 | scanning a line's cells extends the pushed spans plus current text by exactly the cells' labelled characters; the last cell's attributes stay current |
| Terminal.ScanLinesTracks | frozen_term/src/components/terminal.rs:302-322 | after any number of lines the pushed spans plus the current text are exactly the labelled screen, with each newline in the attributes of the last cell seen; the current text is empty only for no lines and otherwise ends in a newline |
| Terminal.CoalesceLabelled | frozen_term/src/components/terminal.rs:296-333 | the spans draw every character of the screen in its own cell's attributes, with each newline in the run of the last cell seen, exactly when the final text is longer than one character and so emitted; otherwise, on a non-empty screen, they miss only the final newline |
| Terminal.CoalesceExact | frozen_term/src/components/terminal.rs:324-333 | when the last cell of the last line has text, the final text is emitted and nothing is lost |
| Terminal.BlankScreenDropsNewline | frozen_term/src/components/terminal.rs:324-333 | a screen of one line without visible cells gives no span, although its labelled screen is one newline |
| Terminal.CoalesceText | frozen_term/src/components/terminal.rs:296-333 | the spans' texts concatenated are the screen text (each line's cell texts, then a newline) exactly when the final text is emitted; otherwise, on a non-empty screen, they are that text without its final newline |
| Terminal.TrailingBlankLineKept | frozen_term/src/components/terminal.rs:320-333 | a line with text followed by a line without visible cells loses nothing: the final text holds both newlines and is emitted |
| Terminal.CoalesceMaximal | frozen_term/src/components/terminal.rs:303-333 | no span is empty; when every cell has text, no two neighbouring spans have equal attributes |
| Terminal.ScanLinesTidy | frozen_term/src/components/terminal.rs:302-322 | while every cell has text, the pushed spans are maximal and the last one differs from the current attributes |
| Terminal.SpansHaveText | frozen_term/src/components/terminal.rs:306-316 | a span is pushed in the loop only with non-empty text |
| Terminal.OnEvent | frozen_term/src/components/terminal.rs:373-401 | Captured exactly on RedrawRequested, otherwise Ignored; a resize to the target rows and columns and the pixel size is published exactly on a redraw whose physical rows or columns differ from the target |
| Terminal.ResizeSettles | frozen_term/src/components/terminal.rs:385-395 | once the screen takes the published size, the next redraw with the same bounds publishes nothing |

## Left out

- The float arithmetic that turns the widget's bounds into the target rows, columns and pixel size (frozen_term/src/components/terminal.rs:379-383). `OnEvent` takes them as a given `TerminalSize`.
- The wezterm engine (`advance_bytes`, `resize`, `key_down`, `screen`, `palette`, `visible_cells`) is not part of this model. The screen is the list of its lines' visible cells. A cell is a string and attributes of any type with equality.
- Terminal.WidgetState.Layout: the spans keep the run's attributes rather than the colours that `get_color` gives for them. Attributes are opaque here, so their colour resolution is modelled on its own as `GetColor`. The iced `Span`, `Text` and `Paragraph` values built after the loop are left out.
- Terminal.WidgetState.Layout: the final text is kept when its length is greater than one character, while the source counts bytes. The two agree here, because the final text is empty or ends in a newline, and a one-character such text is a single newline of one byte.
- Grid.TextGrid.View: it returns the span sequence only. The `container`, `rich_text` and border styling around it are left out, and the colours are carried as given values.
- Grid.TextGrid.constructor: sizes are unbounded integers, so a width and height whose product exceeds `usize` are not modelled. The source's `width * height` would panic or wrap there, and the model builds the full buffer instead.
- Grid.TextGrid.View: the same holds for the `(width + 1) * height` capacity the source reserves. Only the resulting spans are modelled.
- Grid.TextGrid.FillRange: sizes are unbounded integers, so the `usize` overflow of `Excluded(usize::MAX)` or `Included(usize::MAX)` plus one is not modelled.
- Grid.TextGrid.PushRow: it requires a height above zero, since `height - 1` underflows on an empty grid. Rows and View require a width above zero, since `chunks(0)` panics. FillRange requires start <= end when both bound checks pass, since the slice panics otherwise.
- Terminal.TransformKey: it requires a non-empty character key, since the source unwraps the first character.
- Terminal.OnEvent: the published `TerminalSize` keeps only rows, columns and pixel size. Its dpi keeps the engine's default. `shell.publish` becomes the returned option, and the message built by `on_resize` is left out.
- Grid.RetrieveFont: the font stretch is always the default and is not modelled. The iced `Font` is reduced to family, weight and style.
- `TextGridDisplay` (frozen_term/src/components/text_grid.rs:220-364) is geometry and renderer calls. The `print` functions, `Terminal::new`, `key_press` forwarding, `Config`, the PTY plumbing in `ui/mod.rs`, `main.rs` and `widgets/text_grid.rs` are also not part of this model.

Behaviour of the code worth knowing:
- `new` accepts a zero width or height and reports no dimension error.
- `fill_range(5..10)` on a 5-cell grid reports the start, `IndexOutOfBounds(5, 5)`.
- The coalescer pads no row.
- A row's newline joins the run of the last cell's attributes.
- A final text of a single newline is dropped.
- A `Default` colour resolves to `None`.
