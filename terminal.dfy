/** The terminal-side logic of frozen_term's terminal widget: the key
    translation from the GUI toolkit to the terminal engine, the colour
    lookup, the coalescing of screen cells into rich-text spans done on
    every layout, and the resize decision taken on every redraw. */
module Terminal {
  import opened Wrappers
  import Grid

  // ---------------------------------------------------------------------
  // Keys

  /** The toolkit's named keys: those the widget maps, the function keys by
      number, and every other named key by an opaque identifier. */
  datatype NamedKey =
    | Enter | Space | Backspace | Delete
    | ArrowLeft | ArrowRight | ArrowUp | ArrowDown
    | Tab | Escape
    | F(n: nat)
    | OtherNamed(id: nat)

  /** A key as the toolkit reports it. */
  datatype Key = Character(text: string) | Named(named: NamedKey) | Unidentified

  /** The toolkit's modifier state. */
  datatype Modifiers = Modifiers(shift: bool, control: bool, alt: bool, logo: bool)

  /** The terminal engine's key codes that the widget produces. */
  datatype KeyCode =
    | Char(c: char)
    | Enter | Backspace | Delete
    | LeftArrow | RightArrow | UpArrow | DownArrow
    | Tab | Escape
    | Function(n: nat)

  /** The terminal engine's modifier flags; a bit set becomes a set. */
  datatype KeyModifier = Shift | Alt | Ctrl | Super

  /** The named keys the widget forwards. */
  predicate Forwarded(named: NamedKey) {
    !named.OtherNamed? && (named.F? ==> 1 <= named.n <= 12)
  }

  /** The key code of a forwarded named key. */
  function NamedCode(named: NamedKey): KeyCode
    requires Forwarded(named)
  {
    match named
    case Enter => KeyCode.Enter
    case Space => KeyCode.Char(' ')
    case Backspace => KeyCode.Backspace
    case Delete => KeyCode.Delete
    case ArrowLeft => KeyCode.LeftArrow
    case ArrowRight => KeyCode.RightArrow
    case ArrowUp => KeyCode.UpArrow
    case ArrowDown => KeyCode.DownArrow
    case Tab => KeyCode.Tab
    case Escape => KeyCode.Escape
    case F(n) => KeyCode.Function(n)
  }

  /** The modifier set, built flag by flag as the widget ors in each bit. */
  function ModifierSet(m: Modifiers): (s: set<KeyModifier>)
    ensures KeyModifier.Shift in s <==> m.shift
    ensures KeyModifier.Alt in s <==> m.alt
    ensures KeyModifier.Ctrl in s <==> m.control
    ensures KeyModifier.Super in s <==> m.logo
  {
    var s: set<KeyModifier> := {};
    var s := if m.shift then s + {KeyModifier.Shift} else s;
    var s := if m.alt then s + {KeyModifier.Alt} else s;
    var s := if m.control then s + {KeyModifier.Ctrl} else s;
    if m.logo then s + {KeyModifier.Super} else s
  }

  /** Translates a key press for the terminal engine. A character key sends
      its first character (the toolkit never reports an empty one, and the
      widget would panic on it); unmapped keys give `None`. */
  function TransformKey(key: Key, modifiers: Modifiers): (r: Option<(KeyCode, set<KeyModifier>)>)
    requires key.Character? ==> key.text != []
    ensures r.None? <==> key.Unidentified? || (key.Named? && !Forwarded(key.named))
    ensures key.Character? ==> r.Some? && r.value.0 == KeyCode.Char(key.text[0])
    ensures key.Named? && Forwarded(key.named) ==> r.Some? && r.value.0 == NamedCode(key.named)
    ensures key.Named? && key.named.F? ==>
      (r.Some? <==> 1 <= key.named.n <= 12) && (r.Some? ==> r.value.0 == KeyCode.Function(key.named.n))
    ensures r.Some? ==>
      (KeyModifier.Shift in r.value.1 <==> modifiers.shift) &&
      (KeyModifier.Alt in r.value.1 <==> modifiers.alt) &&
      (KeyModifier.Ctrl in r.value.1 <==> modifiers.control) &&
      (KeyModifier.Super in r.value.1 <==> modifiers.logo)
  {
    var code :=
      match key
      case Character(text) => Some(KeyCode.Char(text[0]))
      case Named(named) => if Forwarded(named) then Some(NamedCode(named)) else None
      case Unidentified => None;
    match code
    case None => None
    case Some(c) => Some((c, ModifierSet(modifiers)))
  }

  /** No two forwarded named keys send the same code, and none of them but
      Space sends a character. */
  lemma NamedCodesDistinct(a: NamedKey, b: NamedKey)
    requires Forwarded(a) && Forwarded(b)
    ensures NamedCode(a) == NamedCode(b) <==> a == b
    ensures NamedCode(a).Char? <==> a.Space?
  {
  }

  /** The modifier set determines the toolkit's modifier state. */
  lemma ModifierSetInjective(m1: Modifiers, m2: Modifiers)
    ensures ModifierSet(m1) == ModifierSet(m2) <==> m1 == m2
  {
  }

  /** The Space key and the character " " reach the terminal identically, and
      a character key's text beyond its first character is never sent. */
  lemma SpaceIsCharacter(text: string, modifiers: Modifiers)
    requires text != [] && text[0] == ' '
    ensures TransformKey(Named(NamedKey.Space), modifiers) == TransformKey(Character(text), modifiers)
    ensures TransformKey(Character(text), modifiers) == TransformKey(Character(text[..1]), modifiers)
  {
  }

  // ---------------------------------------------------------------------
  // Colours

  /** The terminal engine's straight-alpha RGBA colour. */
  datatype SrgbaTuple = SrgbaTuple(r: real, g: real, b: real, a: real)

  type U8 = i: int | 0 <= i < 256

  /** A cell's colour as the terminal engine stores it. */
  datatype ColorAttribute =
    | TrueColorWithPaletteFallback(color: SrgbaTuple, fallback: U8)
    | TrueColorWithDefaultFallback(color: SrgbaTuple)
    | PaletteIndex(index: U8)
    | Default

  /** The toolkit colour with the same components. */
  function ToColor(t: SrgbaTuple): Grid.Color {
    Grid.Color(t.r, t.g, t.b, t.a)
  }

  /** The toolkit colour of an attribute, looked up in the terminal's
      256-entry palette; `None` leaves the widget's default colour. */
  function GetColor(color: ColorAttribute, palette: seq<SrgbaTuple>): (r: Option<Grid.Color>)
    requires |palette| == 256
    ensures r.None? <==> color.Default?
    ensures color.PaletteIndex? ==> r == Some(ToColor(palette[color.index]))
    ensures color.TrueColorWithPaletteFallback? || color.TrueColorWithDefaultFallback? ==>
      r == Some(ToColor(color.color))
  {
    match color
    case TrueColorWithPaletteFallback(c, _) => Some(ToColor(c))
    case TrueColorWithDefaultFallback(c) => Some(ToColor(c))
    case PaletteIndex(i) => Some(ToColor(palette[i]))
    case Default => None
  }

  /** Only palette indices consult the palette: a true colour ignores both
      the palette and its own fallback. */
  lemma GetColorPaletteIndependent(color: ColorAttribute, p1: seq<SrgbaTuple>, p2: seq<SrgbaTuple>)
    requires |p1| == 256 && |p2| == 256
    ensures !color.PaletteIndex? ==> GetColor(color, p1) == GetColor(color, p2)
    ensures color.TrueColorWithPaletteFallback? ==>
      GetColor(color, p1) == GetColor(TrueColorWithDefaultFallback(color.color), p2)
  {
  }

  // ---------------------------------------------------------------------
  // Coalescing cells into spans

  /** A visible cell of a screen line: its text and its (opaque) attributes. */
  datatype Cell<A> = Cell(text: string, attrs: A)

  /** A run of text drawn with one set of attributes. */
  datatype Span<A> = Span(text: string, attrs: A)

  /** The layout loop's state: the spans pushed so far, the current text
      and the current attributes. */
  datatype Acc<A> = Acc(spans: seq<Span<A>>, text: string, attrs: A)

  function Start<A>(defaultAttrs: A): Acc<A> {
    Acc([], "", defaultAttrs)
  }

  /** One cell: a change of attributes flushes a non-empty current text as a
      span, and the cell's text is appended in any case. */
  function StepCell<A(==)>(acc: Acc<A>, cell: Cell<A>): Acc<A> {
    if cell.attrs != acc.attrs then
      if acc.text != [] then Acc(acc.spans + [Span(acc.text, acc.attrs)], cell.text, cell.attrs)
      else Acc(acc.spans, cell.text, cell.attrs)
    else Acc(acc.spans, acc.text + cell.text, acc.attrs)
  }

  function ScanCells<A(==)>(acc: Acc<A>, cells: seq<Cell<A>>): Acc<A>
    decreases |cells|
  {
    if cells == [] then acc
    else StepCell(ScanCells(acc, cells[..|cells| - 1]), cells[|cells| - 1])
  }

  /** A whole line: its cells, then a newline appended to the current text. */
  function ScanLine<A(==)>(acc: Acc<A>, line: seq<Cell<A>>): Acc<A> {
    var a := ScanCells(acc, line);
    a.(text := a.text + "\n")
  }

  function ScanLines<A(==)>(acc: Acc<A>, lines: seq<seq<Cell<A>>>): Acc<A>
    decreases |lines|
  {
    if lines == [] then acc
    else ScanLine(ScanLines(acc, lines[..|lines| - 1]), lines[|lines| - 1])
  }

  /** The spans of a screen: the loop's spans, and the remaining text as a
      final span when it is longer than one character. */
  function Coalesce<A(==)>(lines: seq<seq<Cell<A>>>, defaultAttrs: A): seq<Span<A>> {
    var a := ScanLines(Start(defaultAttrs), lines);
    if |a.text| > 1 then a.spans + [Span(a.text, a.attrs)] else a.spans
  }

  // Reference definition: every character of the screen labelled with the
  // attributes it is drawn with.

  function Label<A>(text: string, attrs: A): (r: seq<(char, A)>)
    ensures |r| == |text|
  {
    seq(|text|, i requires 0 <= i < |text| => (text[i], attrs))
  }

  /** Each span's characters labelled with the span's attributes. */
  function Expand<A>(spans: seq<Span<A>>): seq<(char, A)>
    decreases |spans|
  {
    if spans == [] then []
    else Expand(spans[..|spans| - 1]) + Label(spans[|spans| - 1].text, spans[|spans| - 1].attrs)
  }

  /** Each cell's characters labelled with the cell's attributes. */
  function LabelCells<A>(cells: seq<Cell<A>>): seq<(char, A)>
    decreases |cells|
  {
    if cells == [] then []
    else LabelCells(cells[..|cells| - 1]) + Label(cells[|cells| - 1].text, cells[|cells| - 1].attrs)
  }

  /** The attributes of the last cell of `cells`, or `attrs` when there is none. */
  function LastAttrs<A>(cells: seq<Cell<A>>, attrs: A): A {
    if cells == [] then attrs else cells[|cells| - 1].attrs
  }

  /** The attributes of the last cell on the screen, or the default. */
  function ScreenLastAttrs<A>(lines: seq<seq<Cell<A>>>, defaultAttrs: A): A
    decreases |lines|
  {
    if lines == [] then defaultAttrs
    else LastAttrs(lines[|lines| - 1], ScreenLastAttrs(lines[..|lines| - 1], defaultAttrs))
  }

  /** The screen as labelled characters: each cell in its own attributes,
      each line's newline in the attributes of the last cell seen so far. */
  function Labelled<A>(lines: seq<seq<Cell<A>>>, defaultAttrs: A): seq<(char, A)>
    decreases |lines|
  {
    if lines == [] then []
    else Labelled(lines[..|lines| - 1], defaultAttrs) + LabelCells(lines[|lines| - 1])
         + [('\n', ScreenLastAttrs(lines, defaultAttrs))]
  }

  lemma LabelAppend<A>(t1: string, t2: string, attrs: A)
    ensures Label(t1 + t2, attrs) == Label(t1, attrs) + Label(t2, attrs)
  {
    assert forall i :: 0 <= i < |t1 + t2| ==>
      Label(t1 + t2, attrs)[i] == (Label(t1, attrs) + Label(t2, attrs))[i];
  }

  lemma StepCellTracks<A>(acc: Acc<A>, cell: Cell<A>)
    ensures Expand(StepCell(acc, cell).spans) + Label(StepCell(acc, cell).text, StepCell(acc, cell).attrs)
            == Expand(acc.spans) + Label(acc.text, acc.attrs) + Label(cell.text, cell.attrs)
    ensures StepCell(acc, cell).attrs == cell.attrs
  {
    var s := StepCell(acc, cell);
    if cell.attrs != acc.attrs {
      if acc.text != [] {
        assert s.spans[..|s.spans| - 1] == acc.spans;
      }
    } else {
      LabelAppend(acc.text, cell.text, acc.attrs);
    }
  }

  /** Scanning cells extends the labelled characters by those of the cells,
      and leaves the attributes of the last cell current. */
  lemma {:induction false} ScanCellsTracks<A>(acc: Acc<A>, cells: seq<Cell<A>>)
    ensures var a := ScanCells(acc, cells);
      Expand(a.spans) + Label(a.text, a.attrs) == Expand(acc.spans) + Label(acc.text, acc.attrs) + LabelCells(cells) &&
      a.attrs == LastAttrs(cells, acc.attrs)
    decreases |cells|
  {
    if cells != [] {
      var init, last := cells[..|cells| - 1], cells[|cells| - 1];
      ScanCellsTracks(acc, init);
      var a := ScanCells(acc, init);
      var s := StepCell(a, last);
      StepCellTracks(a, last);
      assert ScanCells(acc, cells) == s;
      var start := Expand(acc.spans) + Label(acc.text, acc.attrs);
      ExtendBy(Expand(s.spans) + Label(s.text, s.attrs), Expand(a.spans) + Label(a.text, a.attrs),
               start, LabelCells(init), Label(last.text, last.attrs));
    }
  }

  /** Two extensions in a row are one extension by both. */
  lemma ExtendBy<T>(z: seq<T>, y: seq<T>, x: seq<T>, p: seq<T>, q: seq<T>)
    requires z == y + q && y == x + p
    ensures z == x + (p + q)
  {
  }

  /** After any number of lines, the pushed spans followed by the current
      text are exactly the labelled screen; the current text is empty on an
      empty screen and ends in a newline otherwise. */
  lemma {:induction false} ScanLinesTracks<A>(lines: seq<seq<Cell<A>>>, defaultAttrs: A)
    ensures var a := ScanLines(Start(defaultAttrs), lines);
      Expand(a.spans) + Label(a.text, a.attrs) == Labelled(lines, defaultAttrs) &&
      a.attrs == ScreenLastAttrs(lines, defaultAttrs) &&
      (lines == [] <==> a.text == []) &&
      (lines != [] ==> a.text[|a.text| - 1] == '\n')
    decreases |lines|
  {
    if lines != [] {
      var init := lines[..|lines| - 1];
      var line := lines[|lines| - 1];
      ScanLinesTracks(init, defaultAttrs);
      var before := ScanLines(Start(defaultAttrs), init);
      ScanCellsTracks(before, line);
      var a := ScanCells(before, line);
      LabelAppend(a.text, "\n", a.attrs);
    }
  }

  /** The final text is emitted as a span: it is longer than one character. */
  ghost predicate TailEmitted<A>(lines: seq<seq<Cell<A>>>, defaultAttrs: A) {
    |ScanLines(Start(defaultAttrs), lines).text| > 1
  }

  /** The spans draw the labelled screen exactly when the final text is
      emitted; otherwise (on a non-empty screen) they miss only the final
      newline, a remaining text of length one. */
  lemma CoalesceLabelled<A>(lines: seq<seq<Cell<A>>>, defaultAttrs: A)
    ensures var spans := Coalesce(lines, defaultAttrs);
      Expand(spans) == Labelled(lines, defaultAttrs) ||
      (lines != [] &&
       Expand(spans) + [('\n', ScreenLastAttrs(lines, defaultAttrs))] == Labelled(lines, defaultAttrs))
    ensures lines != [] ==>
      (Expand(Coalesce(lines, defaultAttrs)) == Labelled(lines, defaultAttrs) <==> TailEmitted(lines, defaultAttrs))
    ensures lines != [] && !TailEmitted(lines, defaultAttrs) ==>
      Expand(Coalesce(lines, defaultAttrs)) + [('\n', ScreenLastAttrs(lines, defaultAttrs))] == Labelled(lines, defaultAttrs)
  {
    ScanLinesTracks(lines, defaultAttrs);
    var a := ScanLines(Start(defaultAttrs), lines);
    var spans := Coalesce(lines, defaultAttrs);
    if |a.text| > 1 {
      assert spans[..|spans| - 1] == a.spans;
    } else if lines != [] {
      assert a.text == "\n";
      assert |Expand(spans)| < |Labelled(lines, defaultAttrs)|;
    }
  }

  /** When the last line ends in a cell with text, nothing is dropped. */
  lemma CoalesceExact<A>(lines: seq<seq<Cell<A>>>, defaultAttrs: A)
    requires lines != [] && lines[|lines| - 1] != []
    requires lines[|lines| - 1][|lines[|lines| - 1]| - 1].text != []
    ensures Expand(Coalesce(lines, defaultAttrs)) == Labelled(lines, defaultAttrs)
  {
    ScanLinesTracks(lines, defaultAttrs);
    var init := lines[..|lines| - 1];
    var line := lines[|lines| - 1];
    var before := ScanLines(Start(defaultAttrs), init);
    var prefix := ScanCells(before, line[..|line| - 1]);
    assert line[..|line| - 1] + [line[|line| - 1]] == line;
    assert ScanCells(before, line) == StepCell(prefix, line[|line| - 1]);
    var a := ScanLines(Start(defaultAttrs), lines);
    assert |a.text| > 1;
    var spans := Coalesce(lines, defaultAttrs);
    assert spans[..|spans| - 1] == a.spans;
  }

  /** A blank line after a line with text is kept: the final text is the
      text of both lines, so nothing is dropped. */
  lemma TrailingBlankLineKept<A>(text: string, attrs: A, defaultAttrs: A)
    requires text != []
    ensures Expand(Coalesce([[Cell(text, attrs)], []], defaultAttrs)) == Labelled([[Cell(text, attrs)], []], defaultAttrs)
  {
    var lines := [[Cell(text, attrs)], []];
    assert lines[..1] == [[Cell(text, attrs)]];
    assert [[Cell(text, attrs)]][..0] == [];
    assert [Cell(text, attrs)][..0] == [];
    assert |ScanLines(Start(defaultAttrs), lines[..1]).text| >= 2;
    CoalesceLabelled(lines, defaultAttrs);
  }

  /** A single line without visible cells gives no span at all, although it
      holds a newline. */
  lemma BlankScreenDropsNewline<A>(defaultAttrs: A)
    ensures Coalesce([[]], defaultAttrs) == []
    ensures Labelled([[]], defaultAttrs) == [('\n', defaultAttrs)]
  {
    assert ScanLines(Start(defaultAttrs), [[]]).text == "\n";
  }

  // Text only.

  function Chars<A>(labelled: seq<(char, A)>): (s: string)
    ensures |s| == |labelled|
    ensures forall i :: 0 <= i < |s| ==> s[i] == labelled[i].0
  {
    seq(|labelled|, i requires 0 <= i < |labelled| => labelled[i].0)
  }

  /** The spans' texts, concatenated. */
  function Texts<A>(spans: seq<Span<A>>): string
    decreases |spans|
  {
    if spans == [] then "" else Texts(spans[..|spans| - 1]) + spans[|spans| - 1].text
  }

  function CellsText<A>(cells: seq<Cell<A>>): string
    decreases |cells|
  {
    if cells == [] then "" else CellsText(cells[..|cells| - 1]) + cells[|cells| - 1].text
  }

  /** The screen's text: each line's cell texts followed by a newline. */
  function ScreenText<A>(lines: seq<seq<Cell<A>>>): string
    decreases |lines|
  {
    if lines == [] then "" else ScreenText(lines[..|lines| - 1]) + CellsText(lines[|lines| - 1]) + "\n"
  }

  lemma CharsAppend<A>(x: seq<(char, A)>, y: seq<(char, A)>)
    ensures Chars(x + y) == Chars(x) + Chars(y)
  {
    assert forall i :: 0 <= i < |x + y| ==> Chars(x + y)[i] == (Chars(x) + Chars(y))[i];
  }

  lemma CharsOfLabel<A>(text: string, attrs: A)
    ensures Chars(Label(text, attrs)) == text
  {
  }

  lemma {:induction false} CharsOfExpand<A>(spans: seq<Span<A>>)
    ensures Chars(Expand(spans)) == Texts(spans)
    decreases |spans|
  {
    if spans != [] {
      var last := spans[|spans| - 1];
      CharsOfExpand(spans[..|spans| - 1]);
      CharsAppend(Expand(spans[..|spans| - 1]), Label(last.text, last.attrs));
      CharsOfLabel(last.text, last.attrs);
    }
  }

  lemma {:induction false} CharsOfLabelCells<A>(cells: seq<Cell<A>>)
    ensures Chars(LabelCells(cells)) == CellsText(cells)
    decreases |cells|
  {
    if cells != [] {
      var last := cells[|cells| - 1];
      CharsOfLabelCells(cells[..|cells| - 1]);
      CharsAppend(LabelCells(cells[..|cells| - 1]), Label(last.text, last.attrs));
      CharsOfLabel(last.text, last.attrs);
    }
  }

  lemma {:induction false} CharsOfLabelled<A>(lines: seq<seq<Cell<A>>>, defaultAttrs: A)
    ensures Chars(Labelled(lines, defaultAttrs)) == ScreenText(lines)
    decreases |lines|
  {
    if lines != [] {
      var init := lines[..|lines| - 1];
      var nl := [('\n', ScreenLastAttrs(lines, defaultAttrs))];
      CharsOfLabelled(init, defaultAttrs);
      CharsOfLabelCells(lines[|lines| - 1]);
      CharsAppend(Labelled(init, defaultAttrs), LabelCells(lines[|lines| - 1]));
      CharsAppend(Labelled(init, defaultAttrs) + LabelCells(lines[|lines| - 1]), nl);
    }
  }

  /** The spans' texts spell the screen (every line's cell texts, each
      followed by a newline) exactly when the final text is emitted;
      otherwise they spell it without its final newline. */
  lemma CoalesceText<A>(lines: seq<seq<Cell<A>>>, defaultAttrs: A)
    ensures Texts(Coalesce(lines, defaultAttrs)) == ScreenText(lines) ||
            (lines != [] && Texts(Coalesce(lines, defaultAttrs)) + "\n" == ScreenText(lines))
    ensures lines != [] ==>
      (Texts(Coalesce(lines, defaultAttrs)) == ScreenText(lines) <==> TailEmitted(lines, defaultAttrs))
    ensures lines != [] && !TailEmitted(lines, defaultAttrs) ==>
      Texts(Coalesce(lines, defaultAttrs)) + "\n" == ScreenText(lines)
  {
    var spans := Coalesce(lines, defaultAttrs);
    CoalesceLabelled(lines, defaultAttrs);
    CharsOfExpand(spans);
    CharsOfLabelled(lines, defaultAttrs);
    if Expand(spans) != Labelled(lines, defaultAttrs) {
      CharsAppend(Expand(spans), [('\n', ScreenLastAttrs(lines, defaultAttrs))]);
      assert |Texts(spans)| < |ScreenText(lines)|;
    }
  }

  // Shape of the spans.

  /** Every span carries some text. */
  ghost predicate AllHaveText<A>(spans: seq<Span<A>>) {
    forall i :: 0 <= i < |spans| ==> spans[i].text != []
  }

  lemma {:induction false} ScanCellsSpansHaveText<A>(acc: Acc<A>, cells: seq<Cell<A>>)
    requires AllHaveText(acc.spans)
    ensures AllHaveText(ScanCells(acc, cells).spans)
    decreases |cells|
  {
    if cells != [] {
      ScanCellsSpansHaveText(acc, cells[..|cells| - 1]);
      var a := ScanCells(acc, cells[..|cells| - 1]);
      var s := StepCell(a, cells[|cells| - 1]);
      assert ScanCells(acc, cells) == s;
      assert s.spans == a.spans || (s.spans == a.spans + [Span(a.text, a.attrs)] && a.text != []);
    }
  }

  lemma {:induction false} SpansHaveText<A>(lines: seq<seq<Cell<A>>>, defaultAttrs: A)
    ensures AllHaveText(ScanLines(Start(defaultAttrs), lines).spans)
    decreases |lines|
  {
    if lines != [] {
      var init := lines[..|lines| - 1];
      SpansHaveText(init, defaultAttrs);
      var before := ScanLines(Start(defaultAttrs), init);
      ScanCellsSpansHaveText(before, lines[|lines| - 1]);
      assert ScanLines(Start(defaultAttrs), lines).spans == ScanCells(before, lines[|lines| - 1]).spans;
    }
  }

  /** No span is empty, and no two neighbouring spans share attributes. */
  ghost predicate Maximal<A>(spans: seq<Span<A>>) {
    AllHaveText(spans) &&
    (forall i :: 0 < i < |spans| ==> spans[i - 1].attrs != spans[i].attrs)
  }

  ghost predicate AllCellsHaveText<A>(lines: seq<seq<Cell<A>>>) {
    forall y, x :: 0 <= y < |lines| && 0 <= x < |lines[y]| ==> lines[y][x].text != []
  }

  /** What holds of the loop's state while every cell brings text. */
  ghost predicate Tidy<A>(acc: Acc<A>) {
    Maximal(acc.spans) &&
    (acc.spans != [] ==> acc.spans[|acc.spans| - 1].attrs != acc.attrs) &&
    (acc.text == [] ==> acc.spans == [])
  }

  lemma {:induction false} ScanCellsTidy<A>(acc: Acc<A>, cells: seq<Cell<A>>)
    requires Tidy(acc)
    requires forall x :: 0 <= x < |cells| ==> cells[x].text != []
    ensures Tidy(ScanCells(acc, cells))
    decreases |cells|
  {
    if cells != [] {
      ScanCellsTidy(acc, cells[..|cells| - 1]);
      var a := ScanCells(acc, cells[..|cells| - 1]);
      var s := StepCell(a, cells[|cells| - 1]);
      if s.spans != a.spans {
        assert s.spans[..|a.spans|] == a.spans;
      }
    }
  }

  lemma {:induction false} ScanLinesTidy<A>(lines: seq<seq<Cell<A>>>, defaultAttrs: A)
    requires AllCellsHaveText(lines)
    ensures Tidy(ScanLines(Start(defaultAttrs), lines))
    decreases |lines|
  {
    if lines != [] {
      var init: seq<seq<Cell<A>>> := lines[..|lines| - 1];
      assert AllCellsHaveText(init) by {
        forall y, x | 0 <= y < |init| && 0 <= x < |init[y]| ensures init[y][x].text != [] {
          assert init[y] == lines[y];
        }
      }
      ScanLinesTidy(init, defaultAttrs);
      var line := lines[|lines| - 1];
      assert forall x :: 0 <= x < |line| ==> line[x].text != [] by {
        forall x | 0 <= x < |line| ensures line[x].text != [] {
          assert line[x] == lines[|lines| - 1][x];
        }
      }
      ScanCellsTidy(ScanLines(Start(defaultAttrs), init), line);
    }
  }

  /** Every span carries text; when every cell brings text, the spans are
      also maximal: neighbouring spans differ in their attributes. */
  lemma CoalesceMaximal<A>(lines: seq<seq<Cell<A>>>, defaultAttrs: A)
    ensures AllHaveText(Coalesce(lines, defaultAttrs))
    ensures AllCellsHaveText(lines) ==> Maximal(Coalesce(lines, defaultAttrs))
  {
    SpansHaveText(lines, defaultAttrs);
    var a := ScanLines(Start(defaultAttrs), lines);
    var spans := Coalesce(lines, defaultAttrs);
    if |a.text| > 1 {
      assert spans == a.spans + [Span(a.text, a.attrs)];
    }
    if AllCellsHaveText(lines) {
      ScanLinesTidy(lines, defaultAttrs);
      if |a.text| > 1 {
        assert spans[..|a.spans|] == a.spans;
      }
    }
  }

  /** The widget's layout state: the spans of the last layout. */
  class WidgetState<A(==)> {
    var spans: seq<Span<A>>

    constructor ()
      ensures spans == []
    {
      spans := [];
    }

    /** Rebuilds the spans from the screen's lines, cell by cell. The old
        spans are cleared first, so the result depends on the screen only. */
    method Layout(lines: seq<seq<Cell<A>>>, defaultAttrs: A)
      modifies this
      ensures spans == Coalesce(lines, defaultAttrs)
    {
      var currentText: string := "";
      var currentAttrs := defaultAttrs;
      spans := [];
      for y := 0 to |lines|
        invariant ScanLines(Start(defaultAttrs), lines[..y]) == Acc(spans, currentText, currentAttrs)
      {
        var line := lines[y];
        for x := 0 to |line|
          invariant ScanCells(ScanLines(Start(defaultAttrs), lines[..y]), line[..x])
                    == Acc(spans, currentText, currentAttrs)
        {
          var cell := line[x];
          if cell.attrs != currentAttrs {
            if currentText != [] {
              spans := spans + [Span(currentText, currentAttrs)];
              currentText := "";
            }
            currentAttrs := cell.attrs;
          }
          currentText := currentText + cell.text;
          assert line[..x + 1][..x] == line[..x];
        }
        currentText := currentText + "\n";
        assert line[..|line|] == line;
        assert lines[..y + 1][..y] == lines[..y];
      }
      assert lines[..|lines|] == lines;
      if |currentText| > 1 {
        spans := spans + [Span(currentText, currentAttrs)];
      }
    }
  }

  // ---------------------------------------------------------------------
  // Resizing

  datatype Event = RedrawRequested | OtherEvent

  datatype Status = Captured | Ignored

  /** A terminal size: rows and columns, and the pixel size they fill. The
      widget's target is one, computed from its bounds; a resize request is
      another, whose dpi keeps the default. */
  datatype TerminalSize = TerminalSize(rows: nat, cols: nat, pixelWidth: nat, pixelHeight: nat)

  /** On a redraw, the widget captures the event and asks for a resize
      exactly when the screen's rows or columns differ from the target;
      every other event is ignored. */
  function OnEvent(event: Event, physicalRows: nat, physicalCols: nat, target: TerminalSize)
    : (r: (Status, Option<TerminalSize>))
    ensures r.0 == Captured <==> event.RedrawRequested?
    ensures r.1.Some? <==>
      event.RedrawRequested? && (physicalRows != target.rows || physicalCols != target.cols)
    ensures r.1.Some? ==> r.1.value == target
  {
    match event
    case RedrawRequested =>
      if physicalRows != target.rows || physicalCols != target.cols then
        (Captured, Some(target))
      else (Captured, None)
    case OtherEvent => (Ignored, None)
  }

  /** Once the terminal takes on a requested size, the next redraw with the
      same bounds requests nothing more. */
  lemma ResizeSettles(event: Event, physicalRows: nat, physicalCols: nat, target: TerminalSize)
    requires OnEvent(event, physicalRows, physicalCols, target).1.Some?
    ensures var size := OnEvent(event, physicalRows, physicalCols, target).1.value;
      OnEvent(RedrawRequested, size.rows, size.cols, target) == (Captured, None)
  {
  }
}
