/**
 * TextBox: a one-line input field drawn as a three-row box at the cursor
 * position, edited key by key until Enter.
 */
module TextBoxes {
  import opened Wrappers
  import opened BConsole
  import opened LineEdit

  /** BConsole.BoxChars. */
  const TopLeft: char := '╔'
  const TopRight: char := '╗'
  const BottomLeft: char := '╚'
  const BottomRight: char := '╝'
  const Vertical: char := '═'
  const Horizontal: char := '║'

  /** Why ReadLine returns no text. */
  datatype ReadError =
    | NarrowBox   // new String(c, Width - 2) with Width < 2 in DrawBox
    | NoMoreKeys  // every key given was read without an Enter: ReadKey would still be waiting

  /** One row of the box: its left edge, `n` fill characters, its right edge, and a line terminator. */
  function Row(left: char, fill: char, n: nat, right: char, color: ConsoleColor): seq<Event>
  {
    [Put([left], color), Put(Repeat(fill, n), color), Put([right], color), LineEnd]
  }

  /** The three rows DrawBox writes, in the box colour. */
  function BoxRows(width: int, color: ConsoleColor): (r: seq<Event>)
    requires width >= 2
    ensures |r| == 12 && forall k | 0 <= k < 12 :: r[k].LineEnd? <==> k % 4 == 3
  {
    Row(TopLeft, Vertical, width - 2, TopRight, color)
    + Row(Horizontal, ' ', width - 2, Horizontal, color)
    + Row(BottomLeft, Vertical, width - 2, BottomRight, color)
  }

  /** Console.Write of the edge, of new String(fill, n) and Console.WriteLine of the other edge. */
  method WriteRow(term: Terminal, left: char, fill: char, n: nat, right: char)
    modifies term
    ensures term.output == old(term.output) + Row(left, fill, n, right, old(term.color))
    ensures term.color == old(term.color)
  {
    term.Write([left]);
    term.Write(Repeat(fill, n));
    term.Write([right]);
    term.WriteLine();
  }

  /**
   * What DrawText writes for a line: from column 1 of the text row, the
   * text and then blanks up to the box's inner width, then the cursor goes
   * to column Cursor.X + 1.
   */
  function Echo(l: Line, width: int, row: int, c: ConsoleColor): (r: seq<Event>)
    requires Fits(l, width) && width >= 2
    ensures |r| == 4 && r[0] == MoveTo(1, row) && r[3] == MoveTo(l.cursor + 1, row)
    ensures r[1].Put? && r[2].Put? && |r[1].text + r[2].text| == width - 2
  {
    [MoveTo(1, row), Put(l.text, c), Put(Repeat(' ', width - 2 - |l.text|), c), MoveTo(l.cursor + 1, row)]
  }

  /** Every DrawText of a run of keys: one echo after each key. */
  function Echoes(l: Line, ks: seq<KeyInfo>, width: int, row: int, c: ConsoleColor): (r: seq<Event>)
    requires Fits(l, width) && width >= 2
    ensures |r| == 4 * |ks|
  {
    if ks == [] then []
    else Echoes(l, ks[..|ks| - 1], width, row, c) + Echo(PressAll(l, ks, width), width, row, c)
  }

  class TextBox {
    /** The console the box is drawn on. */
    const term: Terminal
    const width: int
    /** The box colour. */
    const color: ConsoleColor
    /** The cursor position at construction: the box's top-left corner. */
    const location: (int, int)
    /** Cursor.Y, the text row; only Cursor.X ever changes. */
    const cursorY: int
    /** Str. */
    var str: string
    /** Cursor.X. */
    var cursorX: int

    /** Between calls: a console exists, the text row is below the top edge, and the line fits. */
    ghost predicate Valid()
      reads this, term
    {
      term.hasConsole && cursorY == location.1 + 1 && Fits(Line(str, cursorX), width)
    }

    /** The constructor; it reads Console.CursorLeft/CursorTop, which needs a console. */
    constructor (term: Terminal, width: int, color: ConsoleColor)
      requires term.hasConsole
      ensures this.term == term && this.width == width && this.color == color
      ensures location == (term.cursorLeft, term.cursorTop)
      ensures str == [] && cursorX == 0 && cursorY == location.1 + 1
      ensures Valid()
    {
      this.term := term;
      this.width := width;
      this.color := color;
      location := (term.cursorLeft, term.cursorTop);
      cursorY := term.cursorTop + 1;
      str := [];
      cursorX := 0;
    }

    /**
     * DrawBox: sets the box colour (and leaves it set), draws the three rows
     * from the box's corner, and puts the cursor on the text row at
     * Cursor.X + 1. With Width < 2 only the top-left corner is drawn before
     * new String throws.
     */
    method DrawBox() returns (ok: bool)
      requires Valid()
      modifies term
      ensures ok <==> width >= 2
      ensures term.color == color
      ensures ok ==>
        term.output == old(term.output) + [MoveTo(location.0, location.1)] + BoxRows(width, color)
                       + [MoveTo(cursorX + 1, cursorY)]
        && term.cursorLeft == cursorX + 1 && term.cursorTop == cursorY
      ensures !ok ==> term.output == old(term.output) + [MoveTo(location.0, location.1), Put([TopLeft], color)]
    {
      term.SetForegroundColor(color);
      term.SetCursorPosition(location.0, location.1);
      term.Write([TopLeft]);
      if width < 2 {
        return false;
      }
      term.Write(Repeat(Vertical, width - 2));
      term.Write([TopRight]);
      term.WriteLine();
      WriteRow(term, Horizontal, ' ', width - 2, Horizontal);
      WriteRow(term, BottomLeft, Vertical, width - 2, BottomRight);
      term.SetCursorPosition(cursorX + 1, cursorY);
      ok := true;
    }

    /** DrawText: redraws the text row and puts the cursor at Cursor.X + 1. */
    method DrawText()
      requires Valid() && width >= 2
      modifies term
      ensures term.output == old(term.output) + Echo(Line(str, cursorX), width, cursorY, old(term.color))
      ensures term.cursorLeft == cursorX + 1 && term.cursorTop == cursorY && term.color == old(term.color)
    {
      term.SetCursorPosition(1, cursorY);
      term.Write(str);
      term.Write(Repeat(' ', width - |str| - 2));
      term.SetCursorPosition(cursorX + 1, cursorY);
    }

    /**
     * ProcessClipboard when the clipboard holds no text: the key's character
     * is inserted at the cursor if the box has room.
     */
    method ProcessClipboard(k: KeyInfo)
      requires Valid()
      modifies this`str
      ensures str == if |old(str)| < Room(width) then Insert(old(str), cursorX, k.keyChar) else old(str)
    {
      if |str| < width - 2 {
        str := Insert(str, cursorX, k.keyChar);
      }
    }

    /**
     * ProcessKey: edits Str and Cursor.X as Edit says, reading the console
     * column for Delete; `ok` is false when StringBuilder.Remove throws, and
     * then nothing has changed.
     */
    method ProcessKey(k: KeyInfo) returns (ok: bool)
      requires Valid()
      modifies this`str, this`cursorX
      ensures var e := Edit(Line(old(str), old(cursorX)), k, width, term.cursorLeft);
        (ok <==> e.Some?) && (ok ==> Line(str, cursorX) == e.value)
      ensures !ok ==> str == old(str) && cursorX == old(cursorX)
      ensures ok ==> Valid()
    {
      EditKeepsFit(Line(str, cursorX), k, width, term.cursorLeft);
      var column := term.cursorLeft;
      match k.key {
      case Backspace =>
        if cursorX > 0 {
          str := Remove(str, cursorX - 1);
          cursorX := cursorX - 1;
        }
      case V =>
        ProcessClipboard(k);
        cursorX := |str|;
      case Delete =>
        if column - 1 < |str| {
          if cursorX >= |str| {
            return false;
          }
          str := Remove(str, cursorX);
        }
      case Home =>
        cursorX := 0;
      case End =>
        cursorX := |str|;
      case LeftArrow =>
        if cursorX > 0 {
          cursorX := cursorX - 1;
        }
      case RightArrow =>
        if cursorX < |str| {
          cursorX := cursorX + 1;
        }
      case _ =>
        if |str| < width - 2 && TextKey(k) {
          cursorX := cursorX + 1;
          str := Insert(str, cursorX - 1, k.keyChar);
        }
      }
      ok := true;
    }

    /** One pass of ReadLine's loop body: the key is processed and the text redrawn. */
    method Keystroke(k: KeyInfo)
      requires Valid() && width >= 2
      requires term.cursorLeft == cursorX + 1 && term.cursorTop == cursorY
      modifies this`str, this`cursorX, term
      ensures Valid() && term.color == old(term.color)
      ensures Line(str, cursorX) == Press(Line(old(str), old(cursorX)), k, width)
      ensures term.output == old(term.output) + Echo(Line(str, cursorX), width, cursorY, old(term.color))
      ensures term.cursorLeft == cursorX + 1 && term.cursorTop == cursorY
    {
      EditKeepsFit(Line(str, cursorX), k, width, cursorX + 1);
      var processed := ProcessKey(k);
      DrawText();
    }

    /** Keystroke for the i-th key, stated over the whole run of keys read so far. */
    method NextKey(keys: seq<KeyInfo>, i: nat, ghost start: Line, ghost before: seq<Event>)
      requires i < |keys| && Valid() && width >= 2 && Fits(start, width)
      requires Line(str, cursorX) == PressAll(start, keys[..i], width)
      requires term.cursorLeft == cursorX + 1 && term.cursorTop == cursorY
      requires term.output == before + Echoes(start, keys[..i], width, cursorY, term.color)
      modifies this`str, this`cursorX, term
      ensures Valid() && term.color == old(term.color)
      ensures Line(str, cursorX) == PressAll(start, keys[..i + 1], width)
      ensures term.cursorLeft == cursorX + 1 && term.cursorTop == cursorY
      ensures term.output == before + Echoes(start, keys[..i + 1], width, cursorY, term.color)
    {
      PressNext(start, keys, i, width, cursorY, term.color);
      ghost var echoed := Echoes(start, keys[..i], width, cursorY, term.color);
      Keystroke(keys[i]);
      assert before + (echoed + Echo(Line(str, cursorX), width, cursorY, term.color))
             == (before + echoed) + Echo(Line(str, cursorX), width, cursorY, term.color);
    }

    /**
     * The do-while loop of ReadLine: read a key, process it, redraw the text,
     * and stop after the first Enter; `entered` is false when the keys run out first.
     */
    method ReadKeys(keys: seq<KeyInfo>) returns (entered: bool)
      requires Valid() && width >= 2
      requires term.cursorLeft == cursorX + 1 && term.cursorTop == cursorY
      modifies this`str, this`cursorX, term
      ensures Valid() && term.color == old(term.color)
      ensures entered <==> FirstEnter(keys).Some?
      ensures entered ==>
        var read := keys[..FirstEnter(keys).value + 1];
        Line(str, cursorX) == PressAll(Line(old(str), old(cursorX)), read, width)
        && term.output == old(term.output) + Echoes(Line(old(str), old(cursorX)), read, width, cursorY, old(term.color))
      ensures !entered ==>
        Line(str, cursorX) == PressAll(Line(old(str), old(cursorX)), keys, width)
        && term.output == old(term.output) + Echoes(Line(old(str), old(cursorX)), keys, width, cursorY, old(term.color))
    {
      ghost var start := Line(str, cursorX);
      ghost var before := term.output;
      ghost var c := term.color;
      var i, done := 0, false;
      while !done
        invariant 0 <= i <= |keys| && Valid() && term.color == c
        invariant done ==> 0 < i && keys[i - 1].key == Enter
        invariant forall j | 0 <= j < (if done then i - 1 else i) :: keys[j].key != Enter
        invariant Line(str, cursorX) == PressAll(start, keys[..i], width)
        invariant term.cursorLeft == cursorX + 1 && term.cursorTop == cursorY
        invariant term.output == before + Echoes(start, keys[..i], width, cursorY, c)
        decreases |keys| - i
      {
        if i == |keys| {
          assert keys[..i] == keys;
          return false;
        }
        var key := keys[i];
        NextKey(keys, i, start, before);
        i, done := i + 1, key.key == Enter;
      }
      FirstEnterAt(keys, i - 1);
      entered := true;
    }

    /**
     * ReadLine: draws the box, then reads keys, editing and redrawing the text
     * after each one, until a key that is Enter has been processed; the cursor
     * then goes three rows below the box's corner and the text is returned.
     * `keys` stands for what Console.ReadKey yields, in order.
     */
    method ReadLine(keys: seq<KeyInfo>) returns (r: Result<string, ReadError>)
      requires Valid()
      modifies this`str, this`cursorX, term
      ensures Valid() && term.color == color
      ensures width < 2 ==> r == Err(NarrowBox) && str == old(str) && cursorX == old(cursorX)
      ensures width >= 2 && FirstEnter(keys).None? ==>
        r == Err(NoMoreKeys) && Line(str, cursorX) == PressAll(Line(old(str), old(cursorX)), keys, width)
      ensures width >= 2 && FirstEnter(keys).Some? ==>
        var read := keys[..FirstEnter(keys).value + 1];
        Line(str, cursorX) == PressAll(Line(old(str), old(cursorX)), read, width)
        && r == Ok(str)
        && term.output == old(term.output) + [MoveTo(location.0, location.1)] + BoxRows(width, color)
           + [MoveTo(old(cursorX) + 1, cursorY)]
           + Echoes(Line(old(str), old(cursorX)), read, width, cursorY, color)
           + [MoveTo(location.0, location.1 + 3)]
        && term.cursorLeft == location.0 && term.cursorTop == location.1 + 3
    {
      ghost var start := Line(str, cursorX);
      var drawn := DrawBox();
      if !drawn {
        return Err(NarrowBox);
      }
      ghost var boxed := term.output;
      assert Line(str, cursorX) == start && term.color == color;
      var entered := ReadKeys(keys);
      if !entered {
        return Err(NoMoreKeys);
      }
      ghost var read := keys[..FirstEnter(keys).value + 1];
      assert term.output == boxed + Echoes(start, read, width, cursorY, color);
      term.SetCursorPosition(location.0, location.1 + 3);
      r := Ok(str);
    }
  }

  /** The first Enter is the one with no Enter before it. */
  lemma FirstEnterAt(keys: seq<KeyInfo>, m: nat)
    requires m < |keys| && keys[m].key == Enter && forall j | 0 <= j < m :: keys[j].key != Enter
    ensures FirstEnter(keys) == Some(m)
  {
  }

  /** One more key: its press and its echo extend those of the keys before it. */
  lemma PressNext(start: Line, keys: seq<KeyInfo>, i: nat, width: int, row: int, c: ConsoleColor)
    requires Fits(start, width) && width >= 2 && i < |keys|
    ensures PressAll(start, keys[..i + 1], width) == Press(PressAll(start, keys[..i], width), keys[i], width)
    ensures Echoes(start, keys[..i + 1], width, row, c)
            == Echoes(start, keys[..i], width, row, c) + Echo(PressAll(start, keys[..i + 1], width), width, row, c)
  {
    assert keys[..i + 1][..i] == keys[..i];
  }

  /** `new TextBox(Width, Color)`, which throws when no console is attached. */
  method New(term: Terminal, width: int, color: ConsoleColor) returns (r: Option<TextBox>)
    ensures r.Some? <==> term.hasConsole
    ensures r.Some? ==>
      fresh(r.value) && r.value.Valid() && r.value.term == term && r.value.width == width
      && r.value.color == color && r.value.str == [] && r.value.cursorX == 0
      && r.value.location == (term.cursorLeft, term.cursorTop)
  {
    if !term.hasConsole {
      return None;
    }
    var box := new TextBox(term, width, color);
    r := Some(box);
  }
}
