/**
 * What one key press does to a TextBox's text and cursor, as values. The
 * class in text_box.dfy applies the same edits in place.
 */
module LineEdit {
  import opened Wrappers

  /** The ConsoleKey values that TextBox.ProcessKey distinguishes; every other key is OtherKey. */
  datatype ConsoleKey = Backspace | V | Delete | Home | End | LeftArrow | RightArrow | Enter | OtherKey

  /** ConsoleKeyInfo: the key and the character it produced. */
  datatype KeyInfo = KeyInfo(key: ConsoleKey, keyChar: char)

  /** The editable state: the StringBuilder's text and Cursor.X, an index into it. */
  datatype Line = Line(text: string, cursor: int)

  /** TextBox.TextKey: the key produced a character other than NUL and ESC. */
  predicate TextKey(k: KeyInfo)
  {
    k.keyChar != '\0' && k.keyChar != '\U{1B}'
  }

  /** StringBuilder.Insert of one character at index i. */
  function Insert(s: string, i: nat, c: char): (r: string)
    requires i <= |s|
    ensures |r| == |s| + 1 && r[i] == c && r[..i] == s[..i] && r[i + 1..] == s[i..]
  {
    s[..i] + [c] + s[i..]
  }

  /** StringBuilder.Remove(i, 1). */
  function Remove(s: string, i: nat): (r: string)
    requires i < |s|
    ensures |r| == |s| - 1 && r[..i] == s[..i] && r[i..] == s[i + 1..]
  {
    s[..i] + s[i + 1..]
  }

  /** The room the box leaves for text: Width - 2 characters. */
  function Room(width: int): int
  {
    width - 2
  }

  /**
   * TextBox.ProcessKey on the text and cursor; `column` is Console.CursorLeft,
   * which the Delete branch reads. None when the StringBuilder call the branch
   * makes is out of range and throws.
   */
  function Edit(l: Line, k: KeyInfo, width: int, column: int): (r: Option<Line>)
    requires l.cursor >= 0
    ensures r.None? ==> l.cursor >= |l.text|
    ensures r.None? && l.cursor == |l.text| ==> k.key == Delete && column - 1 < |l.text|
    ensures r.Some? ==> r.value.cursor >= 0 && |l.text| - 1 <= |r.value.text| <= |l.text| + 1
  {
    match k.key
    case Backspace =>
      if l.cursor > 0 then
        if l.cursor - 1 < |l.text| then Some(Line(Remove(l.text, l.cursor - 1), l.cursor - 1)) else None
      else Some(l)
    case V =>
      // ProcessClipboard with an empty clipboard, then Cursor.X = Str.Length
      if |l.text| < Room(width) then
        if l.cursor <= |l.text| then
          var t := Insert(l.text, l.cursor, k.keyChar); Some(Line(t, |t|))
        else None
      else Some(Line(l.text, |l.text|))
    case Delete =>
      if column - 1 < |l.text| then
        if l.cursor < |l.text| then Some(Line(Remove(l.text, l.cursor), l.cursor)) else None
      else Some(l)
    case Home => Some(Line(l.text, 0))
    case End => Some(Line(l.text, |l.text|))
    case LeftArrow => if l.cursor > 0 then Some(Line(l.text, l.cursor - 1)) else Some(l)
    case RightArrow => if l.cursor < |l.text| then Some(Line(l.text, l.cursor + 1)) else Some(l)
    case _ =>
      // Enter falls here too, with KeyChar '\r'
      if |l.text| < Room(width) && TextKey(k) then
        if l.cursor <= |l.text| then Some(Line(Insert(l.text, l.cursor, k.keyChar), l.cursor + 1)) else None
      else Some(l)
  }

  /**
   * What holds between key presses in ReadLine: the cursor is inside the
   * text and the text fits in the box (or is empty, for a box too narrow).
   */
  predicate Fits(l: Line, width: int)
  {
    0 <= l.cursor <= |l.text| && (l.text == [] || |l.text| <= Room(width))
  }

  /**
   * Console.CursorLeft is Cursor.X + 1 while ReadLine waits for a key, so
   * every key of a fitting line edits without throwing, and the line still fits.
   */
  lemma EditKeepsFit(l: Line, k: KeyInfo, width: int, column: int)
    requires Fits(l, width)
    ensures column == l.cursor + 1 ==> Edit(l, k, width, column).Some?
    ensures Edit(l, k, width, column).Some? ==> Fits(Edit(l, k, width, column).value, width)
  {
    match k.key {
      case Backspace =>
      case V =>
      case Delete =>
      case _ =>
    }
  }

  /** The edit ReadLine makes for each key, with the cursor column where DrawText put it. */
  function Press(l: Line, k: KeyInfo, width: int): (r: Line)
    requires Fits(l, width)
    ensures Fits(r, width)
  {
    EditKeepsFit(l, k, width, l.cursor + 1);
    Edit(l, k, width, l.cursor + 1).value
  }

  /** The line after a run of key presses. */
  function PressAll(l: Line, ks: seq<KeyInfo>, width: int): (r: Line)
    requires Fits(l, width)
    ensures Fits(r, width)
    ensures |r.text| <= |l.text| + |ks|
  {
    if ks == [] then l
    else Press(PressAll(l, ks[..|ks| - 1], width), ks[|ks| - 1], width)
  }

  /** The index of the first Enter in ks, if there is one. */
  function FirstEnter(ks: seq<KeyInfo>): (r: Option<nat>)
    ensures r.Some? ==>
      r.value < |ks| && ks[r.value].key == Enter && forall j | 0 <= j < r.value :: ks[j].key != Enter
    ensures r.None? ==> forall j | 0 <= j < |ks| :: ks[j].key != Enter
  {
    if ks == [] then None
    else if ks[0].key == Enter then Some(0)
    else match FirstEnter(ks[1..])
      case None => None
      case Some(n) => Some(n + 1)
  }

  // ------------------------------------------------------------ properties

  /**
   * A text key (Enter included) inserts its character at the cursor and
   * moves the cursor past it exactly when the box has room; otherwise
   * nothing changes.
   */
  lemma TypingInserts(l: Line, k: KeyInfo, width: int)
    requires Fits(l, width)
    requires k.key == OtherKey || k.key == Enter
    ensures var r := Press(l, k, width);
      (r != l <==> |l.text| < Room(width) && TextKey(k))
      && (r != l ==> r == Line(Insert(l.text, l.cursor, k.keyChar), l.cursor + 1))
  {
    if |l.text| < Room(width) && TextKey(k) {
      assert |Press(l, k, width).text| == |l.text| + 1;
    }
  }

  /** NUL and ESC are not text keys: pressing a key that produces one leaves the line as it was. */
  lemma ControlKeysIgnored(l: Line, k: KeyInfo, width: int)
    requires Fits(l, width)
    requires k.key == OtherKey || k.key == Enter
    requires k.keyChar == '\0' || k.keyChar == '\U{1B}'
    ensures Press(l, k, width) == l
  {
  }

  /** Enter is not special to ProcessKey: with room, its '\r' becomes part of the text. */
  lemma EnterInsertsReturn(l: Line, width: int)
    requires Fits(l, width) && |l.text| < Room(width)
    ensures Press(l, KeyInfo(Enter, '\r'), width).text == Insert(l.text, l.cursor, '\r')
  {
  }

  /** Backspace removes the character before the cursor and steps back over it. */
  lemma BackspaceRemoves(l: Line, c: char, width: int)
    requires Fits(l, width)
    ensures var r := Press(l, KeyInfo(Backspace, c), width);
      if l.cursor > 0 then r == Line(Remove(l.text, l.cursor - 1), l.cursor - 1) else r == l
  {
  }

  /** Delete removes the character under the cursor, and does nothing at the end of the text. */
  lemma DeleteRemoves(l: Line, c: char, width: int)
    requires Fits(l, width)
    ensures var r := Press(l, KeyInfo(Delete, c), width);
      if l.cursor < |l.text| then r == Line(Remove(l.text, l.cursor), l.cursor) else r == l
  {
  }

  /**
   * Delete's guard compares Console.CursorLeft, not Cursor.X, with the
   * length: with the console cursor anywhere left of the text's end and
   * Cursor.X at the end, StringBuilder.Remove is out of range.
   */
  lemma DeleteGuardReadsConsole(l: Line, c: char, width: int, column: int)
    requires Fits(l, width) && l.cursor == |l.text| && column - 1 < |l.text|
    ensures Edit(l, KeyInfo(Delete, c), width, column).None?
  {
  }

  /** The cursor keys move only the cursor, and never out of the text. */
  lemma CursorKeysMoveOnly(l: Line, k: KeyInfo, width: int)
    requires Fits(l, width)
    requires k.key in {Home, End, LeftArrow, RightArrow}
    ensures var r := Press(l, k, width);
      r.text == l.text
      && r.cursor == match k.key
        case Home => 0
        case End => |l.text|
        case LeftArrow => if l.cursor > 0 then l.cursor - 1 else 0
        case _ => if l.cursor < |l.text| then l.cursor + 1 else |l.text|
  {
  }

  /**
   * The V key goes to ProcessClipboard: with an empty clipboard its
   * character is inserted at the cursor whenever there is room, text key or
   * not, and the cursor jumps to the end of the text.
   */
  lemma PasteKeyInserts(l: Line, c: char, width: int)
    requires Fits(l, width)
    ensures var r := Press(l, KeyInfo(V, c), width);
      r.cursor == |r.text|
      && r.text == if |l.text| < Room(width) then Insert(l.text, l.cursor, c) else l.text
  {
  }

  /** Removing the character just inserted gives the text back. */
  lemma RemoveInsert(s: string, i: nat, c: char)
    requires i <= |s|
    ensures Remove(Insert(s, i, c), i) == s
  {
    var t := Insert(s, i, c);
    assert t[..i] + t[i + 1..] == s[..i] + s[i..];
    assert s[..i] + s[i..] == s;
  }

  /** Typing a character and then Backspace leaves the line as it was. */
  lemma TypeThenBackspace(l: Line, c: char, width: int)
    requires Fits(l, width) && |l.text| < Room(width) && c != '\0' && c != '\U{1B}'
    ensures Press(Press(l, KeyInfo(OtherKey, c), width), KeyInfo(Backspace, '\U{8}'), width) == l
  {
    var typed := Press(l, KeyInfo(OtherKey, c), width);
    assert typed == Line(Insert(l.text, l.cursor, c), l.cursor + 1);
    RemoveInsert(l.text, l.cursor, c);
  }
}
