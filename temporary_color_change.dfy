/**
 * TemporaryForegroundColorChange: changes the foreground colour for the
 * length of a block, then restores it. Unlike cursor moves, nothing here is
 * gated on HasConsole.
 */
module ColorGuard {
  import opened BConsole

  class TemporaryForegroundColorChange {
    const term: Terminal
    /** The colour in effect before the change. */
    const saved: ConsoleColor

    /** Records the current foreground colour, then sets `color`; nothing else changes. */
    constructor (term: Terminal, color: ConsoleColor)
      modifies term`color
      ensures this.term == term && saved == old(term.color) && term.color == color
    {
      this.term := term;
      saved := term.color;
      new;
      term.SetForegroundColor(color);
    }

    /** Sets the foreground colour back to the recorded one; nothing else changes. */
    method Dispose()
      modifies term`color
      ensures term.color == saved
    {
      term.SetForegroundColor(saved);
    }
  }

  /**
   * BConsole.Write(value, Color): the text goes out in `color` and the
   * ambient colour is the same afterwards.
   */
  method WriteInColor(term: Terminal, text: string, color: ConsoleColor)
    modifies term
    ensures term.output == old(term.output) + [Put(text, color)]
    ensures term.color == old(term.color) && term.cursorTop == old(term.cursorTop)
    ensures term.cursorLeft ==
      if term.hasConsole then old(term.cursorLeft) + |text| else old(term.cursorLeft)
  {
    var guard := new TemporaryForegroundColorChange(term, color);
    term.Write(text);
    guard.Dispose();
  }

  /** `using (new TemporaryForegroundColorChange(color)) { body }`: the colour is restored. */
  method WithForegroundColor(term: Terminal, color: ConsoleColor, body: seq<Op>)
    modifies term
    ensures term.color == old(term.color)
    ensures !term.hasConsole ==>
      term.cursorLeft == old(term.cursorLeft) && term.cursorTop == old(term.cursorTop)
  {
    var guard := new TemporaryForegroundColorChange(term, color);
    Perform(term, body);
    guard.Dispose();
  }

  /**
   * Colour guards nested inside each other restore in LIFO order, as when
   * BConsole.ReWriteLine(value, Color) wraps a coloured write: the ambient
   * colour ends as the outer guard recorded it.
   */
  method NestedColorChanges(term: Terminal, outer: ConsoleColor, inner: ConsoleColor, text: string)
    modifies term
    ensures term.color == old(term.color)
    ensures term.output == old(term.output) + [Put(text, inner)]
  {
    var first := new TemporaryForegroundColorChange(term, outer);
    WriteInColor(term, text, inner);
    first.Dispose();
  }
}
