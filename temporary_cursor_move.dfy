/** TemporaryCursorMove: moves the cursor for the length of a block, then puts it back. */
module CursorGuard {
  import opened BConsole

  class TemporaryCursorMove {
    const term: Terminal
    /** The position read through BConsole.CursorLeft/CursorTop before moving. */
    const savedLeft: int
    const savedTop: int

    /** Records the current position, then moves to (left, top) if there is a console. */
    constructor (term: Terminal, left: int, top: int)
      modifies term
      ensures this.term == term
      ensures savedLeft == old(term.Left()) && savedTop == old(term.Top())
      ensures term.color == old(term.color)
      ensures term.hasConsole ==> term.cursorLeft == left && term.cursorTop == top
      ensures term.hasConsole ==> term.output == old(term.output) + [MoveTo(left, top)]
      ensures !term.hasConsole ==>
        term.cursorLeft == old(term.cursorLeft) && term.cursorTop == old(term.cursorTop)
        && term.output == old(term.output)
    {
      this.term := term;
      savedLeft := term.Left();
      savedTop := term.Top();
      new;
      term.SetCursorPosition(left, top);
    }

    /** Moves the cursor back to the recorded position, wherever the block left it. */
    method Dispose()
      modifies term
      ensures term.color == old(term.color)
      ensures term.hasConsole ==> term.cursorLeft == savedLeft && term.cursorTop == savedTop
      ensures term.hasConsole ==> term.output == old(term.output) + [MoveTo(savedLeft, savedTop)]
      ensures !term.hasConsole ==>
        term.cursorLeft == old(term.cursorLeft) && term.cursorTop == old(term.cursorTop)
        && term.output == old(term.output)
    {
      term.SetCursorPosition(savedLeft, savedTop);
    }
  }

  /**
   * `using (new TemporaryCursorMove(left, top)) { body }`: whatever the block
   * does, the cursor ends where it started, with or without a console.
   */
  method WithCursorAt(term: Terminal, left: int, top: int, body: seq<Op>)
    modifies term
    ensures term.cursorLeft == old(term.cursorLeft) && term.cursorTop == old(term.cursorTop)
  {
    var guard := new TemporaryCursorMove(term, left, top);
    Perform(term, body);
    guard.Dispose();
  }

  /**
   * Two cursor guards disposed in reverse order of creation: the cursor ends
   * at the position the outer one recorded, and the colour is untouched.
   */
  method NestedCursorMoves(term: Terminal, outer: (int, int), inner: (int, int), text: string)
    modifies term
    ensures term.cursorLeft == old(term.cursorLeft) && term.cursorTop == old(term.cursorTop)
    ensures term.color == old(term.color)
  {
    var first := new TemporaryCursorMove(term, outer.0, outer.1);
    var second := new TemporaryCursorMove(term, inner.0, inner.1);
    term.Write(text);
    second.Dispose();
    first.Dispose();
  }
}
