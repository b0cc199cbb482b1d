/**
 * The terminal that every component of BConsoleFramework writes to: the
 * process-wide System.Console seen through the BConsole helpers. It is one
 * shared object handed to every component. Each write is recorded in a
 * ghost event trace instead of being emitted.
 */
module BConsole {

  /** System.ConsoleColor, the sixteen console foreground colours. */
  datatype ConsoleColor =
    | Black | DarkBlue | DarkGreen | DarkCyan | DarkRed | DarkMagenta | DarkYellow | Gray
    | DarkGray | Blue | Green | Cyan | Red | Magenta | Yellow | White

  /** One observable effect on the terminal. */
  datatype Event =
    | Put(text: string, color: ConsoleColor)  // text written in the colour current at that moment
    | LineEnd                                 // a line terminator
    | MoveTo(left: int, top: int)             // an explicit cursor move

  /** new String(c, n): n copies of c. */
  function Repeat(c: char, n: nat): (r: string)
    ensures |r| == n && forall k | 0 <= k < n :: r[k] == c
  {
    if n == 0 then "" else Repeat(c, n - 1) + [c]
  }

  class Terminal {
    /** BConsole.HasConsole: fixed once by the static constructor's probe. */
    const hasConsole: bool
    /** The console cursor; it exists only when `hasConsole` holds. */
    var cursorLeft: int
    var cursorTop: int
    /** Console.ForegroundColor. */
    var color: ConsoleColor
    /** Everything written so far. */
    ghost var output: seq<Event>

    constructor (hasConsole: bool, left: int, top: int, color: ConsoleColor)
      ensures this.hasConsole == hasConsole && this.color == color
      ensures cursorLeft == left && cursorTop == top && output == []
    {
      this.hasConsole := hasConsole;
      cursorLeft, cursorTop := left, top;
      this.color := color;
      output := [];
    }

    /** The BConsole.CursorLeft getter: the read fails, and yields 0, without a console. */
    function Left(): (r: int)
      reads this
      ensures hasConsole ==> r == cursorLeft
      ensures !hasConsole ==> r == 0
    {
      if hasConsole then cursorLeft else 0
    }

    /** The BConsole.CursorTop getter, likewise 0 without a console. */
    function Top(): (r: int)
      reads this
      ensures hasConsole ==> r == cursorTop
      ensures !hasConsole ==> r == 0
    {
      if hasConsole then cursorTop else 0
    }

    /** BConsole.SetCursorPosition: moves the cursor only when there is a console. */
    method SetCursorPosition(left: int, top: int)
      modifies this
      ensures color == old(color)
      ensures hasConsole ==> cursorLeft == left && cursorTop == top
      ensures hasConsole ==> output == old(output) + [MoveTo(left, top)]
      ensures !hasConsole ==>
        cursorLeft == old(cursorLeft) && cursorTop == old(cursorTop) && output == old(output)
    {
      if hasConsole {
        cursorLeft, cursorTop := left, top;
        output := output + [MoveTo(left, top)];
      }
    }

    /** Assigning Console.ForegroundColor, which BConsole never gates on HasConsole. */
    method SetForegroundColor(c: ConsoleColor)
      modifies this`color
      ensures color == c
    {
      color := c;
    }

    /** Console.Write: the text goes out in the current colour and the cursor advances past it. */
    method Write(text: string)
      modifies this
      ensures color == old(color) && cursorTop == old(cursorTop)
      ensures cursorLeft == if hasConsole then old(cursorLeft) + |text| else old(cursorLeft)
      ensures output == old(output) + [Put(text, old(color))]
    {
      output := output + [Put(text, color)];
      if hasConsole {
        cursorLeft := cursorLeft + |text|;
      }
    }

    /** Console.WriteLine(): a line terminator; the cursor goes to the start of the next row. */
    method WriteLine()
      modifies this
      ensures color == old(color) && output == old(output) + [LineEnd]
      ensures hasConsole ==> cursorLeft == 0 && cursorTop == old(cursorTop) + 1
      ensures !hasConsole ==> cursorLeft == old(cursorLeft) && cursorTop == old(cursorTop)
    {
      output := output + [LineEnd];
      if hasConsole {
        cursorLeft, cursorTop := 0, cursorTop + 1;
      }
    }
  }

  /**
   * A block of terminal operations, standing for the arbitrary code that a
   * scoped guard wraps.
   */
  datatype Op =
    | Move(left: int, top: int)
    | Recolor(color: ConsoleColor)
    | Text(text: string)
    | NewLine

  /** Runs a block of operations; without a console none of them moves the cursor. */
  method Perform(term: Terminal, body: seq<Op>)
    modifies term
    ensures !term.hasConsole ==>
      term.cursorLeft == old(term.cursorLeft) && term.cursorTop == old(term.cursorTop)
  {
    for k := 0 to |body|
      invariant !term.hasConsole ==>
        term.cursorLeft == old(term.cursorLeft) && term.cursorTop == old(term.cursorTop)
    {
      match body[k]
      case Move(left, top) => term.SetCursorPosition(left, top);
      case Recolor(c) => term.SetForegroundColor(c);
      case Text(text) => term.Write(text);
      case NewLine => term.WriteLine();
    }
  }
}
