/**
 * Patterns written out from pieces: literal text and "{name}" or
 * "{name:width}" slots. Parsing such a pattern gives the pieces back, in
 * order, as parts and fields, or throws at the first name used twice.
 */
module TemplatePieces {
  import opened Wrappers
  import opened BConsole
  import opened Int32Text
  import opened Template
  import opened TemplateFacts

  // ------------------------------------------------------------ scanning from any state

  /** Two texts that agree at a character and the one before it take the same step there. */
  lemma SameStep(a: string, b: string, i: nat, s: Scanner, ambient: ConsoleColor)
    requires i < |a| && i < |b| && a[i] == b[i] && (i > 0 ==> a[i - 1] == b[i - 1])
    requires EscapeReady(a, i, s) && EscapeReady(b, i, s)
    ensures Step(a, i, s, ambient) == Step(b, i, s, ambient)
  {
  }

  /** One character further, from the same state. */
  lemma ScanNext(text: string, i: nat, s: Scanner, ambient: ConsoleColor)
    requires i < |text| && Scan(text, i, ambient) == Ok(s)
    ensures Scan(text, i + 1, ambient) == Step(text, i, s, ambient)
  {
  }

  /** Texts the parser has read alike so far stay alike after one more equal character. */
  lemma SamePrefixStep(a: string, b: string, i: nat, ambient: ConsoleColor)
    requires i < |a| && i < |b| && a[i] == b[i] && (i > 0 ==> a[i - 1] == b[i - 1])
    requires Scan(a, i, ambient) == Scan(b, i, ambient)
    ensures Scan(a, i + 1, ambient) == Scan(b, i + 1, ambient)
  {
    if Scan(a, i, ambient).Ok? {
      var s := Scan(a, i, ambient).value;
      ScanNext(a, i, s, ambient);
      ScanNext(b, i, s, ambient);
      SameStep(a, b, i, s, ambient);
    }
  }

  /** What the parser reads depends only on the characters before it. */
  lemma {:induction false} ScanPrefix(a: string, b: string, n: nat, ambient: ConsoleColor)
    requires n <= |a| && n <= |b| && forall k | 0 <= k < n :: a[k] == b[k]
    ensures Scan(a, n, ambient) == Scan(b, n, ambient)
  {
    if n > 0 {
      ScanPrefix(a, b, n - 1, ambient);
      SamePrefixStep(a, b, n - 1, ambient);
    }
  }

  /** A stretch of the text equal to `c` has `c`'s slices at the same offsets. */
  lemma SubSlice(text: string, o: nat, e: nat, c: string, i: nat, j: nat)
    requires o <= e <= |text| && text[o..e] == c && i <= j <= |c|
    ensures text[o + i..o + j] == c[i..j]
  {
    forall k | 0 <= k < j - i
      ensures text[o + i..o + j][k] == c[i..j][k]
    {
      assert text[o + i + k] == text[o..e][i + k];
    }
  }

  /** A character of a stretch equal to `c`. */
  lemma CharAt(text: string, o: nat, e: nat, c: string, j: nat)
    requires o <= e <= |text| && text[o..e] == c && j < |c|
    ensures text[o + j] == c[j]
  {
    assert text[o + j] == text[o..e][j];
  }

  /** A stretch of the text equal to `t` has no `ch` when `t` has none. */
  lemma Avoids(text: string, o: nat, e: nat, t: string, ch: char)
    requires o <= e <= |text| && text[o..e] == t && ch !in t
    ensures forall k | o <= k < e :: text[k] != ch
  {
    forall k | o <= k < e
      ensures text[k] != ch
    {
      assert text[k] == t[k - o];
    }
  }

  /** Literal text without '{', from any state outside a field, is appended to the literal run. */
  lemma TextStep(text: string, o: nat, e: nat, t: string, s: Scanner, ambient: ConsoleColor)
    requires o <= e <= |text| && text[o..e] == t && '{' !in t
    requires Scan(text, o, ambient) == Ok(s) && !s.inField
    ensures Scan(text, e, ambient) == Ok(s.(run := s.run + t))
  {
    Avoids(text, o, e, t, '{');
    BraceFreeRun(text, o, e, ambient);
  }

  /** Inside a field, a stretch without '{', '}' and ':' extends the name or the width text. */
  lemma NameStep(text: string, o: nat, e: nat, x: string, q: Scanner, ambient: ConsoleColor)
    requires o <= e <= |text| && text[o..e] == x && '{' !in x && '}' !in x && ':' !in x
    requires Scan(text, o, ambient) == Ok(q) && q.inField
    ensures Scan(text, e, ambient) == Ok(if q.pastColon then q.(size := q.size + x) else q.(name := q.name + x))
  {
    Avoids(text, o, e, x, '{');
    Avoids(text, o, e, x, '}');
    Avoids(text, o, e, x, ':');
    FieldRun(text, o, e, ambient);
  }

  /** Outside a field, the name and width builders are empty and no colon is pending. */
  lemma OutsideIsClear(text: string, i: nat, s: Scanner, ambient: ConsoleColor)
    requires i <= |text| && Scan(text, i, ambient) == Ok(s) && !s.inField
    ensures s.name == [] && s.size == [] && !s.pastColon
  {
    ScanGood(text, i, ambient);
  }

  /** An unescaped '{' outside a field flushes the literal run and opens a field. */
  lemma OpenStep(text: string, i: nat, s: Scanner, ambient: ConsoleColor)
    requires i < |text| && text[i] == '{' && LastChar(text, i) != '\\'
    requires Scan(text, i, ambient) == Ok(s) && !s.inField
    ensures Scan(text, i + 1, ambient) == Ok(s.(inField := true, run := "", parts := Finish(s)))
  {
    ScanNext(text, i, s, ambient);
  }

  /**
   * An unescaped '{' and a name, from any state outside a field: the literal
   * run so far becomes a part, and the field's name is read.
   */
  lemma OpenName(text: string, o: nat, m: nat, n: string, s: Scanner, ambient: ConsoleColor)
    requires CleanName(n) && o < m <= |text| && text[o] == '{' && text[o + 1..m] == n
    requires LastChar(text, o) != '\\'
    requires Scan(text, o, ambient) == Ok(s) && !s.inField
    ensures Scan(text, m, ambient) == Ok(s.(inField := true, name := n, run := "", parts := Finish(s)))
  {
    OutsideIsClear(text, o, s, ambient);
    OpenStep(text, o, s, ambient);
    var q := s.(inField := true, run := "", parts := Finish(s));
    NameStep(text, o + 1, m, n, q, ambient);
    assert q.name + n == n;
  }

  /** ':' and a width text after a field's name: the width text is read. */
  lemma WidthText(text: string, m: nat, e: nat, x: string, q: Scanner, ambient: ConsoleColor)
    requires m < e <= |text| && text[m] == ':' && text[m + 1..e] == x
    requires '{' !in x && '}' !in x && ':' !in x
    requires Scan(text, m, ambient) == Ok(q) && q.inField && q.size == []
    ensures Scan(text, e, ambient) == Ok(q.(pastColon := true, size := x))
  {
    ColonStep(text, m, ambient);
    NameStep(text, m + 1, e, x, q.(pastColon := true), ambient);
    assert q.size + x == x;
  }

  /** The text a slot is written as. */
  function SlotText(n: string, w: Option<string>): string
  {
    match w
    case None => "{" + n + "}"
    case Some(x) => "{" + n + ":" + x + "}"
  }

  /**
   * A slot's characters from o to e: '{' at o, the name up to m, then
   * ':' and the width text, if any, and the closing '}' at e - 1.
   */
  predicate SlotAt(text: string, o: nat, m: nat, e: nat, n: string, w: Option<string>)
  {
    o < m < e <= |text| && text[o] == '{' && text[o + 1..m] == n && text[e - 1] == '}'
    && (w.None? ==> m == e - 1)
    && (w.Some? ==> m < e - 1 && text[m] == ':' && text[m + 1..e - 1] == w.value)
  }

  /** Where a slot's characters sit in a text that holds its written form from o to e. */
  lemma SlotPositions(text: string, o: nat, e: nat, n: string, w: Option<string>)
    requires o <= e <= |text| && text[o..e] == SlotText(n, w)
    ensures SlotAt(text, o, o + 1 + |n|, e, n, w)
  {
    var c := SlotText(n, w);
    var m := o + 1 + |n|;
    assert text[o] == text[o..e][0];
    assert text[e - 1] == text[o..e][|c| - 1];
    if w.Some? {
      assert c == ("{" + n) + ([':'] + w.value + ['}']);
      assert c[1..1 + |n|] == n && c[2 + |n|..|c| - 1] == w.value;
      assert text[m] == text[o..e][1 + |n|];
      SubSlice(text, o, e, c, 2 + |n|, |c| - 1);
    } else {
      assert c == ("{" + n) + ['}'];
      assert c[1..1 + |n|] == n;
    }
    SubSlice(text, o, e, c, 1, 1 + |n|);
  }

  /** After a field's name, up to the closing '}' at e - 1: the width text, if any, is read. */
  lemma FieldTail(text: string, m: nat, e: nat, w: Option<string>, q: Scanner, ambient: ConsoleColor)
    requires m < e <= |text| && (w.None? ==> m == e - 1)
    requires w.Some? ==> m < e - 1 && text[m] == ':' && text[m + 1..e - 1] == w.value
    requires w.Some? ==> '{' !in w.value && '}' !in w.value && ':' !in w.value
    requires Scan(text, m, ambient) == Ok(q) && q.inField && !q.pastColon && q.size == []
    ensures Scan(text, e - 1, ambient) == Ok(q.(pastColon := w.Some?, size := w.GetOr("")))
  {
    if w.Some? {
      WidthText(text, m, e - 1, w.value, q, ambient);
    } else {
      assert q.(pastColon := w.Some?, size := w.GetOr("")) == q;
    }
  }

  /** A slot given by positions, up to its closing '}': the name and the width text are read. */
  lemma SlotBody(text: string, o: nat, m: nat, e: nat, n: string, w: Option<string>, s: Scanner, ambient: ConsoleColor)
    requires CleanName(n) && (w.Some? ==> '{' !in w.value && '}' !in w.value && ':' !in w.value)
    requires SlotAt(text, o, m, e, n, w) && LastChar(text, o) != '\\'
    requires Scan(text, o, ambient) == Ok(s) && !s.inField
    ensures Scan(text, e - 1, ambient)
      == Ok(s.(inField := true, pastColon := w.Some?, name := n, size := w.GetOr(""), run := "", parts := Finish(s)))
  {
    OpenName(text, o, m, n, s, ambient);
    OutsideIsClear(text, o, s, ambient);
    FieldTail(text, m, e, w, s.(inField := true, name := n, run := "", parts := Finish(s)), ambient);
  }

  /** A '}' closing a field at e - 1, from an explicit state. */
  lemma CloseStep(text: string, e: nat, q: Scanner, ambient: ConsoleColor)
    requires 0 < e <= |text| && text[e - 1] == '}' && Scan(text, e - 1, ambient) == Ok(q) && q.inField
    ensures Scan(text, e, ambient) ==
      if |q.name| < 1 then Err(EmptyFieldName(e - 1))
      else if |q.size| > 1 && ParseInt32(q.size).None? then Err(InvalidFieldWidth(e - 1))
      else if q.name in q.fields then Err(DuplicateField(q.name))
      else Ok(Scanner(false, false, "", "", "", None, q.parts + [FieldRef(q.name)],
                      q.fields[q.name := FieldInfo(q.name, Width(q.size), q.nextValue, Some(ambient))]))
  {
    CloseField(text, e - 1, ambient);
  }


  /** A slot given by positions, closed by the '}' at e - 1. */
  lemma SlotClose(text: string, o: nat, m: nat, e: nat, n: string, w: Option<string>, s: Scanner, ambient: ConsoleColor)
    requires CleanName(n) && (w.Some? ==> '{' !in w.value && '}' !in w.value && ':' !in w.value)
    requires SlotAt(text, o, m, e, n, w) && LastChar(text, o) != '\\'
    requires Scan(text, o, ambient) == Ok(s) && !s.inField
    ensures var size := w.GetOr("");
      Scan(text, e, ambient) ==
        if |size| > 1 && ParseInt32(size).None? then Err(InvalidFieldWidth(e - 1))
        else if n in s.fields then Err(DuplicateField(n))
        else Ok(Scanner(false, false, "", "", "", None, Finish(s) + [FieldRef(n)],
                        s.fields[n := FieldInfo(n, Width(size), s.nextValue, Some(ambient))]))
  {
    SlotBody(text, o, m, e, n, w, s, ambient);
    var q := s.(inField := true, pastColon := w.Some?, name := n, size := w.GetOr(""), run := "", parts := Finish(s));
    CloseStep(text, e, q, ambient);
  }

  /**
   * A whole slot, from any state outside a field, with the '{' not escaped:
   * a width text that Int32.TryParse rejects throws at the '}', then a name
   * already declared; otherwise the reference and the field are added.
   */
  lemma SlotStep(text: string, o: nat, e: nat, n: string, w: Option<string>, s: Scanner, ambient: ConsoleColor)
    requires CleanName(n) && (w.Some? ==> '{' !in w.value && '}' !in w.value && ':' !in w.value)
    requires o <= e <= |text| && text[o..e] == SlotText(n, w)
    requires LastChar(text, o) != '\\'
    requires Scan(text, o, ambient) == Ok(s) && !s.inField
    ensures var size := w.GetOr("");
      Scan(text, e, ambient) ==
        if |size| > 1 && ParseInt32(size).None? then Err(InvalidFieldWidth(e - 1))
        else if n in s.fields then Err(DuplicateField(n))
        else Ok(Scanner(false, false, "", "", "", None, Finish(s) + [FieldRef(n)],
                        s.fields[n := FieldInfo(n, Width(size), s.nextValue, Some(ambient))]))
  {
    SlotPositions(text, o, e, n, w);
    SlotClose(text, o, o + 1 + |n|, e, n, w, s, ambient);
  }

  // ------------------------------------------------------------ patterns from pieces

  /** A piece of a pattern: literal text, or a slot with an optional width text. */
  datatype Piece = Plain(text: string) | Slot(name: string, width: Option<string>)

  function PieceText(p: Piece): string
  {
    match p
    case Plain(t) => t
    case Slot(n, w) => SlotText(n, w)
  }

  /** The pattern the pieces are written as, one after the other. */
  function Print(ps: seq<Piece>): string
  {
    if ps == [] then "" else Print(ps[..|ps| - 1]) + PieceText(ps[|ps| - 1])
  }

  /** A width text Parse accepts: no '{', '}' or ':', and one character at most or an Int32. */
  predicate GoodWidth(x: string)
  {
    '{' !in x && '}' !in x && ':' !in x && (|x| <= 1 || ParseInt32(x).Some?)
  }

  /**
   * A piece that reads back as itself: text that is not empty and holds
   * no '{' and no backslash, or a slot with a clean name and a good width.
   */
  predicate GoodPiece(p: Piece)
  {
    match p
    case Plain(t) => t != [] && '{' !in t && '\\' !in t
    case Slot(n, w) => CleanName(n) && (w.Some? ==> GoodWidth(w.value))
  }

  /** Good pieces, and never two texts in a row (they would read back as one). */
  predicate Printable(ps: seq<Piece>)
  {
    (forall k | 0 <= k < |ps| :: GoodPiece(ps[k]))
    && forall k | 0 < k < |ps| :: !(ps[k - 1].Plain? && ps[k].Plain?)
  }

  /** The names of the slots, in order. */
  function Names(ps: seq<Piece>): (r: seq<string>)
    ensures |r| <= |ps|
  {
    if ps == [] then []
    else Names(ps[..|ps| - 1]) + (if ps[|ps| - 1].Slot? then [ps[|ps| - 1].name] else [])
  }

  function PartOf(p: Piece): Part
  {
    match p
    case Plain(t) => Literal(t)
    case Slot(n, _) => FieldRef(n)
  }

  /** The parts the pieces stand for, one per piece. */
  function PartsOf(ps: seq<Piece>): (r: seq<Part>)
    ensures |r| == |ps| && forall k | 0 <= k < |ps| :: r[k] == PartOf(ps[k])
  {
    if ps == [] then [] else PartsOf(ps[..|ps| - 1]) + [PartOf(ps[|ps| - 1])]
  }

  /**
   * The field table the slots declare: each name with its width, the
   * ambient colour, and the value "" for the first slot and null after it.
   */
  function FieldsOf(ps: seq<Piece>, ambient: ConsoleColor): (r: map<string, FieldInfo>)
    ensures forall n :: n in r <==> n in Names(ps)
    ensures forall n | n in r :: r[n].name == n && r[n].color == Some(ambient)
  {
    if ps == [] then map[]
    else
      var init := ps[..|ps| - 1];
      match ps[|ps| - 1]
      case Plain(_) => FieldsOf(init, ambient)
      case Slot(n, w) =>
        FieldsOf(init, ambient)[n := FieldInfo(n, Width(w.GetOr("")), if Names(init) == [] then Some("") else None, Some(ambient))]
  }

  predicate NoRepeats(names: seq<string>)
  {
    forall j, k | 0 <= j < k < |names| :: names[j] != names[k]
  }

  /** The first name met a second time, if any. */
  function Repeated(names: seq<string>): (r: Option<string>)
    ensures r.None? <==> NoRepeats(names)
    ensures r.Some? ==> exists k | 0 <= k < |names| ::
      names[k] == r.value && r.value in names[..k] && NoRepeats(names[..k])
  {
    if names == [] then None
    else
      var init := names[..|names| - 1];
      var last := names[|names| - 1];
      match Repeated(init)
      case Some(x) =>
        ghost var k :| 0 <= k < |init| && init[k] == x && x in init[..k] && NoRepeats(init[..k]);
        assert names[k] == x && names[..k] == init[..k];
        Some(x)
      case None =>
        if last in init then
          assert names[..|names| - 1] == init;
          Some(last)
        else
          assert forall j | 0 <= j < |names| - 1 :: names[j] == init[j];
          None
  }

  /** The parser's state after a printable pattern, when no name repeats. */
  function PrintedState(ps: seq<Piece>, ambient: ConsoleColor): Scanner
  {
    var endsInText := ps != [] && ps[|ps| - 1].Plain?;
    Scanner(false, false, "", "",
            if endsInText then ps[|ps| - 1].text else "",
            if Names(ps) == [] then Some("") else None,
            if endsInText then PartsOf(ps[..|ps| - 1]) else PartsOf(ps),
            FieldsOf(ps, ambient))
  }

  lemma PrintableInit(ps: seq<Piece>)
    requires Printable(ps) && ps != []
    ensures Printable(ps[..|ps| - 1]) && GoodPiece(ps[|ps| - 1])
  {
    var init := ps[..|ps| - 1];
    assert forall k | 0 <= k < |init| :: init[k] == ps[k];
  }

  /** A printable pattern never ends with a backslash: its last piece is not empty and does not. */
  lemma PrintEnd(ps: seq<Piece>)
    requires Printable(ps) && Print(ps) != []
    ensures Print(ps)[|Print(ps)| - 1] != '\\'
  {
    var p := ps[|ps| - 1];
    PrintableInit(ps);
    var c := PieceText(p);
    match p {
      case Plain(t) =>
        assert Print(ps)[|Print(ps)| - 1] == t[|t| - 1];
        assert t[|t| - 1] in t;
      case Slot(n, w) =>
        assert Print(ps)[|Print(ps)| - 1] == c[|c| - 1];
        assert c[0..|c|] == c;
        SlotPositions(c, 0, |c|, n, w);
    }
  }

  /** Printing one more piece leaves the parse of the pattern before it as it was. */
  lemma PrintSnoc(ps: seq<Piece>, ambient: ConsoleColor)
    requires ps != []
    ensures var pre := Print(ps[..|ps| - 1]);
      var c := PieceText(ps[|ps| - 1]);
      Print(ps) == pre + c && Print(ps)[|pre|..|pre| + |c|] == c
      && Scan(Print(ps), |pre|, ambient) == Scan(pre, |pre|, ambient)
  {
    var pre := Print(ps[..|ps| - 1]);
    var text := Print(ps);
    ScanPrefix(text, pre, |pre|, ambient);
  }

  /** Flushing the run after printable pieces gives one part per piece. */
  lemma FinishPrinted(ps: seq<Piece>, ambient: ConsoleColor)
    requires Printable(ps)
    ensures Finish(PrintedState(ps, ambient)) == PartsOf(ps)
  {
    if ps != [] && ps[|ps| - 1].Plain? {
      assert GoodPiece(ps[|ps| - 1]);
      assert PartsOf(ps) == PartsOf(ps[..|ps| - 1]) + [Literal(ps[|ps| - 1].text)];
    }
  }

  /** Text without '{' ending the pattern, after a field or at its start, is the whole run. */
  lemma TextLast(text: string, o: nat, e: nat, t: string, s: Scanner, ambient: ConsoleColor)
    requires '{' !in t && o <= e == |text| && text[o..e] == t
    requires Scan(text, o, ambient) == Ok(s) && !s.inField && s.run == []
    ensures Scan(text, e, ambient) == Ok(s.(run := t))
  {
    TextStep(text, o, e, t, s, ambient);
    assert s.run + t == t;
  }

  /** Printing one more piece appends its text after the pattern before it. */
  lemma PrintLast(ps: seq<Piece>, ambient: ConsoleColor)
    requires ps != []
    ensures var pre := Print(ps[..|ps| - 1]);
      var text := Print(ps);
      |text| == |pre| + |PieceText(ps[|ps| - 1])| && text[|pre|..|text|] == PieceText(ps[|ps| - 1])
      && Scan(text, |pre|, ambient) == Scan(pre, |pre|, ambient)
  {
    PrintSnoc(ps, ambient);
  }

  /** The first repeat of a list with one more name. */
  lemma RepeatedSnoc(names: seq<string>, x: string)
    ensures Repeated(names + [x])
      == if Repeated(names).Some? then Repeated(names) else if x in names then Some(x) else None
  {
    assert (names + [x])[..|names|] == names;
  }

  /** The state after a text piece: the text is the literal run, nothing else changes. */
  lemma StateAfterText(ps: seq<Piece>, ambient: ConsoleColor)
    requires Printable(ps) && ps != [] && ps[|ps| - 1].Plain?
    ensures var st := PrintedState(ps[..|ps| - 1], ambient);
      st.run == [] && Names(ps) == Names(ps[..|ps| - 1])
      && PrintedState(ps, ambient) == st.(run := ps[|ps| - 1].text)
  {
    var init := ps[..|ps| - 1];
    if |init| > 0 {
      assert ps[|ps| - 2] == init[|init| - 1];
    }
  }

  /** The state after a slot whose name is new: the reference and the field are added. */
  lemma StateAfterSlot(ps: seq<Piece>, ambient: ConsoleColor)
    requires Printable(ps) && ps != [] && ps[|ps| - 1].Slot?
    ensures var init := ps[..|ps| - 1];
      var st := PrintedState(init, ambient);
      var n := ps[|ps| - 1].name;
      Names(ps) == Names(init) + [n]
      && (n in st.fields <==> n in Names(init))
      && PrintedState(ps, ambient)
         == Scanner(false, false, "", "", "", None, Finish(st) + [FieldRef(n)],
                    st.fields[n := FieldInfo(n, Width(ps[|ps| - 1].width.GetOr("")), st.nextValue, Some(ambient))])
  {
    PrintableInit(ps);
    FinishPrinted(ps[..|ps| - 1], ambient);
  }

  /** The '{' of a slot after printable pieces is never escaped. */
  lemma SlotNotEscaped(ps: seq<Piece>)
    requires Printable(ps) && ps != []
    ensures LastChar(Print(ps), |Print(ps[..|ps| - 1])|) != '\\'
  {
    var init := ps[..|ps| - 1];
    PrintableInit(ps);
    var pre := Print(init);
    if |pre| - 1 > 0 {
      PrintEnd(init);
      assert Print(ps) == pre + PieceText(ps[|ps| - 1]);
      assert Print(ps)[|pre| - 1] == pre[|pre| - 1];
    }
  }

  /** A text piece last: it becomes the literal run. */
  lemma LastText(ps: seq<Piece>, ambient: ConsoleColor)
    requires Printable(ps) && ps != [] && ps[|ps| - 1].Plain?
    requires var pre := Print(ps[..|ps| - 1]);
      Repeated(Names(ps[..|ps| - 1])).None?
      && Scan(pre, |pre|, ambient) == Ok(PrintedState(ps[..|ps| - 1], ambient))
    ensures Repeated(Names(ps)).None?
    ensures Scan(Print(ps), |Print(ps)|, ambient) == Ok(PrintedState(ps, ambient))
  {
    var init := ps[..|ps| - 1];
    PrintableInit(ps);
    PrintLast(ps, ambient);
    StateAfterText(ps, ambient);
    TextLast(Print(ps), |Print(init)|, |Print(ps)|, ps[|ps| - 1].text, PrintedState(init, ambient), ambient);
  }

  /** A slot with a good width ending the pattern, with its '{' not escaped. */
  lemma SlotLast(text: string, o: nat, e: nat, n: string, w: Option<string>, s: Scanner, ambient: ConsoleColor)
    requires CleanName(n) && (w.Some? ==> GoodWidth(w.value))
    requires o <= e == |text| && text[o..e] == SlotText(n, w)
    requires LastChar(text, o) != '\\'
    requires Scan(text, o, ambient) == Ok(s) && !s.inField
    ensures Scan(text, e, ambient) ==
      if n in s.fields then Err(DuplicateField(n))
      else Ok(Scanner(false, false, "", "", "", None, Finish(s) + [FieldRef(n)],
                      s.fields[n := FieldInfo(n, Width(w.GetOr("")), s.nextValue, Some(ambient))]))
  {
    SlotStep(text, o, e, n, w, s, ambient);
  }

  /** A slot last: a name already declared throws, otherwise the field is added. */
  lemma LastSlot(ps: seq<Piece>, ambient: ConsoleColor)
    requires Printable(ps) && ps != [] && ps[|ps| - 1].Slot?
    requires var pre := Print(ps[..|ps| - 1]);
      Repeated(Names(ps[..|ps| - 1])).None?
      && Scan(pre, |pre|, ambient) == Ok(PrintedState(ps[..|ps| - 1], ambient))
    ensures Scan(Print(ps), |Print(ps)|, ambient)
      == if Repeated(Names(ps)).None? then Ok(PrintedState(ps, ambient))
         else Err(DuplicateField(Repeated(Names(ps)).value))
  {
    var init := ps[..|ps| - 1];
    var p := ps[|ps| - 1];
    PrintableInit(ps);
    PrintLast(ps, ambient);
    SlotNotEscaped(ps);
    StateAfterSlot(ps, ambient);
    RepeatedSnoc(Names(init), p.name);
    SlotLast(Print(ps), |Print(init)|, |Print(ps)|, p.name, p.width, PrintedState(init, ambient), ambient);
  }

  /**
   * Parsing a printable pattern, up to its end: the state its pieces
   * describe, or the error at the first slot whose name was declared before.
   */
  lemma {:induction false} ScanPrinted(ps: seq<Piece>, ambient: ConsoleColor)
    requires Printable(ps)
    ensures Scan(Print(ps), |Print(ps)|, ambient)
      == if Repeated(Names(ps)).None? then Ok(PrintedState(ps, ambient))
         else Err(DuplicateField(Repeated(Names(ps)).value))
  {
    if ps != [] {
      var init := ps[..|ps| - 1];
      PrintableInit(ps);
      ScanPrinted(init, ambient);
      if Repeated(Names(init)).Some? {
        PrintSnoc(ps, ambient);
        ScanErrorSticks(Print(ps), |Print(init)|, |Print(ps)|, ambient);
        var names := Names(ps);
        if ps[|ps| - 1].Slot? {
          assert names[..|names| - 1] == Names(init);
        } else {
          assert names == Names(init);
        }
      } else if ps[|ps| - 1].Plain? {
        LastText(ps, ambient);
      } else {
        LastSlot(ps, ambient);
      }
    }
  }

  /**
   * A pattern written out from printable pieces parses to those pieces, in
   * order, with one field per slot, when no name repeats; otherwise Parse
   * throws on the first name declared a second time.
   */
  lemma ParsePrinted(ps: seq<Piece>, ambient: ConsoleColor)
    requires Printable(ps)
    ensures ParseText(Print(ps), ambient)
      == if Repeated(Names(ps)).None? then Ok(Template(PartsOf(ps), FieldsOf(ps, ambient)))
         else Err(DuplicateField(Repeated(Names(ps)).value))
  {
    ScanPrinted(ps, ambient);
    if ps != [] && ps[|ps| - 1].Plain? {
      assert ps[|ps| - 1] in ps;
      assert GoodPiece(ps[|ps| - 1]);
      assert PartsOf(ps) == PartsOf(ps[..|ps| - 1]) + [Literal(ps[|ps| - 1].text)];
    }
  }

  // ------------------------------------------------------------ single slots and examples

  /**
   * A template that is one slot alone: a width text of two or more
   * characters that Int32.TryParse rejects throws at the '}'; otherwise one
   * reference and one field with value "" and Width of the width text.
   */
  lemma SingleSlot(n: string, w: Option<string>, ambient: ConsoleColor)
    requires CleanName(n) && (w.Some? ==> '{' !in w.value && '}' !in w.value && ':' !in w.value)
    ensures var size := w.GetOr("");
      ParseText(SlotText(n, w), ambient) ==
        if |size| > 1 && ParseInt32(size).None? then Err(InvalidFieldWidth(|SlotText(n, w)| - 1))
        else Ok(Template([FieldRef(n)], map[n := FieldInfo(n, Width(size), Some(""), Some(ambient))]))
  {
    var text := SlotText(n, w);
    var e := |text|;
    assert text[0..e] == text;
    assert Scan(text, 0, ambient) == Ok(Start) && LastChar(text, 0) == '\0';
    SlotStep(text, 0, e, n, w, Start, ambient);
    assert Finish(Start) + [FieldRef(n)] == [FieldRef(n)];
    assert Start.fields[n := FieldInfo(n, Width(w.GetOr("")), Start.nextValue, Some(ambient))]
      == map[n := FieldInfo(n, Width(w.GetOr("")), Some(""), Some(ambient))];
  }

  /** '}' and ':' outside a field are literal text. */
  lemma LiteralBracesExample(c: ConsoleColor)
    ensures ParseText("a}b:c", c) == Ok(Template([Literal("a}b:c")], map[]))
  {
    assert '{' !in "a}b:c";
    BraceFreeIsLiteral("a}b:c", c);
  }

  /** A slot with no name throws at its '}', with or without a width text. */
  lemma NamelessSlot(w: Option<string>, ambient: ConsoleColor)
    requires w.Some? ==> '{' !in w.value && '}' !in w.value && ':' !in w.value
    ensures ParseText(SlotText("", w), ambient) == Err(EmptyFieldName(|SlotText("", w)| - 1))
  {
    var text := SlotText("", w);
    var e := |text|;
    assert text[0..e] == text;
    SlotPositions(text, 0, e, "", w);
    assert Scan(text, 0, ambient) == Ok(Start) && LastChar(text, 0) == '\0' && Finish(Start) == [];
    OpenStep(text, 0, Start, ambient);
    var q := Start.(inField := true);
    if w.Some? {
      WidthText(text, 1, e - 1, w.value, q, ambient);
      CloseStep(text, e, q.(pastColon := true, size := w.value), ambient);
    } else {
      CloseStep(text, e, q, ambient);
    }
  }

  /** "{}" and "{:5}" throw at their '}'. */
  lemma NamelessExamples(c: ConsoleColor)
    ensures ParseText("{}", c) == Err(EmptyFieldName(1))
    ensures ParseText("{:5}", c) == Err(EmptyFieldName(3))
  {
    assert SlotText("", None) == "{}";
    NamelessSlot(None, c);
    assert SlotText("", Some("5")) == "{:5}";
    NamelessSlot(Some("5"), c);
  }

  /** A '{' inside a field throws: "{a{" at index 2. */
  lemma NestedBraceExample(c: ConsoleColor)
    ensures ParseText("{a{", c) == Err(NestedFieldStart(2))
  {
    var t := "{a{";
    assert t[0..2] == "{" + "a";
    assert Scan(t, 0, c) == Ok(Start) && LastChar(t, 0) == '\0';
    OpenName(t, 0, 2, "a", Start, c);
    NestedBraceFails(t, 2, c);
  }

  /** "abc" is not a number. */
  lemma AbcRejected()
    ensures ParseInt32("abc") == None && |"abc"| > 1
  {
    assert !IsDigit("abc"[0]);
    NonDigitsRejected("abc");
  }

  /** A width text Int32.TryParse rejects: "{x:abc}" throws at the '}', index 6. */
  lemma BadWidthExample(c: ConsoleColor)
    ensures ParseText("{x:abc}", c) == Err(InvalidFieldWidth(6))
  {
    assert SlotText("x", Some("abc")) == "{x:abc}";
    AbcRejected();
    SingleSlot("x", Some("abc"), c);
  }

  /** A width text of one character is ignored, so "{x:5}" has width 0 and "{x:a}" is accepted. */
  lemma ShortWidthExamples(c: ConsoleColor)
    ensures ParseText("{x:5}", c) == Ok(Template([FieldRef("x")], map["x" := FieldInfo("x", 0, Some(""), Some(c))]))
    ensures ParseText("{x:a}", c) == Ok(Template([FieldRef("x")], map["x" := FieldInfo("x", 0, Some(""), Some(c))]))
  {
    assert SlotText("x", Some("5")) == "{x:5}";
    SingleSlot("x", Some("5"), c);
    assert SlotText("x", Some("a")) == "{x:a}";
    SingleSlot("x", Some("a"), c);
  }

  /** A slot whose width text Int32.TryParse reads as v, with two or more characters, has width v. */
  lemma NumberWidthSlot(n: string, x: string, v: int, ambient: ConsoleColor)
    requires CleanName(n) && '{' !in x && '}' !in x && ':' !in x
    requires |x| > 1 && ParseInt32(x) == Some(v)
    ensures ParseText(SlotText(n, Some(x)), ambient)
      == Ok(Template([FieldRef(n)], map[n := FieldInfo(n, v, Some(""), Some(ambient))]))
  {
    SingleSlot(n, Some(x), ambient);
  }

  /** A width written with a leading zero, "0" and then the decimal text of k, is read as k. */
  lemma ZeroPaddedWidthSlot(n: string, k: nat, ambient: ConsoleColor)
    requires CleanName(n) && k <= MaxInt32
    ensures ParseText(SlotText(n, Some("0" + Decimal(k))), ambient)
      == Ok(Template([FieldRef(n)], map[n := FieldInfo(n, k, Some(""), Some(ambient))]))
  {
    var x := "0" + Decimal(k);
    ZeroPaddedRoundTrip(k);
    assert '{' !in x && '}' !in x && ':' !in x by {
      assert AllDigits(x);
    }
    NumberWidthSlot(n, x, k, ambient);
  }

  /** The pattern and the names, after one more piece. */
  lemma SnocText(ps: seq<Piece>, p: Piece)
    ensures var qs := ps + [p];
      Print(qs) == Print(ps) + PieceText(p)
      && Names(qs) == Names(ps) + (if p.Slot? then [p.name] else [])
  {
    assert (ps + [p])[..|ps|] == ps;
  }

  /** The parts, after one more piece. */
  lemma SnocParts(ps: seq<Piece>, p: Piece)
    ensures PartsOf(ps + [p]) == PartsOf(ps) + [PartOf(p)]
  {
    assert (ps + [p])[..|ps|] == ps;
  }

  /** The field table, after one more piece: a slot adds its field, the first with value "". */
  lemma SnocFields(ps: seq<Piece>, p: Piece, ambient: ConsoleColor)
    ensures FieldsOf(ps + [p], ambient) ==
      if p.Plain? then FieldsOf(ps, ambient)
      else FieldsOf(ps, ambient)[p.name := FieldInfo(p.name, Width(p.width.GetOr("")),
                                                    if Names(ps) == [] then Some("") else None, Some(ambient))]
  {
    assert (ps + [p])[..|ps|] == ps;
  }

  /** One more good piece keeps the pieces printable, unless it is a second text in a row. */
  lemma PrintableSnoc(ps: seq<Piece>, p: Piece)
    requires Printable(ps) && GoodPiece(p) && (ps != [] && ps[|ps| - 1].Plain? ==> p.Slot?)
    ensures Printable(ps + [p])
  {
  }

  /** Text, a field, text and a field with a width, as pieces. */
  lemma FourPieces(a: string, x: string, b: string, y: string, w: string)
    requires GoodPiece(Plain(a)) && GoodPiece(Plain(b)) && CleanName(x) && CleanName(y) && GoodWidth(w)
    ensures var ps := [Plain(a), Slot(x, None), Plain(b), Slot(y, Some(w))];
      Printable(ps) && Print(ps) == a + SlotText(x, None) + b + SlotText(y, Some(w))
      && Names(ps) == [x, y] && Names(ps[..3]) == [x]
  {
    var p0, p1, p2, p3 := Plain(a), Slot(x, None), Plain(b), Slot(y, Some(w));
    var ps0: seq<Piece> := [];
    var ps1 := ps0 + [p0];
    var ps2 := ps1 + [p1];
    var ps3 := ps2 + [p2];
    var ps := ps3 + [p3];
    SnocText(ps0, p0);
    SnocText(ps1, p1);
    SnocText(ps2, p2);
    SnocText(ps3, p3);
    PrintableSnoc(ps0, p0);
    PrintableSnoc(ps1, p1);
    PrintableSnoc(ps2, p2);
    PrintableSnoc(ps3, p3);
    assert Print(ps0) + a == a;
    assert ps == [p0, p1, p2, p3] && ps[..3] == ps3;
  }

  /** The parts of text, a field, text and a field. */
  lemma FourPiecesParts(a: string, x: string, b: string, y: string, w: string)
    ensures PartsOf([Plain(a), Slot(x, None), Plain(b), Slot(y, Some(w))])
      == [Literal(a), FieldRef(x), Literal(b), FieldRef(y)]
  {
    var p0, p1, p2, p3 := Plain(a), Slot(x, None), Plain(b), Slot(y, Some(w));
    var ps0: seq<Piece> := [];
    var ps1 := ps0 + [p0];
    var ps2 := ps1 + [p1];
    var ps3 := ps2 + [p2];
    SnocParts(ps0, p0);
    SnocParts(ps1, p1);
    SnocParts(ps2, p2);
    SnocParts(ps3, p3);
    assert ps3 + [p3] == [p0, p1, p2, p3];
  }

  /** The field table of text, a field, text and a field: the first field starts with "", the second with null. */
  lemma FourPiecesFields(a: string, x: string, b: string, y: string, w: string, c: ConsoleColor)
    ensures FieldsOf([Plain(a), Slot(x, None), Plain(b), Slot(y, Some(w))], c)
      == map[x := FieldInfo(x, 0, Some(""), Some(c)), y := FieldInfo(y, Width(w), None, Some(c))]
  {
    var p0, p1, p2, p3 := Plain(a), Slot(x, None), Plain(b), Slot(y, Some(w));
    var ps0: seq<Piece> := [];
    var ps1 := ps0 + [p0];
    var ps2 := ps1 + [p1];
    var ps3 := ps2 + [p2];
    SnocText(ps0, p0);
    SnocText(ps1, p1);
    SnocText(ps2, p2);
    SnocFields(ps0, p0, c);
    SnocFields(ps1, p1, c);
    SnocFields(ps2, p2, c);
    SnocFields(ps3, p3, c);
    assert Width("") == 0 && Names(ps1) == [] && Names(ps3) == [x];
    assert ps3 + [p3] == [p0, p1, p2, p3];
  }

  /**
   * Text, a field, text and a field with a width: the parts in order; the
   * first field starts with value "" and the second with null.
   */
  lemma TextFieldTextField(a: string, x: string, b: string, y: string, w: string, c: ConsoleColor)
    requires GoodPiece(Plain(a)) && GoodPiece(Plain(b)) && CleanName(x) && CleanName(y) && GoodWidth(w) && x != y
    ensures ParseText(a + SlotText(x, None) + b + SlotText(y, Some(w)), c) == Ok(Template(
      [Literal(a), FieldRef(x), Literal(b), FieldRef(y)],
      map[x := FieldInfo(x, 0, Some(""), Some(c)), y := FieldInfo(y, Width(w), None, Some(c))]))
  {
    var ps := [Plain(a), Slot(x, None), Plain(b), Slot(y, Some(w))];
    FourPieces(a, x, b, y, w);
    FourPiecesParts(a, x, b, y, w);
    FourPiecesFields(a, x, b, y, w, c);
    assert [] + [x] == [x] && [x] + [y] == [x, y];
    RepeatedSnoc([], x);
    RepeatedSnoc([x], y);
    ParsePrinted(ps, c);
  }

  /** Two slots, as pieces: printable, printed one after the other, named in order. */
  lemma TwoPieces(x: string, y: string)
    requires CleanName(x) && CleanName(y)
    ensures var ps := [Slot(x, None), Slot(y, None)];
      Printable(ps) && Print(ps) == SlotText(x, None) + SlotText(y, None) && Names(ps) == [x, y]
  {
    var p0, p1 := Slot(x, None), Slot(y, None);
    var ps0: seq<Piece> := [];
    var ps1 := ps0 + [p0];
    SnocText(ps0, p0);
    SnocText(ps1, p1);
    PrintableSnoc(ps0, p0);
    PrintableSnoc(ps1, p1);
    assert Print(ps0) + SlotText(x, None) == SlotText(x, None);
    assert ps1 + [p1] == [p0, p1];
  }

  /** The parts and the field table of two slots with different names. */
  lemma TwoPiecesTables(x: string, y: string, c: ConsoleColor)
    requires x != y
    ensures var ps := [Slot(x, None), Slot(y, None)];
      PartsOf(ps) == [FieldRef(x), FieldRef(y)]
      && FieldsOf(ps, c) == map[x := FieldInfo(x, 0, Some(""), Some(c)), y := FieldInfo(y, 0, None, Some(c))]
  {
    var p0, p1 := Slot(x, None), Slot(y, None);
    var ps0: seq<Piece> := [];
    var ps1 := ps0 + [p0];
    SnocText(ps0, p0);
    SnocParts(ps0, p0);
    SnocParts(ps1, p1);
    SnocFields(ps0, p0, c);
    SnocFields(ps1, p1, c);
    assert Width("") == 0;
    assert ps1 + [p1] == [p0, p1];
  }

  /** Two slots side by side: two fields, or a throw when the name is the same. */
  lemma TwoSlots(x: string, y: string, c: ConsoleColor)
    requires CleanName(x) && CleanName(y)
    ensures ParseText(SlotText(x, None) + SlotText(y, None), c) ==
      if x == y then Err(DuplicateField(x))
      else Ok(Template([FieldRef(x), FieldRef(y)],
                       map[x := FieldInfo(x, 0, Some(""), Some(c)), y := FieldInfo(y, 0, None, Some(c))]))
  {
    TwoPieces(x, y);
    if x != y {
      TwoPiecesTables(x, y, c);
    }
    assert [] + [x] == [x] && [x] + [y] == [x, y];
    RepeatedSnoc([], x);
    RepeatedSnoc([x], y);
    ParsePrinted([Slot(x, None), Slot(y, None)], c);
  }

  /** "12" is a width text that Int32.TryParse reads as 12. */
  lemma TwelveWidth()
    ensures GoodWidth("12") && Width("12") == 12
  {
    assert Decimal(12) == "12";
    DecimalRoundTrip(12);
  }

  /** "ab{x}cd{y:12}" written as text, slot, text and slot. */
  lemma PiecesExampleText()
    ensures "ab" + SlotText("x", None) + "cd" + SlotText("y", Some("12")) == "ab{x}cd{y:12}"
  {
    assert SlotText("x", None) == "{x}" && SlotText("y", Some("12")) == "{y:12}";
  }

  /** Literals and slots in turn: "ab{x}cd{y:12}". */
  lemma PiecesExample(c: ConsoleColor)
    ensures ParseText("ab{x}cd{y:12}", c) == Ok(Template(
      [Literal("ab"), FieldRef("x"), Literal("cd"), FieldRef("y")],
      map["x" := FieldInfo("x", 0, Some(""), Some(c)), "y" := FieldInfo("y", 12, None, Some(c))]))
  {
    PiecesExampleText();
    TwelveWidth();
    TextFieldTextField("ab", "x", "cd", "y", "12", c);
  }

  /** Two slots side by side: "{a}{b}". */
  lemma AdjacentSlotsExample(c: ConsoleColor)
    ensures ParseText("{a}{b}", c) == Ok(Template(
      [FieldRef("a"), FieldRef("b")],
      map["a" := FieldInfo("a", 0, Some(""), Some(c)), "b" := FieldInfo("b", 0, None, Some(c))]))
  {
    assert SlotText("a", None) == "{a}" && SlotText("b", None) == "{b}";
    assert "{a}" + "{b}" == "{a}{b}";
    TwoSlots("a", "b", c);
  }

  /** Three slots, as pieces. */
  lemma ThreePieces(x: string, y: string, z: string)
    requires CleanName(x) && CleanName(y) && CleanName(z)
    ensures var ps := [Slot(x, None), Slot(y, None), Slot(z, None)];
      Printable(ps) && Print(ps) == SlotText(x, None) + SlotText(y, None) + SlotText(z, None)
      && Names(ps) == [x, y, z]
  {
    var p0, p1, p2 := Slot(x, None), Slot(y, None), Slot(z, None);
    var ps0: seq<Piece> := [];
    var ps1 := ps0 + [p0];
    var ps2 := ps1 + [p1];
    var ps := ps2 + [p2];
    SnocText(ps0, p0);
    SnocText(ps1, p1);
    SnocText(ps2, p2);
    PrintableSnoc(ps0, p0);
    PrintableSnoc(ps1, p1);
    PrintableSnoc(ps2, p2);
    assert Print(ps0) + SlotText(x, None) == SlotText(x, None);
    assert ps == [p0, p1, p2];
  }

  /** A name declared again two slots later throws, though another field came between. */
  lemma SameNameLater(x: string, y: string, c: ConsoleColor)
    requires CleanName(x) && CleanName(y) && x != y
    ensures ParseText(SlotText(x, None) + SlotText(y, None) + SlotText(x, None), c) == Err(DuplicateField(x))
  {
    ThreePieces(x, y, x);
    assert [] + [x] == [x] && [x] + [y] == [x, y] && [x, y] + [x] == [x, y, x];
    RepeatedSnoc([], x);
    RepeatedSnoc([x], y);
    RepeatedSnoc([x, y], x);
    ParsePrinted([Slot(x, None), Slot(y, None), Slot(x, None)], c);
  }

  /** A name declared again throws at that slot's '}', even after another field. */
  lemma DuplicateExample(c: ConsoleColor)
    ensures ParseText("{x}{x}", c) == Err(DuplicateField("x"))
    ensures ParseText("{x}{y}{x}", c) == Err(DuplicateField("x"))
  {
    assert SlotText("x", None) == "{x}" && SlotText("y", None) == "{y}";
    assert "{x}" + "{x}" == "{x}{x}";
    TwoSlots("x", "x", c);
    assert "{x}" + "{y}" + "{x}" == "{x}{y}{x}";
    SameNameLater("x", "y", c);
  }
}
