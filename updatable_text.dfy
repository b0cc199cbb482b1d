/**
 * UpdatableText: a line of text with named fields, drawn at the position
 * it was created at. Updating a field redraws the line there only when the
 * update is asked to (ReRender, false by default).
 */
module UpdatableTexts {
  import opened Wrappers
  import opened BConsole
  import opened CursorGuard
  import opened ColorGuard
  import opened Template
  import opened TemplateFacts

  /**
   * Everything one Render writes: the move to the text's location, one write
   * per part, the line terminator, then the move back to where the cursor was.
   */
  ghost function RenderOutput(location: (int, int), t: Template, ambient: ConsoleColor, back: (int, int)): seq<Event>
    requires Resolved(t.parts, t.fields)
  {
    [MoveTo(location.0, location.1)] + RenderWrites(t.parts, t.fields, ambient)
    + [LineEnd, MoveTo(back.0, back.1)]
  }

  class UpdatableText {
    /** The console every write goes to. */
    const term: Terminal
    /** Parts: literal text and field references, in order. */
    var parts: seq<Part>
    /** Fields: the field table, by name. */
    var fields: map<string, FieldInfo>
    /** Location: where the line was first inserted. */
    var location: (int, int)

    /** What Parse leaves behind, on a console that exists. */
    ghost predicate Valid()
      reads this, term
    {
      term.hasConsole && WellFormed(Template(parts, fields))
    }

    /** The object before Parse: no parts and no fields yet. */
    constructor Blank(term: Terminal)
      ensures this.term == term && parts == [] && fields == map[] && location == (0, 0)
    {
      this.term := term;
      parts, fields := [], map[];
      location := (0, 0);
    }

    /**
     * Parse: one pass over the pattern that appends to Parts and Fields in
     * place, or stops at the first exception. The colour of every field is
     * the foreground colour at the time, which Parse itself never changes.
     */
    method Parse(text: string) returns (err: Option<ParseError>)
      requires parts == [] && fields == map[]
      modifies this`parts, this`fields
      ensures err.None? <==> ParseText(text, term.color).Ok?
      ensures err.Some? ==> ParseText(text, term.color) == Err(err.value)
      ensures err.None? ==> ParseText(text, term.color) == Ok(Template(parts, fields))
    {
      var ambient := term.color;
      var inField, pastColon := false, false;
      var name, size, run := "", "", "";
      var nextValue: Option<string> := Some("");
      var i := 0;
      while i < |text|
        invariant 0 <= i <= |text|
        invariant Scan(text, i, ambient)
                  == Ok(Scanner(inField, pastColon, name, size, run, nextValue, parts, fields))
      {
        ghost var s := Scanner(inField, pastColon, name, size, run, nextValue, parts, fields);
        var lc := if i - 1 > 0 then text[i - 1] else '\0';
        var c := text[i];
        if c == '{' {
          if inField {
            err := Some(NestedFieldStart(i));
            ScanErrorSticks(text, i + 1, |text|, ambient);
            return;
          }
          if lc != '\\' {
            if |run| > 0 {
              parts := parts + [Literal(run)];
              run := "";
            }
            inField := true;
          } else {
            run := run[..|run| - 1] + "{";
          }
        } else if c == '}' {
          if !inField {
            run := run + "}";
          } else {
            if |name| < 1 {
              err := Some(EmptyFieldName(i));
              ScanErrorSticks(text, i + 1, |text|, ambient);
              return;
            }
            var width := 0;
            if |size| > 1 {
              var parsed := Int32Text.ParseInt32(size);
              if parsed.None? {
                err := Some(InvalidFieldWidth(i));
                ScanErrorSticks(text, i + 1, |text|, ambient);
                return;
              }
              width := parsed.value;
            }
            if name in fields {
              err := Some(DuplicateField(name));
              ScanErrorSticks(text, i + 1, |text|, ambient);
              return;
            }
            fields := fields[name := FieldInfo(name, width, nextValue, Some(ambient))];
            parts := parts + [FieldRef(name)];
            inField, pastColon := false, false;
            name, size := "", "";
            nextValue := None;
          }
        } else if c == ':' {
          if inField {
            pastColon := true;
          } else {
            run := run + ":";
          }
        } else if inField {
          if pastColon {
            size := size + [c];
          } else {
            name := name + [c];
          }
        } else {
          run := run + [c];
        }
        assert Step(text, i, s, ambient)
               == Ok(Scanner(inField, pastColon, name, size, run, nextValue, parts, fields));
        i := i + 1;
      }
      if |run| > 0 {
        parts := parts + [Literal(run)];
      }
      err := None;
    }

    /**
     * Render: inside a TemporaryCursorMove to Location, every part is written
     * in order (a field as its padded value in its own colour) and then a line
     * terminator; the cursor goes back to where it was and the foreground
     * colour is what it was.
     */
    method Render()
      requires Valid()
      modifies term
      ensures term.output == old(term.output)
        + RenderOutput(location, Template(parts, fields), old(term.color),
                       (old(term.cursorLeft), old(term.cursorTop)))
      ensures term.cursorLeft == old(term.cursorLeft) && term.cursorTop == old(term.cursorTop)
      ensures term.color == old(term.color)
    {
      WellFormedResolved(Template(parts, fields));
      var guard := new TemporaryCursorMove(term, location.0, location.1);
      WriteParts();
      term.WriteLine();
      guard.Dispose();
    }

    /** Render's loop over the parts: each part's write, in order, in the colour current before it. */
    method WriteParts()
      requires Resolved(parts, fields)
      modifies term
      ensures term.output == old(term.output) + RenderWrites(parts, fields, old(term.color))
      ensures term.color == old(term.color)
    {
      var ambient := term.color;
      ghost var start := term.output;
      for k := 0 to |parts|
        invariant term.color == ambient
        invariant term.output == start + RenderWrites(parts[..k], fields, ambient)
      {
        RenderWritesPrefix(parts, fields, ambient, k);
        ghost var done := RenderWrites(parts[..k], fields, ambient);
        WritePart(parts[k]);
        assert term.output == start + (done + [PartWrite(parts[k], fields, ambient)]);
      }
      assert parts[..|parts|] == parts;
    }

    /**
     * One pass of Render's loop: a literal is written as it is; a field as
     * its value (null as "") and the padding, in its own colour or the
     * current one.
     */
    method WritePart(p: Part)
      requires p.FieldRef? ==> p.name in fields
      modifies term
      ensures term.output == old(term.output) + [PartWrite(p, fields, old(term.color))]
      ensures term.color == old(term.color)
    {
      match p
      case Literal(text) =>
        term.Write(text);
      case FieldRef(n) =>
        var info := fields[n];
        var value := info.value.GetOr("");
        var pad := Repeat(' ', Max(info.size - |value|, 0));
        WriteInColor(term, value + pad, info.color.GetOr(term.color));
    }

    /**
     * Update(Name, Value, ReRender): the value's text is checked for a line
     * break, the field is looked up, and its value replaced; nothing changes
     * when any of these throws. A successful update with ReRender redraws.
     */
    method Update(name: string, value: Option<string>, reRender: bool) returns (err: Option<TextError>)
      requires Valid()
      modifies this`fields, term
      ensures Valid() && parts == old(parts)
      ensures err.None? <==> ApplyUpdate(old(fields), name, value, None).Ok?
      ensures err.Some? ==>
        ApplyUpdate(old(fields), name, value, None) == Err(err.value)
        && fields == old(fields) && unchanged(term)
      ensures err.None? ==> ApplyUpdate(old(fields), name, value, None) == Ok(fields)
      ensures err.None? && !reRender ==> unchanged(term)
      ensures err.None? && reRender ==>
        term.output == old(term.output)
          + RenderOutput(location, Template(parts, fields), old(term.color),
                         (old(term.cursorLeft), old(term.cursorTop)))
        && term.cursorLeft == old(term.cursorLeft) && term.cursorTop == old(term.cursorTop)
        && term.color == old(term.color)
    {
      err := Change(name, value, None, reRender);
    }

    /** Update(Name, Value, Color, ReRender): as Update, and the field's colour becomes Color. */
    method UpdateColored(name: string, value: Option<string>, color: ConsoleColor, reRender: bool)
      returns (err: Option<TextError>)
      requires Valid()
      modifies this`fields, term
      ensures Valid() && parts == old(parts)
      ensures err.None? <==> ApplyUpdate(old(fields), name, value, Some(color)).Ok?
      ensures err.Some? ==>
        ApplyUpdate(old(fields), name, value, Some(color)) == Err(err.value)
        && fields == old(fields) && unchanged(term)
      ensures err.None? ==> ApplyUpdate(old(fields), name, value, Some(color)) == Ok(fields)
      ensures err.None? ==> fields[name].color == Some(color)
      ensures err.None? && !reRender ==> unchanged(term)
      ensures err.None? && reRender ==>
        term.output == old(term.output)
          + RenderOutput(location, Template(parts, fields), old(term.color),
                         (old(term.cursorLeft), old(term.cursorTop)))
        && term.cursorLeft == old(term.cursorLeft) && term.cursorTop == old(term.cursorTop)
        && term.color == old(term.color)
    {
      err := Change(name, value, Some(color), reRender);
    }

    /** The body both Update overloads share. */
    method Change(name: string, value: Option<string>, color: Option<ConsoleColor>, reRender: bool)
      returns (err: Option<TextError>)
      requires Valid()
      modifies this`fields, term
      ensures Valid() && parts == old(parts)
      ensures err.None? <==> ApplyUpdate(old(fields), name, value, color).Ok?
      ensures err.Some? ==>
        ApplyUpdate(old(fields), name, value, color) == Err(err.value)
        && fields == old(fields) && unchanged(term)
      ensures err.None? ==> ApplyUpdate(old(fields), name, value, color) == Ok(fields)
      ensures err.None? && !reRender ==> unchanged(term)
      ensures err.None? && reRender ==>
        term.output == old(term.output)
          + RenderOutput(location, Template(parts, fields), old(term.color),
                         (old(term.cursorLeft), old(term.cursorTop)))
        && term.cursorLeft == old(term.cursorLeft) && term.cursorTop == old(term.cursorTop)
        && term.color == old(term.color)
    {
      var r := ApplyUpdate(fields, name, value, color);
      if r.Err? {
        return Some(r.error);
      }
      UpdateKeepsWellFormed(Template(parts, fields), name, value, color);
      fields := r.value;
      if reRender {
        Render();
      }
      err := None;
    }

    /** Rendering twice writes the same thing twice and leaves the cursor where it was. */
    method RenderTwice()
      requires Valid()
      modifies term
      ensures var once := RenderOutput(location, Template(parts, fields), old(term.color),
                                       (old(term.cursorLeft), old(term.cursorTop)));
        term.output == old(term.output) + once + once
      ensures term.cursorLeft == old(term.cursorLeft) && term.cursorTop == old(term.cursorTop)
      ensures term.color == old(term.color)
    {
      Render();
      Render();
    }
  }

  /**
   * new UpdatableText(Text): Parse, then read the console cursor as the
   * location; the cursor read throws when no console is attached.
   */
  method New(text: string, term: Terminal) returns (r: Result<UpdatableText, TextError>)
    ensures r.Err? <==> ParseText(text, term.color).Err? || !term.hasConsole
    ensures r.Err? && ParseText(text, term.color).Err? ==>
      r.error == Malformed(ParseText(text, term.color).error)
    ensures r.Err? && ParseText(text, term.color).Ok? ==> r.error == NoConsole
    ensures r.Ok? ==>
      fresh(r.value) && r.value.term == term && r.value.Valid()
      && ParseText(text, term.color) == Ok(Template(r.value.parts, r.value.fields))
      && r.value.location == (term.cursorLeft, term.cursorTop)
  {
    var u := new UpdatableText.Blank(term);
    var err := u.Parse(text);
    if err.Some? {
      return Err(Malformed(err.value));
    }
    if !term.hasConsole {
      return Err(NoConsole);
    }
    ParseWellFormed(text, term.color);
    u.location := (term.cursorLeft, term.cursorTop);
    r := Ok(u);
  }

  /**
   * new UpdatableText(Text, Values): as New, then every pair of Values is
   * stored in its field, in enumeration order, and the text is rendered.
   */
  method NewWithValues(text: string, values: seq<(string, Option<string>)>, term: Terminal)
    returns (r: Result<UpdatableText, TextError>)
    modifies term
    ensures ParseText(text, old(term.color)).Err? ==>
      r == Err(Malformed(ParseText(text, old(term.color)).error))
    ensures ParseText(text, old(term.color)).Ok? && !term.hasConsole ==> r == Err(NoConsole)
    ensures ParseText(text, old(term.color)).Ok? && term.hasConsole ==>
      var t := ParseText(text, old(term.color)).value;
      match SetValues(t.fields, values)
      case Err(e) => r == Err(e)
      case Ok(f) =>
        r.Ok? && fresh(r.value) && r.value.Valid() && r.value.parts == t.parts && r.value.fields == f
        && term.output == old(term.output)
          + RenderOutput(r.value.location, Template(t.parts, f), old(term.color),
                         (old(term.cursorLeft), old(term.cursorTop)))
        && r.value.location == (old(term.cursorLeft), old(term.cursorTop))
    ensures r.Err? ==> unchanged(term)
  {
    var made := New(text, term);
    if made.Err? {
      return made;
    }
    var u := made.value;
    ghost var t := Template(u.parts, u.fields);
    for k := 0 to |values|
      invariant unchanged(term)
      invariant u.parts == t.parts && u.location == (term.cursorLeft, term.cursorTop)
      invariant SetValues(t.fields, values[..k]) == Ok(u.fields)
    {
      assert values[..k + 1][..k] == values[..k];
      var key := values[k].0;
      if key !in u.fields {
        assert SetValues(t.fields, values[..k + 1]) == Err(UnknownField(key));
        SetValuesErrorSticks(t.fields, values, k + 1);
        return Err(UnknownField(key));
      }
      u.fields := u.fields[key := u.fields[key].(value := values[k].1)];
    }
    assert values[..|values|] == values;
    assert u.fields.Keys == t.fields.Keys;
    u.Render();
    r := Ok(u);
  }
}
