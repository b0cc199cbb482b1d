/** What UpdatableText's parser and renderer guarantee, proved about the Template functions. */
module TemplateFacts {
  import opened Wrappers
  import opened BConsole
  import opened Int32Text
  import opened Template

  // ------------------------------------------------------------ helpers

  lemma RefNamesAppend(ps: seq<Part>, p: Part)
    ensures RefNames(ps + [p]) == RefNames(ps) + (if p.FieldRef? then {p.name} else {})
  {
    var qs := ps + [p];
    forall n | n in RefNames(qs)
      ensures n in RefNames(ps) + (if p.FieldRef? then {p.name} else {})
    {
      var k :| 0 <= k < |qs| && qs[k].FieldRef? && qs[k].name == n;
      if k < |ps| { assert ps[k] == qs[k]; }
    }
    forall n | n in RefNames(ps) ensures n in RefNames(qs) {
      var k :| 0 <= k < |ps| && ps[k].FieldRef? && ps[k].name == n;
      assert qs[k] == ps[k];
    }
    if p.FieldRef? { assert qs[|ps|] == p; }
  }

  /** The invariant of Parse's loop. */
  ghost predicate Good(s: Scanner, ambient: ConsoleColor)
  {
    NoEmptyLiterals(s.parts) && NoAdjacentLiterals(s.parts)
    && (s.inField ==> s.run == [])
    && (!s.inField ==> s.name == [] && s.size == [] && !s.pastColon)
    && (!s.inField && s.parts != [] ==> s.parts[|s.parts| - 1].FieldRef?)
    && UniqueRefs(s.parts) && s.fields.Keys == RefNames(s.parts)
    && '{' !in s.name && '}' !in s.name && ':' !in s.name
    && (s.nextValue == Some("") || s.nextValue == None)
    && forall n | n in s.fields ::
         s.fields[n].name == n && CleanName(n) && s.fields[n].color == Some(ambient)
         && (s.fields[n].value == Some("") || s.fields[n].value == None)
  }

  lemma OpenGood(text: string, i: nat, s: Scanner, ambient: ConsoleColor)
    requires i < |text| && text[i] == '{' && EscapeReady(text, i, s) && Good(s, ambient)
    ensures Step(text, i, s, ambient).Ok? ==> Good(Step(text, i, s, ambient).value, ambient)
  {
    if !s.inField && LastChar(text, i) != '\\' && |s.run| > 0 {
      RefNamesAppend(s.parts, Literal(s.run));
      var r := Step(text, i, s, ambient).value;
      assert r.parts == s.parts + [Literal(s.run)];
      assert forall k | 0 <= k < |s.parts| :: r.parts[k] == s.parts[k];
    }
  }

  /** The field a closing '}' adds keeps the invariant. */
  lemma AddFieldGood(s: Scanner, width: int, ambient: ConsoleColor)
    requires Good(s, ambient) && s.inField && |s.name| >= 1 && s.name !in s.fields
    ensures Good(Scanner(false, false, "", "", s.run, None, s.parts + [FieldRef(s.name)],
                         s.fields[s.name := FieldInfo(s.name, width, s.nextValue, Some(ambient))]), ambient)
  {
    RefNamesAppend(s.parts, FieldRef(s.name));
    var ps := s.parts + [FieldRef(s.name)];
    assert forall k | 0 <= k < |s.parts| :: ps[k] == s.parts[k];
    forall a, b | 0 <= a < b < |ps| && ps[a].FieldRef? && ps[b].FieldRef?
      ensures ps[a].name != ps[b].name
    {
      if b == |s.parts| {
        assert s.parts[a].name in RefNames(s.parts);
      }
    }
  }

  lemma CloseGood(text: string, i: nat, s: Scanner, ambient: ConsoleColor)
    requires i < |text| && text[i] == '}' && EscapeReady(text, i, s) && Good(s, ambient)
    ensures Step(text, i, s, ambient).Ok? ==> Good(Step(text, i, s, ambient).value, ambient)
  {
    if s.inField && Step(text, i, s, ambient).Ok? {
      AddFieldGood(s, Width(s.size), ambient);
    }
  }

  lemma StepGood(text: string, i: nat, s: Scanner, ambient: ConsoleColor)
    requires i < |text| && EscapeReady(text, i, s) && Good(s, ambient)
    ensures Step(text, i, s, ambient).Ok? ==> Good(Step(text, i, s, ambient).value, ambient)
  {
    if text[i] == '{' {
      OpenGood(text, i, s, ambient);
    } else if text[i] == '}' {
      CloseGood(text, i, s, ambient);
    }
  }

  /** Every scanner state Parse reaches satisfies the loop invariant. */
  lemma {:induction false} ScanGood(text: string, n: nat, ambient: ConsoleColor)
    requires n <= |text|
    ensures Scan(text, n, ambient).Ok? ==> Good(Scan(text, n, ambient).value, ambient)
  {
    if n > 0 {
      ScanGood(text, n - 1, ambient);
      if Scan(text, n - 1, ambient).Ok? {
        var s := Scan(text, n - 1, ambient).value;
        StepGood(text, n - 1, s, ambient);
        assert Scan(text, n, ambient) == Step(text, n - 1, s, ambient);
      }
    }
  }

  /** Once Parse has thrown, the later characters change nothing. */
  lemma {:induction false} ScanErrorSticks(text: string, m: nat, n: nat, ambient: ConsoleColor)
    requires m <= n <= |text| && Scan(text, m, ambient).Err?
    ensures Scan(text, n, ambient) == Scan(text, m, ambient)
  {
    if m < n {
      ScanErrorSticks(text, m, n - 1, ambient);
    }
  }

  /** Parts are only ever appended: an earlier state's parts are a prefix of a later one's. */
  lemma {:induction false} ScanPartsGrow(text: string, m: nat, n: nat, ambient: ConsoleColor)
    requires m <= n <= |text| && Scan(text, n, ambient).Ok?
    ensures Scan(text, m, ambient).Ok?
    ensures Scan(text, m, ambient).value.parts <= Scan(text, n, ambient).value.parts
  {
    if m < n {
      ScanPartsGrow(text, m, n - 1, ambient);
    }
  }

  // ------------------------------------------------------------ parse

  /** The trailing literal Finish appends keeps the shape the loop invariant guarantees. */
  lemma FinishWellFormed(s: Scanner, ambient: ConsoleColor)
    requires Good(s, ambient)
    ensures WellFormed(Template(Finish(s), s.fields))
  {
    if |s.run| > 0 {
      RefNamesAppend(s.parts, Literal(s.run));
      var ps := s.parts + [Literal(s.run)];
      assert Finish(s) == ps;
      assert forall k | 0 <= k < |s.parts| :: ps[k] == s.parts[k];
      assert NoEmptyLiterals(ps) && NoAdjacentLiterals(ps);
      forall a, b | 0 <= a < b < |ps| && ps[a].FieldRef? && ps[b].FieldRef?
        ensures ps[a].name != ps[b].name
      {
        assert ps[a] == s.parts[a] && ps[b] == s.parts[b];
      }
    }
  }

  /**
   * Parse never emits an empty literal or two literals in a row, each field
   * name is non-empty and free of '{', '}' and ':', and the field table's
   * keys are exactly the names referenced, each by one reference.
   */
  lemma ParseWellFormed(text: string, ambient: ConsoleColor)
    ensures ParseText(text, ambient).Ok? ==> WellFormed(ParseText(text, ambient).value)
  {
    ScanGood(text, |text|, ambient);
    if Scan(text, |text|, ambient).Ok? {
      FinishWellFormed(Scan(text, |text|, ambient).value, ambient);
    }
  }

  /**
   * Every field starts with the colour current at parse time and a value
   * that renders as nothing: "" for the first field created, null after it.
   */
  lemma ParseFieldDefaults(text: string, ambient: ConsoleColor)
    ensures ParseText(text, ambient).Ok? ==>
      var fs := ParseText(text, ambient).value.fields;
      forall n | n in fs :: fs[n].color == Some(ambient) && fs[n].value.GetOr("") == ""
  {
    ScanGood(text, |text|, ambient);
  }

  /** A '{' met inside a field throws, whatever follows. */
  lemma NestedBraceFails(text: string, i: nat, ambient: ConsoleColor)
    requires i < |text| && text[i] == '{'
    requires Scan(text, i, ambient).Ok? && Scan(text, i, ambient).value.inField
    ensures ParseText(text, ambient) == Err(NestedFieldStart(i))
  {
    ScanErrorSticks(text, i + 1, |text|, ambient);
  }

  /** The two characters of an unescaped "{}" outside a field: the '}' throws. */
  lemma EmptyNameAt(text: string, i: nat, ambient: ConsoleColor)
    requires i + 1 < |text| && text[i] == '{' && text[i + 1] == '}' && LastChar(text, i) != '\\'
    requires Scan(text, i, ambient).Ok? && !Scan(text, i, ambient).value.inField
    ensures Scan(text, i + 2, ambient) == Err(EmptyFieldName(i + 1))
  {
    var s := Scan(text, i, ambient).value;
    ScanGood(text, i, ambient);
    var q := s.(inField := true, run := "", parts := Finish(s));
    assert Scan(text, i + 1, ambient) == Ok(q);
  }

  /** "{}" outside a field, with the '{' not escaped, throws at the '}'. */
  lemma EmptyNameFails(text: string, i: nat, ambient: ConsoleColor)
    requires i + 1 < |text| && text[i] == '{' && text[i + 1] == '}' && LastChar(text, i) != '\\'
    requires Scan(text, i, ambient).Ok? && !Scan(text, i, ambient).value.inField
    ensures ParseText(text, ambient) == Err(EmptyFieldName(i + 1))
  {
    EmptyNameAt(text, i, ambient);
    ScanErrorSticks(text, i + 2, |text|, ambient);
  }

  /**
   * A '{' two or more characters in, right after a backslash, opens no
   * field: that backslash is the last character of the literal run, and it
   * is replaced by '{'; no part and no field is added.
   */
  lemma EscapedBraceIsLiteral(text: string, i: nat, ambient: ConsoleColor)
    requires 2 <= i < |text| && text[i] == '{' && text[i - 1] == '\\'
    requires Scan(text, i, ambient).Ok? && !Scan(text, i, ambient).value.inField
    ensures var s := Scan(text, i, ambient).value;
      s.run != [] && s.run[|s.run| - 1] == '\\'
      && Scan(text, i + 1, ambient) == Ok(s.(run := s.run[..|s.run| - 1] + "{"))
  {
  }

  /**
   * A backslash at index 0 never escapes: a template starting with "\{"
   * opens a field there, and its first part is the literal "\".
   */
  lemma LeadingBackslashDoesNotEscape(text: string, ambient: ConsoleColor)
    requires |text| >= 2 && text[0] == '\\' && text[1] == '{'
    ensures Scan(text, 2, ambient).Ok? && Scan(text, 2, ambient).value.inField
    ensures ParseText(text, ambient).Ok? ==>
      var ps := ParseText(text, ambient).value.parts; |ps| > 0 && ps[0] == Literal("\\")
  {
    var one := Start.(run := "\\");
    assert Start.run + [text[0]] == one.run;
    assert Scan(text, 1, ambient) == Ok(one);
    assert LastChar(text, 1) == '\0';
    assert one.run != [] && one.parts + [Literal(one.run)] == [Literal("\\")];
    assert Scan(text, 2, ambient) == Ok(Start.(inField := true, parts := [Literal("\\")]));
    if ParseText(text, ambient).Ok? {
      ScanPartsGrow(text, 2, |text|, ambient);
    }
  }

  /** Outside a field, every character but '{' is appended to the literal run. */
  lemma OutsideStep(text: string, j: nat, p: Scanner, ambient: ConsoleColor)
    requires j < |text| && EscapeReady(text, j, p) && !p.inField && text[j] != '{'
    ensures Step(text, j, p, ambient) == Ok(p.(run := p.run + [text[j]]))
  {
  }

  lemma AppendSlice(r: string, t: string, i: nat, n: nat)
    requires i < n <= |t|
    ensures r + t[i..n] == (r + t[i..n - 1]) + [t[n - 1]]
  {
    assert t[i..n] == t[i..n - 1] + [t[n - 1]];
  }

  /** Outside a field, a stretch without '{' is appended to the literal run as it is. */
  lemma {:induction false} BraceFreeRun(text: string, i: nat, n: nat, ambient: ConsoleColor)
    requires i <= n <= |text| && Scan(text, i, ambient).Ok? && !Scan(text, i, ambient).value.inField
    requires forall k | i <= k < n :: text[k] != '{'
    ensures var s := Scan(text, i, ambient).value;
      Scan(text, n, ambient) == Ok(s.(run := s.run + text[i..n]))
  {
    var s := Scan(text, i, ambient).value;
    if n == i {
      assert s.run + text[i..n] == s.run;
    } else {
      BraceFreeRun(text, i, n - 1, ambient);
      var p := s.(run := s.run + text[i..n - 1]);
      assert Scan(text, n - 1, ambient) == Ok(p);
      OutsideStep(text, n - 1, p, ambient);
      AppendSlice(s.run, text, i, n);
    }
  }

  /** Without a '{', the whole template, '}' and ':' included, is one literal part. */
  lemma BraceFreeIsLiteral(text: string, ambient: ConsoleColor)
    requires '{' !in text
    ensures ParseText(text, ambient) == Ok(Template(if text == [] then [] else [Literal(text)], map[]))
  {
    BraceFreeRun(text, 0, |text|, ambient);
    assert Start.run + text[0..|text|] == text;
    assert Finish(Start.(run := text)) == if text == [] then [] else [Literal(text)];
  }

  lemma {:induction false} OpenFieldStaysOpen(text: string, i: nat, j: nat, ambient: ConsoleColor)
    requires i < j <= |text| && text[i] == '{' && LastChar(text, i) != '\\'
    requires Scan(text, i, ambient).Ok? && !Scan(text, i, ambient).value.inField
    requires forall k | i < k < |text| :: text[k] != '{' && text[k] != '}'
    ensures var s := Scan(text, i, ambient).value;
      Scan(text, j, ambient).Ok? && Scan(text, j, ambient).value.inField
      && Scan(text, j, ambient).value.run == [] && Scan(text, j, ambient).value.parts == Finish(s)
      && Scan(text, j, ambient).value.fields == s.fields
  {
    if j > i + 1 {
      OpenFieldStaysOpen(text, i, j - 1, ambient);
    }
  }

  /** A field still open at the end of the template is dropped: no part, no field, no error. */
  lemma UnterminatedFieldDropped(text: string, i: nat, ambient: ConsoleColor)
    requires i < |text| && text[i] == '{' && LastChar(text, i) != '\\'
    requires Scan(text, i, ambient).Ok? && !Scan(text, i, ambient).value.inField
    requires forall k | i < k < |text| :: text[k] != '{' && text[k] != '}'
    ensures var s := Scan(text, i, ambient).value;
      ParseText(text, ambient) == Ok(Template(Finish(s), s.fields))
  {
    OpenFieldStaysOpen(text, i, |text|, ambient);
  }

  /** Inside a field, a character other than '{', '}' and ':' extends the name or the width text. */
  lemma InFieldStep(text: string, j: nat, p: Scanner, ambient: ConsoleColor)
    requires j < |text| && EscapeReady(text, j, p) && p.inField
    requires text[j] != '{' && text[j] != '}' && text[j] != ':'
    ensures Step(text, j, p, ambient)
      == Ok(if p.pastColon then p.(size := p.size + [text[j]]) else p.(name := p.name + [text[j]]))
  {
  }

  /**
   * Inside a field, a stretch without '{', '}' and ':' is appended as it is
   * to the name, or to the width text once past the colon.
   */
  lemma {:induction false} FieldRun(text: string, i: nat, n: nat, ambient: ConsoleColor)
    requires i <= n <= |text| && Scan(text, i, ambient).Ok? && Scan(text, i, ambient).value.inField
    requires forall k | i <= k < n :: text[k] != '{' && text[k] != '}' && text[k] != ':'
    ensures var s := Scan(text, i, ambient).value;
      Scan(text, n, ambient)
      == Ok(if s.pastColon then s.(size := s.size + text[i..n]) else s.(name := s.name + text[i..n]))
  {
    var s := Scan(text, i, ambient).value;
    if n == i {
      assert s.size + text[i..n] == s.size && s.name + text[i..n] == s.name;
    } else {
      FieldRun(text, i, n - 1, ambient);
      var p := if s.pastColon then s.(size := s.size + text[i..n - 1]) else s.(name := s.name + text[i..n - 1]);
      assert Scan(text, n - 1, ambient) == Ok(p);
      InFieldStep(text, n - 1, p, ambient);
      AppendSlice(s.size, text, i, n);
      AppendSlice(s.name, text, i, n);
    }
  }

  /**
   * A '}' closing a field, from any state Parse reaches: an empty name
   * throws first, then a width text of two or more characters that
   * Int32.TryParse rejects, then a name already in the table; otherwise the
   * reference and the field are added and the builders are cleared.
   */
  lemma CloseField(text: string, i: nat, ambient: ConsoleColor)
    requires i < |text| && text[i] == '}'
    requires Scan(text, i, ambient).Ok? && Scan(text, i, ambient).value.inField
    ensures var s := Scan(text, i, ambient).value;
      Scan(text, i + 1, ambient) ==
        if |s.name| < 1 then Err(EmptyFieldName(i))
        else if |s.size| > 1 && ParseInt32(s.size).None? then Err(InvalidFieldWidth(i))
        else if s.name in s.fields then Err(DuplicateField(s.name))
        else Ok(Scanner(false, false, "", "", "", None, s.parts + [FieldRef(s.name)],
                        s.fields[s.name := FieldInfo(s.name, Width(s.size), s.nextValue, Some(ambient))]))
  {
    ScanGood(text, i, ambient);
  }

  /**
   * ':' inside a field switches to the width text, and a second one changes
   * nothing; outside a field it is literal text.
   */
  lemma ColonStep(text: string, i: nat, ambient: ConsoleColor)
    requires i < |text| && text[i] == ':' && Scan(text, i, ambient).Ok?
    ensures var s := Scan(text, i, ambient).value;
      Scan(text, i + 1, ambient) == Ok(if s.inField then s.(pastColon := true) else s.(run := s.run + ":"))
  {
  }

  // ------------------------------------------------------------ update and render

  lemma WellFormedResolved(t: Template)
    requires WellFormed(t)
    ensures Resolved(t.parts, t.fields)
  {
    forall k | 0 <= k < |t.parts| && t.parts[k].FieldRef?
      ensures t.parts[k].name in t.fields
    {
      assert t.parts[k].name in RefNames(t.parts);
    }
  }

  /** Render makes one write per part, in order: each part's PartWrite. */
  lemma {:induction false} RenderedPart(ps: seq<Part>, fields: map<string, FieldInfo>, ambient: ConsoleColor, k: nat)
    requires Resolved(ps, fields) && k < |ps|
    ensures |RenderWrites(ps, fields, ambient)| == |ps|
    ensures RenderWrites(ps, fields, ambient)[k] == PartWrite(ps[k], fields, ambient)
  {
    var init := ps[..|ps| - 1];
    if k < |ps| - 1 {
      RenderedPart(init, fields, ambient, k);
    } else if |ps| > 1 {
      RenderedPart(init, fields, ambient, 0);
    }
  }

  /** Render's writes for the first k + 1 parts: those for the first k, then part k's write. */
  lemma RenderWritesPrefix(ps: seq<Part>, fields: map<string, FieldInfo>, ambient: ConsoleColor, k: nat)
    requires Resolved(ps, fields) && k < |ps|
    ensures Resolved(ps[..k], fields) && Resolved(ps[..k + 1], fields)
    ensures RenderWrites(ps[..k + 1], fields, ambient)
      == RenderWrites(ps[..k], fields, ambient) + [PartWrite(ps[k], fields, ambient)]
  {
    assert ps[..k + 1][..k] == ps[..k];
  }

  /** A successful Update keeps the field table in step with the parts. */
  lemma UpdateKeepsWellFormed(t: Template, name: string, value: Option<string>, color: Option<ConsoleColor>)
    requires WellFormed(t) && ApplyUpdate(t.fields, name, value, color).Ok?
    ensures WellFormed(Template(t.parts, ApplyUpdate(t.fields, name, value, color).value))
  {
  }

  /**
   * Update then render: the field's write is the new value, left-justified
   * and padded with spaces to the declared width, in the field's colour.
   */
  lemma UpdateThenRender(t: Template, name: string, v: string, ambient: ConsoleColor, k: nat)
    requires WellFormed(t) && '\n' !in v && name in t.fields
    requires k < |t.parts| && t.parts[k] == FieldRef(name)
    ensures ApplyUpdate(t.fields, name, Some(v), None).Ok?
    ensures var f := ApplyUpdate(t.fields, name, Some(v), None).value;
      Resolved(t.parts, f) && |RenderWrites(t.parts, f, ambient)| == |t.parts|
      && RenderWrites(t.parts, f, ambient)[k]
         == Put(Padded(v, t.fields[name].size), t.fields[name].color.GetOr(ambient))
  {
    var f := ApplyUpdate(t.fields, name, Some(v), None).value;
    UpdateKeepsWellFormed(t, name, Some(v), None);
    WellFormedResolved(Template(t.parts, f));
    RenderedPart(t.parts, f, ambient, k);
  }

  /** Once a key of Values is not a field, the rest of the enumeration is never reached. */
  lemma {:induction false} SetValuesErrorSticks(fields: map<string, FieldInfo>,
                                                vs: seq<(string, Option<string>)>, m: nat)
    requires m <= |vs| && SetValues(fields, vs[..m]).Err?
    ensures SetValues(fields, vs) == SetValues(fields, vs[..m])
  {
    if m < |vs| {
      var p := vs[..|vs| - 1];
      assert p[..m] == vs[..m];
      SetValuesErrorSticks(fields, p, m);
      assert SetValues(fields, vs) == Err(SetValues(fields, p).error);
    } else {
      assert vs[..m] == vs;
    }
  }

  /** Storing initial values keeps the template well formed: names, sizes and keys stay. */
  lemma SetValuesKeepsWellFormed(t: Template, vs: seq<(string, Option<string>)>)
    requires WellFormed(t) && SetValues(t.fields, vs).Ok?
    ensures WellFormed(Template(t.parts, SetValues(t.fields, vs).value))
  {
  }

  // ------------------------------------------------------------ examples

  /** A backslash before '{' (not at index 0) escapes it. */
  lemma EscapeExample(c: ConsoleColor)
    ensures ParseText("a\\{b}", c) == Ok(Template([Literal("a{b}")], map[]))
  {
    var text := "a\\{b}";
    BraceFreeRun(text, 0, 2, c);
    assert Start.run + text[0..2] == "a\\";
    assert LastChar(text, 2) == '\\' && "a\\"[..1] + "{" == "a{";
    assert Scan(text, 3, c) == Ok(Start.(run := "a{"));
    BraceFreeRun(text, 3, 5, c);
    assert "a{" + text[3..5] == "a{b}";
    assert |text| == 5 && Scan(text, 5, c) == Ok(Start.(run := "a{b}"));
    assert Finish(Start.(run := "a{b}")) == [Literal("a{b}")];
  }

  /** An unterminated field is dropped without an error. */
  lemma UnterminatedExample(c: ConsoleColor)
    ensures ParseText("ab{x", c) == Ok(Template([Literal("ab")], map[]))
  {
    var text := "ab{x";
    BraceFreeRun(text, 0, 2, c);
    assert Start.run + text[0..2] == "ab";
    assert Scan(text, 2, c) == Ok(Start.(run := "ab"));
    UnterminatedFieldDropped(text, 2, c);
    assert Finish(Start.(run := "ab")) == [Literal("ab")];
  }
}
