/**
 * The template language of UpdatableText, as values: the scanner that
 * UpdatableText.Parse runs over a pattern such as "Done: {pct:3}%", the
 * parts and field table it builds, and the writes that Render makes from
 * them. The class in updatable_text.dfy runs these steps in place.
 */
module Template {
  import opened Wrappers
  import opened BConsole
  import opened Int32Text

  /** An element of UpdatableText.Parts: literal text, or a FieldInfoReference. */
  datatype Part = Literal(text: string) | FieldRef(name: string)

  /** UpdatableTextFieldInfo; `value` is the field's value as text, None for null. */
  datatype FieldInfo = FieldInfo(name: string, size: int, value: Option<string>, color: Option<ConsoleColor>)

  /** The exceptions Parse throws, with the index of the character at fault. */
  datatype ParseError =
    | NestedFieldStart(pos: nat)   // '{' inside a field
    | EmptyFieldName(pos: nat)     // '}' closing a field with no name
    | InvalidFieldWidth(pos: nat)  // width text of two or more characters that Int32.TryParse rejects
    | DuplicateField(name: string) // Dictionary.Add of a name already present

  /** What Parse produces: the parts in order and the field table. */
  datatype Template = Template(parts: seq<Part>, fields: map<string, FieldInfo>)

  /**
   * Parse's variables between two characters: the two flags, the three
   * StringBuilders (name, width text, literal run), the value the next
   * field will be created with, and the Parts and Fields built so far.
   */
  datatype Scanner = Scanner(
    inField: bool, pastColon: bool,
    name: string, size: string, run: string,
    nextValue: Option<string>,
    parts: seq<Part>, fields: map<string, FieldInfo>)

  /** Before the first character; the first field is created with value "", later ones with null. */
  const Start: Scanner := Scanner(false, false, "", "", "", Some(""), [], map[])

  /** The lookback character: text[i - 1] only when i - 1 > 0, so index 0 is never looked at. */
  function LastChar(text: string, i: nat): (r: char)
    requires i <= |text|
    ensures 1 < i ==> r == text[i - 1]
    ensures i <= 1 ==> r == '\0'
  {
    if i - 1 > 0 then text[i - 1] else '\0'
  }

  /**
   * A backslash just read outside a field is the last character of the
   * literal run, so the escape branch always has a character to remove.
   */
  ghost predicate EscapeReady(text: string, i: nat, s: Scanner)
    requires i <= |text|
  {
    0 < i && !s.inField && text[i - 1] == '\\' ==> s.run != [] && s.run[|s.run| - 1] == '\\'
  }

  /** The width a closing '}' gives: 0 unless the width text has more than one character. */
  function Width(size: string): (r: int)
    ensures MinInt32 <= r <= MaxInt32
    ensures r != 0 ==> |size| > 1 && ParseInt32(size) == Some(r)
    ensures |size| <= 1 ==> r == 0
  {
    if |size| > 1 && ParseInt32(size).Some? then ParseInt32(size).value else 0
  }

  /** Parse's loop body for the character at index i; `ambient` is Console.ForegroundColor. */
  function Step(text: string, i: nat, s: Scanner, ambient: ConsoleColor): (r: Result<Scanner, ParseError>)
    requires i < |text| && EscapeReady(text, i, s)
    ensures r.Ok? ==> EscapeReady(text, i + 1, r.value)
  {
    var c := text[i];
    if c == '{' then
      if s.inField then Err(NestedFieldStart(i))
      else if LastChar(text, i) != '\\' then
        Ok(s.(inField := true, run := "",
              parts := if |s.run| > 0 then s.parts + [Literal(s.run)] else s.parts))
      else
        Ok(s.(run := s.run[..|s.run| - 1] + "{"))
    else if c == '}' then
      if !s.inField then Ok(s.(run := s.run + "}"))
      else if |s.name| < 1 then Err(EmptyFieldName(i))
      else if |s.size| > 1 && ParseInt32(s.size).None? then Err(InvalidFieldWidth(i))
      else if s.name in s.fields then Err(DuplicateField(s.name))
      else
        Ok(Scanner(false, false, "", "", s.run, None,
                   s.parts + [FieldRef(s.name)],
                   s.fields[s.name := FieldInfo(s.name, Width(s.size), s.nextValue, Some(ambient))]))
    else if c == ':' then
      if s.inField then Ok(s.(pastColon := true)) else Ok(s.(run := s.run + ":"))
    else if s.inField then
      if s.pastColon then Ok(s.(size := s.size + [c])) else Ok(s.(name := s.name + [c]))
    else
      Ok(s.(run := s.run + [c]))
  }

  /** The scanner after the first n characters, or the first exception thrown. */
  function Scan(text: string, n: nat, ambient: ConsoleColor): (r: Result<Scanner, ParseError>)
    requires n <= |text|
    ensures r.Ok? ==> EscapeReady(text, n, r.value)
  {
    if n == 0 then Ok(Start)
    else
      match Scan(text, n - 1, ambient)
      case Err(e) => Err(e)
      case Ok(s) => Step(text, n - 1, s, ambient)
  }

  /** The parts once the trailing literal run, if any, is flushed. */
  function Finish(s: Scanner): (r: seq<Part>)
    ensures |s.parts| <= |r| <= |s.parts| + 1 && r[..|s.parts|] == s.parts
    ensures |r| > |s.parts| <==> s.run != []
    ensures |r| > |s.parts| ==> r[|r| - 1] == Literal(s.run)
  {
    if |s.run| > 0 then s.parts + [Literal(s.run)] else s.parts
  }

  /**
   * The character an exception points at: the '{' opening a nested field,
   * or the '}' closing a field with no name or a bad width. A duplicate
   * carries the name instead, which is never empty.
   */
  predicate Culprit(text: string, e: ParseError)
  {
    match e
    case NestedFieldStart(i) => i < |text| && text[i] == '{'
    case EmptyFieldName(i) => i < |text| && text[i] == '}'
    case InvalidFieldWidth(i) => i < |text| && text[i] == '}'
    case DuplicateField(n) => n != []
  }

  /** Every exception Parse throws within the first n characters points at its culprit. */
  lemma {:induction false} ScanErrorAt(text: string, n: nat, ambient: ConsoleColor)
    requires n <= |text|
    ensures Scan(text, n, ambient).Err? ==> Culprit(text, Scan(text, n, ambient).error)
  {
    if n > 0 {
      ScanErrorAt(text, n - 1, ambient);
    }
  }

  /** UpdatableText.Parse. */
  function ParseText(text: string, ambient: ConsoleColor): (r: Result<Template, ParseError>)
    ensures r.Err? ==> Culprit(text, r.error)
  {
    ScanErrorAt(text, |text|, ambient);
    match Scan(text, |text|, ambient)
    case Err(e) => Err(e)
    case Ok(s) => Ok(Template(Finish(s), s.fields))
  }

  // ---------------------------------------------------------------- shape

  ghost predicate NoEmptyLiterals(ps: seq<Part>)
  {
    forall k | 0 <= k < |ps| :: ps[k].Literal? ==> ps[k].text != []
  }

  ghost predicate NoAdjacentLiterals(ps: seq<Part>)
  {
    forall k | 0 <= k < |ps| - 1 :: !(ps[k].Literal? && ps[k + 1].Literal?)
  }

  function RefNames(ps: seq<Part>): set<string>
  {
    set k | 0 <= k < |ps| && ps[k].FieldRef? :: ps[k].name
  }

  ghost predicate UniqueRefs(ps: seq<Part>)
  {
    forall a, b | 0 <= a < b < |ps| && ps[a].FieldRef? && ps[b].FieldRef? :: ps[a].name != ps[b].name
  }

  /** A field name as the scanner can build it. */
  predicate CleanName(n: string)
  {
    n != [] && '{' !in n && '}' !in n && ':' !in n
  }

  /** What every successful parse produces. */
  ghost predicate WellFormed(t: Template)
  {
    NoEmptyLiterals(t.parts) && NoAdjacentLiterals(t.parts)
    && UniqueRefs(t.parts) && t.fields.Keys == RefNames(t.parts)
    && forall n | n in t.fields :: t.fields[n].name == n && CleanName(n)
  }

  // ---------------------------------------------------------------- fields

  /** The exceptions of UpdatableText's constructors and Update overloads. */
  datatype TextError =
    | Malformed(cause: ParseError)  // Parse threw
    | NoConsole                     // Console.CursorLeft/CursorTop threw: no console attached
    | NullValue                     // Value.ToString() on a null value
    | LineBreak                     // the value's text contains '\n'
    | UnknownField(field: string)   // the dictionary lookup of an undeclared name

  /**
   * What Update(Name, Value) (color None) and Update(Name, Value, Color)
   * (color Some) do to the field table: the value is checked first, then
   * the name is looked up, then the field changes in place.
   */
  function ApplyUpdate(fields: map<string, FieldInfo>, name: string, value: Option<string>,
                       color: Option<ConsoleColor>): (r: Result<map<string, FieldInfo>, TextError>)
    ensures r.Ok? <==> value.Some? && '\n' !in value.value && name in fields
    ensures value.None? ==> r == Err(NullValue)
    ensures value.Some? && '\n' in value.value ==> r == Err(LineBreak)
    ensures value.Some? && '\n' !in value.value && name !in fields ==> r == Err(UnknownField(name))
    ensures r.Ok? ==> r.value.Keys == fields.Keys
    ensures r.Ok? ==> r.value[name].value == value && r.value[name].size == fields[name].size
                      && r.value[name].name == fields[name].name
    ensures r.Ok? ==> r.value[name].color == if color.Some? then color else fields[name].color
    ensures r.Ok? ==> forall n | n in fields && n != name :: r.value[n] == fields[n]
  {
    if value.None? then Err(NullValue)
    else if '\n' in value.value then Err(LineBreak)
    else if name !in fields then Err(UnknownField(name))
    else
      var info := fields[name].(value := value);
      Ok(fields[name := if color.Some? then info.(color := color) else info])
  }

  /** The keys of an enumeration of (key, value) pairs. */
  function KeysOf(vs: seq<(string, Option<string>)>): set<string>
  {
    set k | 0 <= k < |vs| :: vs[k].0
  }

  /**
   * The loop of the UpdatableText(Text, Values) constructor: each pair, in
   * enumeration order, stores its value in the named field through the
   * dictionary indexer, which throws on the first key that is not a field.
   * Neither null nor '\n' is checked here.
   */
  function SetValues(fields: map<string, FieldInfo>, vs: seq<(string, Option<string>)>)
    : (r: Result<map<string, FieldInfo>, TextError>)
    ensures r.Ok? <==> forall k | 0 <= k < |vs| :: vs[k].0 in fields
    ensures r.Err? ==> exists k | 0 <= k < |vs| ::
      r.error == UnknownField(vs[k].0) && vs[k].0 !in fields
      && forall j | 0 <= j < k :: vs[j].0 in fields
    ensures r.Ok? ==> r.value.Keys == fields.Keys
    ensures r.Ok? ==> forall n | n in fields ::
      r.value[n].name == fields[n].name && r.value[n].size == fields[n].size
      && r.value[n].color == fields[n].color
      && r.value[n].value == (if n in KeysOf(vs) then LastValue(vs, n) else fields[n].value)
  {
    if vs == [] then Ok(fields)
    else
      var last := vs[|vs| - 1];
      assert forall k | 0 <= k < |vs| - 1 :: vs[..|vs| - 1][k] == vs[k];
      match SetValues(fields, vs[..|vs| - 1])
      case Err(e) => Err(e)
      case Ok(f) =>
        if last.0 !in f then Err(UnknownField(last.0))
        else Ok(f[last.0 := f[last.0].(value := last.1)])
  }

  /** The value the last pair with key n carries. */
  function LastValue(vs: seq<(string, Option<string>)>, n: string): (v: Option<string>)
    requires n in KeysOf(vs)
    ensures exists k | 0 <= k < |vs| :: vs[k] == (n, v) && forall j | k < j < |vs| :: vs[j].0 != n
  {
    if vs[|vs| - 1].0 == n then vs[|vs| - 1].1
    else
      assert n in KeysOf(vs[..|vs| - 1]) by {
        var k :| 0 <= k < |vs| && vs[k].0 == n;
        assert vs[..|vs| - 1][k].0 == n;
      }
      LastValue(vs[..|vs| - 1], n)
  }

  // ---------------------------------------------------------------- render

  function Max(a: int, b: int): int
  {
    if a >= b then a else b
  }

  /**
   * A field's value followed by Math.Max(Size - length, 0) spaces: at least
   * `size` characters, the value first and never truncated, spaces after.
   */
  function Padded(v: string, size: int): (r: string)
    ensures |r| == Max(size, |v|) && r[..|v|] == v
    ensures forall k | |v| <= k < |r| :: r[k] == ' '
  {
    v + Repeat(' ', Max(size - |v|, 0))
  }

  /** The text Render writes for a field: its value, "" for null, padded to its size. */
  function FieldText(info: FieldInfo): (r: string)
    ensures var v := info.value.GetOr("");
      |r| == Max(info.size, |v|) && r[..|v|] == v && forall k | |v| <= k < |r| :: r[k] == ' '
  {
    Padded(info.value.GetOr(""), info.size)
  }

  /** Every field reference names a field of the table. */
  ghost predicate Resolved(ps: seq<Part>, fields: map<string, FieldInfo>)
  {
    forall k | 0 <= k < |ps| :: ps[k].FieldRef? ==> ps[k].name in fields
  }

  /**
   * The write Render makes for one part: a literal verbatim in the ambient
   * colour, a field as FieldText in its own colour, or the ambient one if unset.
   */
  function PartWrite(p: Part, fields: map<string, FieldInfo>, ambient: ConsoleColor): (r: Event)
    requires p.FieldRef? ==> p.name in fields
    ensures r.Put?
    ensures p.FieldRef? ==> |r.text| >= fields[p.name].size && r.color == fields[p.name].color.GetOr(ambient)
  {
    match p
    case Literal(t) => Put(t, ambient)
    case FieldRef(n) => Put(FieldText(fields[n]), fields[n].color.GetOr(ambient))
  }

  /** The writes of Render's loop over the parts, in order. */
  function RenderWrites(ps: seq<Part>, fields: map<string, FieldInfo>, ambient: ConsoleColor): (r: seq<Event>)
    requires Resolved(ps, fields)
    ensures |r| == |ps|
  {
    if ps == [] then []
    else RenderWrites(ps[..|ps| - 1], fields, ambient) + [PartWrite(ps[|ps| - 1], fields, ambient)]
  }
}
