# BConsoleFramework: UpdatableText, TextBox and the scoped console guards, in Dafny

This project models the core of BConsoleFramework, a small C# helper layer over `System.Console`:

- **UpdatableText** parses a line pattern such as `"Done: {pct:3}%"` into literal parts and field references. The field table maps each name to a width, a value and a colour. The line is drawn at the cursor position recorded at construction. Updating a field redraws the line there only when the update asks for it with `ReRender`, which is false by default.
- **TextBox** draws a three-row box at the cursor, then edits one line of text key by key until Enter and returns it.
- **TemporaryCursorMove** and **TemporaryForegroundColorChange** save a piece of console state when they are constructed, change it, and restore it when disposed.

The console is a `Terminal` object (`bconsole.dfy`) with these parts:
- a cursor position, a foreground colour and a `hasConsole` flag, which is `BConsole.HasConsole`;
- a ghost trace of every write, cursor move and line terminator.

Every component holds a reference to that one shared `Terminal` and updates it in place through `modifies` clauses. The methods are proved against pure specification functions, and the properties of those functions are proved as lemmas:
- `Template.Scan`/`Template.Step` is the parser's state machine, one character at a time.
- `Template.RenderWrites` is what Render writes.
- `LineEdit.Edit` is what one key press does to the text and cursor.

Files:
- `wrappers.dfy`: `Option` and `Result`.
- `bconsole.dfy`: the console, its colours and its events.
- `temporary_cursor_move.dfy`, `temporary_color_change.dfy`: the two scoped guards, and `BConsole.Write(value, Color)`.
- `int32_text.dfy`: `Int32.TryParse` as the field-width parser uses it.
- `template.dfy`: the template language as values (scanner, parts, fields, updates, rendered writes).
- `template_facts.dfy`: the lemmas about parsing, updating and rendering.
- `template_pieces.dfy`: patterns written out from pieces (literal text and `{name}` or `{name:width}` slots), and what Parse makes of them.
- `updatable_text.dfy`: the `UpdatableText` class and its two constructors.
- `line_edit.dfy`: the key-by-key line editing as values.
- `text_box.dfy`: the `TextBox` class.

The model follows the code as written, including where it departs from what a reader of the pattern syntax would expect:
- A width text of a single character is ignored (`Size.Length > 1`), so `{x:5}` has width 0 and `{x:a}` is accepted (`TemplatePieces.ShortWidthExamples`).
- A field name declared twice throws at the second closing brace, because `Dictionary.Add` rejects the duplicate (`TemplatePieces.TwoSlots`, `TemplatePieces.SameNameLater`).
- A field still open at the end of the pattern is dropped silently rather than reported (`TemplateFacts.UnterminatedFieldDropped`).
- The `(Text, Values)` constructor checks neither null values nor line breaks.
- A backslash at index 0 never escapes the brace after it (`TemplateFacts.LeadingBackslashDoesNotEscape`).
- `TextBox.DrawBox` records the previous colour but never restores it.
- `TextBox.DrawText` writes the line from absolute column 1 and puts the cursor at column `Cursor.X + 1`. It ignores `Location.X`, so a box drawn away from column 0 gets its text echoed to the left of the box (`TextBoxes.Echo`).

## Model

| member | source | states |
|---|---|---|
| BConsole.Terminal.Left | BConsoleFramework/BConsole.cs:77-88 | BConsole.CursorLeft is the console column when a console is attached and 0 otherwise |
| BConsole.Terminal.Top | BConsoleFramework/BConsole.cs:94-105 | BConsole.CursorTop is the console row when a console is attached and 0 otherwise |
| BConsole.Terminal.SetForegroundColor | BConsoleFramework/TemporaryColorChange.cs:38-40 | Console.ForegroundColor becomes the given colour and nothing else changes |
| BConsole.Terminal.SetCursorPosition | BConsoleFramework/BConsole.cs:398-402 | the cursor moves, and a move is recorded, only when a console is attached; the colour never changes |
| BConsole.Terminal.Write | BConsoleFramework/BConsole.cs:287 | the text is recorded in the colour current at that moment and the cursor advances by its length |
| BConsole.Terminal.WriteLine | BConsoleFramework/BConsole.cs:350 | a line terminator is recorded and the cursor goes to column 0 of the next row |
| CursorGuard.TemporaryCursorMove.constructor | BConsoleFramework/TemporaryCursorMove.cs:33-41 | records the position read through BConsole.CursorLeft/CursorTop (0 without a console), then moves there only if a console exists; the colour is untouched |
| CursorGuard.TemporaryCursorMove.Dispose | BConsoleFramework/TemporaryCursorMove.cs:43-48 | moves the cursor back to the recorded position, whatever happened in between; without a console nothing moves |
| CursorGuard.WithCursorAt | BConsoleFramework/TemporaryCursorMove.cs:19-48 | a using block around any body leaves the cursor where it was before the block, with or without a console |
| CursorGuard.NestedCursorMoves | BConsoleFramework/TemporaryCursorMove.cs:33-48 | two nested guards disposed in reverse order leave the cursor at the outer one's recorded position and the colour unchanged |
| ColorGuard.TemporaryForegroundColorChange.constructor | BConsoleFramework/TemporaryColorChange.cs:35-41 | records the current foreground colour and sets the new one, changing nothing else |
| ColorGuard.TemporaryForegroundColorChange.Dispose | BConsoleFramework/TemporaryColorChange.cs:43-48 | sets the foreground colour back to the recorded one, changing nothing else |
| ColorGuard.WriteInColor | BConsoleFramework/BConsole.cs:294-298 | the text is written in the given colour and the ambient colour is the same afterwards |
| ColorGuard.WithForegroundColor | BConsoleFramework/TemporaryColorChange.cs:19-48 | a using block around any body restores the ambient colour |
| ColorGuard.NestedColorChanges | BConsoleFramework/TemporaryColorChange.cs:35-48 | nested colour guards restore in LIFO order: the inner write is in the inner colour and the outer colour ends restored |
| Int32Text.ParseInt32 | BConsoleFramework/Components/UpdatableText.cs:123 | a width text that parses yields a value within Int32 |
| Int32Text.ParseDigits | BConsoleFramework/Components/UpdatableText.cs:123 | a run of ASCII digits whose value fits in Int32 parses to that value |
| Int32Text.NonDigitsRejected | BConsoleFramework/Components/UpdatableText.cs:123 | a width text with no surrounding white space and no sign that holds a non-digit is rejected |
| Int32Text.LeadingZero | BConsoleFramework/Components/UpdatableText.cs:123 | a leading zero does not change the value of a run of digits |
| Int32Text.ZeroPaddedRoundTrip | BConsoleFramework/Components/UpdatableText.cs:123 | the decimal text of an Int32 after a leading zero parses back to the number |
| Int32Text.DecimalRoundTrip | BConsoleFramework/Components/UpdatableText.cs:123 | writing a non-negative Int32 in decimal and parsing it back gives the number |
| Template.LastChar | BConsoleFramework/Components/UpdatableText.cs:69 | the lookback is text[i - 1] only when i - 1 > 0, and NUL otherwise, so index 0 is never looked at |
| Template.Width | BConsoleFramework/Components/UpdatableText.cs:122-128 | the width is an Int32; it is not 0 only when the width text has two or more characters and TryParse reads it as that width; a width text of one character or none gives 0 |
| Template.Step | BConsoleFramework/Components/UpdatableText.cs:66-167 | after each character, a backslash just read outside a field is the last character of the literal run, so the escape branch's Part.Remove is always in range |
| Template.Scan | BConsoleFramework/Components/UpdatableText.cs:66-168 | the same holds after every prefix of the pattern: the escape never removes from an empty builder |
| Template.Finish | BConsoleFramework/Components/UpdatableText.cs:170-175 | the remaining literal run is added as one last part exactly when it is not empty; the earlier parts are kept |
| Template.ScanErrorAt | BConsoleFramework/Components/UpdatableText.cs:66-168 | every exception thrown within a prefix points at its culprit: a nested '{' for NestedFieldStart, the closing '}' for an empty name or a bad width; a duplicate names a non-empty field |
| Template.ParseText | BConsoleFramework/Components/UpdatableText.cs:51-176 | an exception's index is that of the character that caused it; what a successful parse gives is stated by TemplateFacts.ParseWellFormed and TemplatePieces.ParsePrinted |
| Template.ApplyUpdate | BConsoleFramework/Components/UpdatableText.cs:211-245 | succeeds exactly when the value is not null, has no line break and names a field, with the error in that order of checks; on success only the named field's value (and colour, for the coloured overload) changes |
| Template.SetValues | BConsoleFramework/Components/UpdatableText.cs:195-199 | succeeds exactly when every key is a field; otherwise fails with the first unknown key; on success each field holds the last value given for it, and names, widths and colours are kept |
| Template.LastValue | BConsoleFramework/Components/UpdatableText.cs:198-199 | the value stored for a key is the one of its last pair in enumeration order |
| Template.Padded | BConsoleFramework/Components/UpdatableText.cs:272-276 | the field text is the value followed only by spaces, at least the width long and never truncated |
| Template.FieldText | BConsoleFramework/Components/UpdatableText.cs:272-276 | a field is written as its value followed by spaces up to the declared width, never truncated |
| Template.PartWrite | BConsoleFramework/Components/UpdatableText.cs:255-280 | every part is written; a field is written at least its declared width long, in its own colour or else the foreground colour |
| Template.RenderWrites | BConsoleFramework/Components/UpdatableText.cs:255-286 | Render makes exactly one write per part |
| TemplateFacts.StepGood | BConsoleFramework/Components/UpdatableText.cs:74-167 | one character keeps the parser's invariant: no empty or adjacent literals, unique references, field table keyed by the referenced names |
| TemplateFacts.ScanGood | BConsoleFramework/Components/UpdatableText.cs:66-168 | every state the parse loop reaches satisfies that invariant |
| TemplateFacts.ScanErrorSticks | BConsoleFramework/Components/UpdatableText.cs:79-80 | once Parse throws, the rest of the pattern changes nothing |
| TemplateFacts.ScanPartsGrow | BConsoleFramework/Components/UpdatableText.cs:88 | parts are only appended: an earlier state's parts are a prefix of a later one's |
| TemplateFacts.FinishWellFormed | BConsoleFramework/Components/UpdatableText.cs:170-175 | adding the remaining literal keeps the parts well formed |
| TemplateFacts.ParseWellFormed | BConsoleFramework/Components/UpdatableText.cs:51-176 | a successful parse has no empty or adjacent literals, names free of '{', '}' and ':', and exactly one reference per field of the table |
| TemplateFacts.ParseFieldDefaults | BConsoleFramework/Components/UpdatableText.cs:56-60 | every field gets the foreground colour at parse time and a value that renders as "" (which fields start with "" and which with null is stated by TemplatePieces.ParsePrinted) |
| TemplateFacts.NestedBraceFails | BConsoleFramework/Components/UpdatableText.cs:77-80 | a '{' inside a field throws at its index, whatever follows |
| TemplateFacts.EmptyNameFails | BConsoleFramework/Components/UpdatableText.cs:118-120 | an unescaped "{}" throws at the '}' |
| TemplateFacts.EmptyNameAt | BConsoleFramework/Components/UpdatableText.cs:118-120 | an unescaped "{}" read outside a field throws EmptyFieldName at the '}' |
| TemplateFacts.EscapedBraceIsLiteral | BConsoleFramework/Components/UpdatableText.cs:82-103 | a '{' after a backslash (not at index 1) replaces that backslash in the literal run and opens no field |
| TemplateFacts.LeadingBackslashDoesNotEscape | BConsoleFramework/Components/UpdatableText.cs:69 | the lookback never reads index 0, so a pattern starting with "\{" opens a field and keeps "\" as its first part |
| TemplateFacts.BraceFreeIsLiteral | BConsoleFramework/Components/UpdatableText.cs:107-175 | a pattern without '{' parses to one literal part (none if empty), '}' and ':' included, with no fields |
| TemplateFacts.BraceFreeRun | BConsoleFramework/Components/UpdatableText.cs:107-165 | outside a field, a stretch without '{' is appended to the literal run verbatim |
| TemplateFacts.FieldRun | BConsoleFramework/Components/UpdatableText.cs:154-162 | inside a field, ordinary characters extend the name, or the width text once past the colon |
| TemplateFacts.OpenFieldStaysOpen | BConsoleFramework/Components/UpdatableText.cs:77-96 | an opened field stays open through characters other than braces, with the literal before it already added as a part |
| TemplateFacts.UnterminatedFieldDropped | BConsoleFramework/Components/UpdatableText.cs:170-175 | a field left open at the end adds no part, no field and no error |
| TemplateFacts.CloseField | BConsoleFramework/Components/UpdatableText.cs:107-141 | a '}' closing a field throws on an empty name first, then on a bad width text, then on a name already declared; otherwise it adds the reference and a field with the pending value, the ambient colour and Width of the width text, and clears the builders |
| TemplateFacts.ColonStep | BConsoleFramework/Components/UpdatableText.cs:144-151 | ':' inside a field switches to the width text, and a second one changes nothing; outside a field it is literal text |
| TemplateFacts.WellFormedResolved | BConsoleFramework/Components/UpdatableText.cs:270-279 | every reference of a parsed template names a field, so Render's "Unprovided field value" throw is unreachable |
| TemplateFacts.RenderedPart | BConsoleFramework/Components/UpdatableText.cs:255-286 | Render makes one write per part, in order, each the part's write |
| TemplateFacts.RenderWritesPrefix | BConsoleFramework/Components/UpdatableText.cs:255-286 | the writes for the first k + 1 parts are those for the first k, then part k's write |
| TemplateFacts.UpdateKeepsWellFormed | BConsoleFramework/Components/UpdatableText.cs:211-245 | a successful update keeps the field table in step with the parts |
| TemplateFacts.UpdateThenRender | BConsoleFramework/Components/UpdatableText.cs:218 | after updating a field to v, the field's write is v left-justified and padded to the declared width, in the field's colour |
| TemplateFacts.SetValuesErrorSticks | BConsoleFramework/Components/UpdatableText.cs:198-199 | after the first unknown key the rest of the enumeration is never reached |
| TemplateFacts.SetValuesKeepsWellFormed | BConsoleFramework/Components/UpdatableText.cs:195-199 | storing the initial values keeps the template well formed |
| TemplateFacts.EscapeExample | BConsoleFramework/Components/UpdatableText.cs:82-103 | "a\\{b}" is the single literal "a{b}" |
| TemplateFacts.UnterminatedExample | BConsoleFramework/Components/UpdatableText.cs:170-175 | "ab{x" is the single literal "ab" |
| TemplatePieces.ScanPrefix | BConsoleFramework/Components/UpdatableText.cs:66-168 | what the parse loop has done after n characters depends only on those n characters |
| TemplatePieces.TextStep | BConsoleFramework/Components/UpdatableText.cs:154-166 | outside a field, any stretch without '{' is appended to the literal run, from any state |
| TemplatePieces.NameStep | BConsoleFramework/Components/UpdatableText.cs:154-162 | inside a field, a stretch without '{', '}' and ':' extends the name, or the width text once past the colon |
| TemplatePieces.OpenName | BConsoleFramework/Components/UpdatableText.cs:77-96 | an unescaped '{' and a name, from any state outside a field, add the literal run so far as a part and read the name |
| TemplatePieces.WidthText | BConsoleFramework/Components/UpdatableText.cs:144-162 | ':' and a width text after a name pass the colon and read the width text |
| TemplatePieces.FieldTail | BConsoleFramework/Components/UpdatableText.cs:144-162 | after a field's name, the optional ':' and width text are read up to the closing '}' |
| TemplatePieces.SlotPositions | BConsoleFramework/Components/UpdatableText.cs:77-151 | a slot written into a pattern has its '{', name, ':', width text and '}' at the offsets its text gives |
| TemplatePieces.CloseStep | BConsoleFramework/Components/UpdatableText.cs:107-141 | the '}' at a given position, from any state inside a field, throws or closes the field as CloseField says |
| TemplatePieces.SlotClose | BConsoleFramework/Components/UpdatableText.cs:77-141 | a whole slot, from any state outside a field, throws on a bad width text, then on a name already declared; otherwise it adds the reference and the field |
| TemplatePieces.SlotStep | BConsoleFramework/Components/UpdatableText.cs:77-141 | the same, for a slot given as the text "{name}" or "{name:width}" at an offset of the pattern |
| TemplatePieces.Repeated | BConsoleFramework/Components/UpdatableText.cs:129 | the first name met a second time is none exactly when no name repeats; otherwise it is a name already seen, with no repeat before it |
| TemplatePieces.PartsOf | BConsoleFramework/Components/UpdatableText.cs:88-130 | one part per piece, in order: a literal for text, a reference for a slot |
| TemplatePieces.FieldsOf | BConsoleFramework/Components/UpdatableText.cs:129-140 | the field table the slots declare has exactly the slots' names, each with the ambient colour |
| TemplatePieces.ScanPrinted | BConsoleFramework/Components/UpdatableText.cs:66-168 | the parse loop over a pattern written from printable pieces reaches the state the pieces describe, or throws on the first name declared twice |
| TemplatePieces.ParsePrinted | BConsoleFramework/Components/UpdatableText.cs:51-176 | a pattern written from printable pieces parses to one part per piece in order and one field per slot, the first field with value "" and the later ones with null; a name declared twice throws at its second slot |
| TemplatePieces.SnocFields | BConsoleFramework/Components/UpdatableText.cs:129-140 | one more slot adds its field, with value "" only when it is the first slot |
| TemplatePieces.SingleSlot | BConsoleFramework/Components/UpdatableText.cs:107-141 | a pattern of one slot throws InvalidFieldWidth at the '}' exactly when the width text has two or more characters and TryParse rejects it; otherwise it gives one reference and one field of that width, with value "" |
| TemplatePieces.NamelessSlot | BConsoleFramework/Components/UpdatableText.cs:118-120 | a slot without a name throws EmptyFieldName at its '}', with or without a width text |
| TemplatePieces.NamelessExamples | BConsoleFramework/Components/UpdatableText.cs:118-120 | "{}" throws at index 1 and "{:5}" at index 3 |
| TemplatePieces.LiteralBracesExample | BConsoleFramework/Components/UpdatableText.cs:107-151 | "a}b:c" is one literal |
| TemplatePieces.NestedBraceExample | BConsoleFramework/Components/UpdatableText.cs:77-80 | "{a{" throws NestedFieldStart at index 2 |
| TemplatePieces.BadWidthExample | BConsoleFramework/Components/UpdatableText.cs:122-124 | "{x:abc}" throws InvalidFieldWidth at index 6 |
| TemplatePieces.ShortWidthExamples | BConsoleFramework/Components/UpdatableText.cs:122-128 | "{x:5}" and "{x:a}" both give a field of width 0 |
| TemplatePieces.NumberWidthSlot | BConsoleFramework/Components/UpdatableText.cs:122-128 | a width text of two or more characters that TryParse reads as v gives width v |
| TemplatePieces.ZeroPaddedWidthSlot | BConsoleFramework/Components/UpdatableText.cs:122-128 | a width written as "0" and the decimal text of k gives width k, so "{x:05}" has width 5 |
| TemplatePieces.TextFieldTextField | BConsoleFramework/Components/UpdatableText.cs:51-176 | text, a field, text and a field with a width parse to those four parts, the first field with value "" and width 0, the second with null and Width of its width text |
| TemplatePieces.TwoSlots | BConsoleFramework/Components/UpdatableText.cs:107-141 | two slots side by side give two fields, or throw DuplicateField when the names are the same |
| TemplatePieces.SameNameLater | BConsoleFramework/Components/UpdatableText.cs:129 | a name declared again throws even when another field came between |
| TemplatePieces.PiecesExample | BConsoleFramework/Components/UpdatableText.cs:51-176 | "ab{x}cd{y:12}" is the literal "ab", x, the literal "cd" and y, with x of width 0 and value "" and y of width 12 and value null |
| TemplatePieces.AdjacentSlotsExample | BConsoleFramework/Components/UpdatableText.cs:51-176 | "{a}{b}" is two references with no literal between them |
| TemplatePieces.DuplicateExample | BConsoleFramework/Components/UpdatableText.cs:129 | "{x}{x}" and "{x}{y}{x}" throw DuplicateField("x") |
| UpdatableTexts.UpdatableText.Parse | BConsoleFramework/Components/UpdatableText.cs:51-176 | the in-place loop fills Parts and Fields exactly as the scanner says, or reports the same exception |
| UpdatableTexts.UpdatableText.Render | BConsoleFramework/Components/UpdatableText.cs:250-291 | writes a move to Location, every part's write in order, a line terminator and a move back; cursor and colour end as they were |
| UpdatableTexts.UpdatableText.WriteParts | BConsoleFramework/Components/UpdatableText.cs:255-286 | the loop over the parts writes each part's write, in order, and leaves the foreground colour as it was |
| UpdatableTexts.UpdatableText.WritePart | BConsoleFramework/Components/UpdatableText.cs:258-285 | a literal is written verbatim in the current colour; a field is written as its value (null as "") and its padding, in its own colour or else the current one, and the colour is restored |
| UpdatableTexts.UpdatableText.Update | BConsoleFramework/Components/UpdatableText.cs:211-223 | the fields change exactly as ApplyUpdate says, or nothing changes and the same error is reported; with ReRender the line is redrawn |
| UpdatableTexts.UpdatableText.UpdateColored | BConsoleFramework/Components/UpdatableText.cs:232-245 | as Update, and the field's colour becomes the given one |
| UpdatableTexts.UpdatableText.RenderTwice | BConsoleFramework/Components/UpdatableText.cs:250-291 | rendering twice writes the same output twice and leaves the cursor where it was |
| UpdatableTexts.New | BConsoleFramework/Components/UpdatableText.cs:182-188 | fails with the parse error, or for lack of a console; otherwise the template is the parse of the text and the location is the cursor position |
| UpdatableTexts.NewWithValues | BConsoleFramework/Components/UpdatableText.cs:195-203 | as New, then the values are stored as SetValues says and the line is rendered; a failure writes nothing |
| LineEdit.Insert | BConsoleFramework/Components/TextBox.cs:148 | the character lands at the index with the text around it unchanged |
| LineEdit.Remove | BConsoleFramework/Components/TextBox.cs:109 | exactly the character at the index is removed |
| LineEdit.EditKeepsFit | BConsoleFramework/Components/TextBox.cs:102-154 | with the console column at Cursor.X + 1 no key throws, and the cursor stays inside a text that fits the box |
| LineEdit.Press | BConsoleFramework/Components/TextBox.cs:79-85 | a key pressed in ReadLine keeps the line fitting |
| LineEdit.PressAll | BConsoleFramework/Components/TextBox.cs:79-85 | any run of keys keeps the line fitting, and the text grows by at most one character per key |
| LineEdit.Edit | BConsoleFramework/Components/TextBox.cs:102-154 | a key edit throws only with the cursor at or past the end of the text, and at the end only for Delete when the console column is left of it; otherwise the cursor stays non-negative and the text grows or shrinks by at most one character |
| LineEdit.ControlKeysIgnored | BConsoleFramework/Components/TextBox.cs:100 | a key whose character is NUL or ESC is not a text key and leaves the line as it was |
| LineEdit.FirstEnter | BConsoleFramework/Components/TextBox.cs:85 | the index of the first Enter, with no Enter before it, or none at all |
| LineEdit.TypingInserts | BConsoleFramework/Components/TextBox.cs:143-152 | a text key changes the line exactly when the box has room and the character is neither NUL nor ESC, and then inserts it at the cursor and advances the cursor |
| LineEdit.EnterInsertsReturn | BConsoleFramework/Components/TextBox.cs:143-152 | Enter has no case of its own, so with room its '\r' is inserted |
| LineEdit.BackspaceRemoves | BConsoleFramework/Components/TextBox.cs:106-112 | Backspace removes the character before the cursor and steps back, and does nothing at column 0 |
| LineEdit.DeleteRemoves | BConsoleFramework/Components/TextBox.cs:120-123 | Delete removes the character under the cursor, and does nothing at the end of the text |
| LineEdit.DeleteGuardReadsConsole | BConsoleFramework/Components/TextBox.cs:121-122 | the guard compares the console column rather than Cursor.X, so Delete with the cursor at the end and the console column left of it throws |
| LineEdit.CursorKeysMoveOnly | BConsoleFramework/Components/TextBox.cs:125-141 | Home, End and the arrows move only the cursor, and never outside the text |
| LineEdit.PasteKeyInserts | BConsoleFramework/Components/TextBox.cs:115-118 | V inserts its character at the cursor whenever there is room, text key or not, and moves the cursor to the end |
| LineEdit.RemoveInsert | BConsoleFramework/Components/TextBox.cs:109 | removing the character just inserted gives the text back |
| LineEdit.TypeThenBackspace | BConsoleFramework/Components/TextBox.cs:106-152 | typing a character and then Backspace restores the line |
| BConsole.Repeat | BConsoleFramework/Components/TextBox.cs:50 | new String(c, n) is n copies of c, as used for the box edges, the echo padding and the field padding |
| TextBoxes.BoxRows | BConsoleFramework/Components/TextBox.cs:47-69 | the box is three rows of four writes, each row ending with a line terminator |
| TextBoxes.WriteRow | BConsoleFramework/Components/TextBox.cs:57-59 | an edge, the fill and the other edge are written, then a line terminator |
| TextBoxes.Echo | BConsoleFramework/Components/TextBox.cs:92-98 | the redraw starts at column 1 of the text row, writes exactly the box's inner width, and ends at Cursor.X + 1 |
| TextBoxes.Echoes | BConsoleFramework/Components/TextBox.cs:79-85 | one four-event redraw per key read |
| TextBoxes.TextBox.constructor | BConsoleFramework/Components/TextBox.cs:30-38 | the box's corner is the cursor position, the text is empty, and the text row is one below the corner |
| TextBoxes.New | BConsoleFramework/Components/TextBox.cs:30-38 | construction succeeds exactly when a console is attached |
| TextBoxes.TextBox.DrawBox | BConsoleFramework/Components/TextBox.cs:40-72 | sets the box colour and leaves it set; draws the three rows from the corner and puts the cursor at Cursor.X + 1 on the text row, or throws after the corner when Width < 2 |
| TextBoxes.TextBox.DrawText | BConsoleFramework/Components/TextBox.cs:92-98 | writes the echo of the current line and leaves the cursor at Cursor.X + 1 |
| TextBoxes.TextBox.ProcessClipboard | BConsoleFramework/Components/TextBox.cs:156-168 | with no clipboard text, the key's character is inserted at the cursor if the box has room |
| TextBoxes.TextBox.ProcessKey | BConsoleFramework/Components/TextBox.cs:102-154 | the text and cursor change exactly as Edit says; when StringBuilder.Remove would throw nothing changes |
| TextBoxes.TextBox.Keystroke | BConsoleFramework/Components/TextBox.cs:81-83 | one key is processed as Press says and the text is redrawn |
| TextBoxes.TextBox.ReadKeys | BConsoleFramework/Components/TextBox.cs:79-85 | keys are read up to and including the first Enter; the line is PressAll of them and the output their echoes |
| TextBoxes.TextBox.ReadLine | BConsoleFramework/Components/TextBox.cs:74-90 | draws the box, edits until the first Enter, moves three rows below the corner and returns the text; Width < 2 throws in DrawBox |
| TextBoxes.FirstEnterAt | BConsoleFramework/Components/TextBox.cs:85 | the loop stops at the Enter with no Enter before it |

## Left out

- Console I/O itself is a ghost trace of events. Line wrapping at the window edge, buffer bounds and `SetCursorPosition` range errors are not modelled.
- `Console.ReadKey` is the `keys` sequence given to ReadLine. When it holds no Enter, ReadLine returns `NoMoreKeys`, where the program would wait for more input.
- TextBoxes.TextBox.ReadLine: when the keys run out without an Enter, the contract gives the line but not the output.
- The `BConsole.TL` debug call in ProcessKey is not modelled. It writes the key code at the top right of the window and then restores the cursor.
- The Ctrl+V branch of ProcessClipboard is not modelled, because it reads the Windows clipboard. The clipboard is taken to hold no text, so the key's character is inserted.
- `Int32.TryParse` is modelled for the invariant culture only. Culture-specific signs, digits and white space are not modelled, and neither are trailing NUL characters.
- A field's `Object` value is modelled as its `ToString()` text, with `None` for null. `ToString` overrides with side effects are not modelled.
- Render's "Unprovided field value" and "Unknown part" throws are not modelled as error paths. TemplateFacts.WellFormedResolved proves the first unreachable, and the `Part` datatype has no third kind, so the second cannot arise.
- Int32 overflow in `Width - 2` and in `Width - Str.Length - 2` is not modelled: widths are unbounded integers.
- The `(Text, Values)` constructor takes the dictionary as a sequence of pairs in enumeration order. Keys may repeat in the sequence, and then the last pair wins.
- The rest of BConsole is not part of this model: `ReWrite`, `ReWriteLine`, `ClearLines`, `WriteLines`, the positioned `Write` overloads and `UseTextBox`/`CreateText`. So are `Utils.TryReturn` and the static constructor's console probe; the probe's outcome is the `hasConsole` flag.
- Template.Padded: lengths are counted in Unicode scalar values, where .NET's `String.Length` counts UTF-16 code units. So a value outside the Basic Multilingual Plane is padded one space more than the program pads it. For the same reason ParseText's error indices count scalar values, not code units.
- Template.Padded: `info.Size - value.Length` is computed without overflow. In the program it is unchecked Int32 arithmetic, so `"{x:-2147483648}"` with the value "a" wraps to a large positive count, and `new String(' ', …)` then throws OutOfMemoryException. The model pads with no spaces there.
- BConsole.Terminal.Write: the cursor advances by the length of the text even when the text holds '\r' or '\n'. The real console moves to the start of the line or to the next row on these characters.
- Concurrency is not modelled: the console is shared process-wide state and the code takes no locks.
