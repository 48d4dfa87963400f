/** The default configuration written as indented JSON and read back line by line
    (src/config/parser.cpp:21-75, 120-142). */
module Beautifier {
  import opened Helpers

  // ----- compact JSON text -----

  datatype Json =
    | Atom(text: string)  // null, true, false, a number
    | Str(body: string)   // a string, escapes already applied
    | Arr(items: Items)
    | Obj(members: Members)

  datatype Items = NoItems | Item(head: Json, tail: Items)

  datatype Members = NoMembers | Member(key: string, value: Json, rest: Members)

  function Quoted(body: string): string {
    "\"" + body + "\""
  }

  function Serialize(v: Json): string {
    match v
    case Atom(text) => text
    case Str(body) => Quoted(body)
    case Arr(items) => "[" + SerializeItems(items) + "]"
    case Obj(members) => "{" + SerializeMembers(members) + "}"
  }

  function SerializeItems(items: Items): string {
    match items
    case NoItems => ""
    case Item(head, NoItems) => Serialize(head)
    case Item(head, tail) => Serialize(head) + "," + SerializeItems(tail)
  }

  function SerializeMembers(members: Members): string {
    match members
    case NoMembers => ""
    case Member(key, value, NoMembers) => Quoted(key) + ":" + Serialize(value)
    case Member(key, value, rest) => Quoted(key) + ":" + Serialize(value) + "," + SerializeMembers(rest)
  }

  predicate IsOpen(c: char) { c == '{' || c == '[' }

  predicate IsClose(c: char) { c == '}' || c == ']' }

  predicate Structural(c: char) {
    IsOpen(c) || IsClose(c) || c == ',' || c == ':'
  }

  predicate IsSpace(c: char) {
    c == ' ' || c == '\n' || c == '\t' || c == '\r'
  }

  /** Whether a reader of JSON text is inside a string, and just after a backslash. */
  datatype Mode = Outside | Inside | Escaped

  function Next(m: Mode, c: char): Mode {
    match m
    case Outside => if c == '"' then Inside else Outside
    case Inside => if c == '"' then Outside else if c == '\\' then Escaped else Inside
    case Escaped => Inside
  }

  /** The body of a string: no raw newline, every quote escaped, no escape left open; and
      none of the structural characters, which the beautifier does not tell from syntax. */
  predicate BodyOk(body: string, m: Mode) {
    if body == "" then m == Inside
    else
      && !Structural(body[0]) && body[0] != '\n'
      && (m == Inside ==> body[0] != '"')
      && BodyOk(body[1..], Next(m, body[0]))
  }

  predicate AtomOk(text: string) {
    forall c :: c in text ==> !Structural(c) && !IsSpace(c) && c != '"'
  }

  predicate JsonOk(v: Json) {
    match v
    case Atom(text) => AtomOk(text)
    case Str(body) => BodyOk(body, Inside)
    case Arr(items) => ItemsOk(items)
    case Obj(members) => MembersOk(members)
  }

  predicate ItemsOk(items: Items) {
    match items
    case NoItems => true
    case Item(head, tail) => JsonOk(head) && ItemsOk(tail)
  }

  predicate MembersOk(members: Members) {
    match members
    case NoMembers => true
    case Member(key, value, rest) => BodyOk(key, Inside) && JsonOk(value) && MembersOk(rest)
  }

  // ----- the beautifying loop -----

  function Spaces(indent: int): string
    decreases indent
  {
    if indent <= 0 then "" else "    " + Spaces(indent - 1)
  }

  function IndentAfter(c: char, indent: int): int {
    if IsOpen(c) then indent + 1 else if IsClose(c) then indent - 1 else indent
  }

  /** What one character becomes. The line break is a parameter, so that the same definition
      describes the file without its line breaks. */
  function Emit(eol: string, c: char, indent: int): string {
    if IsOpen(c) then [c] + (eol + Spaces(indent + 1))
    else if IsClose(c) then eol + Spaces(indent - 1) + [c]
    else if c == ',' then [c] + (eol + Spaces(indent))
    else if c == ':' then [c] + " "
    else [c]
  }

  function Layout(eol: string, s: string, indent: int): string {
    if s == "" then "" else Emit(eol, s[0], indent) + Layout(eol, s[1..], IndentAfter(s[0], indent))
  }

  function IndentAt(s: string, indent: int): int {
    if s == "" then indent else IndentAt(s[1..], IndentAfter(s[0], indent))
  }

  lemma {:induction false} LayoutSnoc(eol: string, s: string, c: char, indent: int)
    ensures Layout(eol, s + [c], indent) == Layout(eol, s, indent) + Emit(eol, c, IndentAt(s, indent))
    ensures IndentAt(s + [c], indent) == IndentAfter(c, IndentAt(s, indent))
  {
    if s == "" {
      assert s + [c] == [c] && [c][1..] == "";
    } else {
      assert (s + [c])[0] == s[0] && (s + [c])[1..] == s[1..] + [c];
      LayoutSnoc(eol, s[1..], c, IndentAfter(s[0], indent));
      var later := Layout(eol, s[1..], IndentAfter(s[0], indent));
      Regroup(Emit(eol, s[0], indent), later, Emit(eol, c, IndentAt(s, indent)));
    }
  }

  lemma {:induction false} SpacesSnoc(n: int)
    requires n >= 0
    ensures Spaces(n + 1) == Spaces(n) + "    "
    decreases n
  {
    if n > 0 {
      SpacesSnoc(n - 1);
    }
  }

  method WriteSpaces(stream: string, indent: int) returns (out: string)
    ensures out == stream + Spaces(indent)
  {
    out := stream;
    var i := 0;
    while i < indent
      invariant 0 <= i && (indent >= 0 ==> i <= indent)
      invariant i > 0 ==> indent > 0
      invariant out == stream + Spaces(i)
    {
      SpacesSnoc(i);
      Regroup(stream, Spaces(i), "    ");
      out := out + "    ";
      i := i + 1;
    }
    assert Spaces(i) == Spaces(indent);
  }

  method Beautify(output: string) returns (file: string)
    ensures file == Layout("\n", output, 0)
  {
    var indent := 0;
    file := "";
    var i := 0;
    while i < |output|
      invariant 0 <= i <= |output|
      invariant file == Layout("\n", output[..i], 0)
      invariant indent == IndentAt(output[..i], 0)
    {
      var c := output[i];
      assert output[..i + 1] == output[..i] + [c];
      LayoutSnoc("\n", output[..i], c, 0);
      file, indent := WriteChar(file, c, indent);
      i := i + 1;
    }
    assert output[..i] == output;
  }

  /** The body of the loop. */
  method WriteChar(stream: string, c: char, indentBefore: int) returns (out: string, indent: int)
    ensures out == stream + Emit("\n", c, indentBefore)
    ensures indent == IndentAfter(c, indentBefore)
  {
    out, indent := stream, indentBefore;
    if c == '{' || c == '[' {
      indent := indent + 1;
      out := WriteSpaces(out + [c] + "\n", indent);
      Regroup4(stream, [c], "\n", Spaces(indent));
      return;
    }
    if c == '}' || c == ']' {
      indent := indent - 1;
      out := WriteSpaces(out + "\n", indent);
      out := out + [c];
      Regroup4(stream, "\n", Spaces(indent), [c]);
      Regroup("\n", Spaces(indent), [c]);
      return;
    }
    if c == ',' {
      out := WriteSpaces(out + [c] + "\n", indent);
      Regroup4(stream, [c], "\n", Spaces(indent));
      return;
    }
    out := out + [c];
    if c == ':' {
      out := out + " ";
      Regroup(stream, [c], " ");
    }
  }

  // ----- serialized text -----

  /** Text in which structural characters, spaces and newlines are where a serializer puts
      them, read from a given mode on. */
  predicate Tame(s: string, m: Mode) {
    if s == "" then true
    else
      && (if m == Outside then !IsSpace(s[0]) else !Structural(s[0]) && s[0] != '\n')
      && Tame(s[1..], Next(m, s[0]))
  }

  /** Brackets close what they open, and no more, down to depth 0 at the end. */
  predicate Balanced(s: string, depth: int) {
    if s == "" then depth == 0
    else IndentAfter(s[0], depth) >= 0 && Balanced(s[1..], IndentAfter(s[0], depth))
  }

  /** Serialized values are tame and balanced, whatever follows them. */
  predicate Fine(s: string, m: Mode, depth: int) {
    Tame(s, m) && Balanced(s, depth)
  }

  lemma FineCons(c: char, rest: string, m: Mode, depth: int)
    requires if m == Outside then !IsSpace(c) else !Structural(c) && c != '\n'
    requires IndentAfter(c, depth) >= 0
    requires Fine(rest, Next(m, c), IndentAfter(c, depth))
    ensures Fine([c] + rest, m, depth)
  {
    assert ([c] + rest)[1..] == rest;
  }

  lemma {:induction false} FineBody(body: string, m: Mode, rest: string, depth: int)
    requires BodyOk(body, m) && Fine(rest, Outside, depth) && m != Outside && depth >= 0
    ensures Fine(body + ("\"" + rest), m, depth)
    decreases |body|
  {
    if body == "" {
      FineCons('"', rest, Inside, depth);
      assert body + ("\"" + rest) == ['"'] + rest;
    } else {
      var c := body[0];
      FineBody(body[1..], Next(m, c), rest, depth);
      FineCons(c, body[1..] + ("\"" + rest), m, depth);
      assert body + ("\"" + rest) == [c] + (body[1..] + ("\"" + rest));
    }
  }

  lemma FineQuoted(body: string, rest: string, depth: int)
    requires BodyOk(body, Inside) && Fine(rest, Outside, depth) && depth >= 0
    ensures Fine(Quoted(body) + rest, Outside, depth)
  {
    FineBody(body, Inside, rest, depth);
    FineCons('"', body + ("\"" + rest), Outside, depth);
    assert Quoted(body) + rest == ['"'] + (body + ("\"" + rest));
  }

  lemma {:induction false} FineAtom(text: string, rest: string, depth: int)
    requires AtomOk(text) && Fine(rest, Outside, depth) && depth >= 0
    ensures Fine(text + rest, Outside, depth)
    decreases |text|
  {
    if text == "" {
      assert text + rest == rest;
    } else {
      assert text[0] in text;
      FineAtom(text[1..], rest, depth);
      FineCons(text[0], text[1..] + rest, Outside, depth);
      assert text + rest == [text[0]] + (text[1..] + rest);
    }
  }

  lemma {:induction false} FineValue(v: Json, rest: string, depth: int)
    requires JsonOk(v) && Fine(rest, Outside, depth) && depth >= 0
    ensures Fine(Serialize(v) + rest, Outside, depth)
    decreases v
  {
    match v
    case Atom(text) => FineAtom(text, rest, depth);
    case Str(body) => FineQuoted(body, rest, depth);
    case Arr(items) =>
      FineCons(']', rest, Outside, depth + 1);
      FineItems(items, [']'] + rest, depth + 1);
      FineCons('[', SerializeItems(items) + ([']'] + rest), Outside, depth);
      Around("[", SerializeItems(items), "]", rest);
    case Obj(members) =>
      FineCons('}', rest, Outside, depth + 1);
      FineMembers(members, ['}'] + rest, depth + 1);
      FineCons('{', SerializeMembers(members) + (['}'] + rest), Outside, depth);
      Around("{", SerializeMembers(members), "}", rest);
  }

  lemma Around(a: string, b: string, c: string, d: string)
    ensures a + b + c + d == a + (b + (c + d))
  {
    Regroup4(a, b, c, d);
  }

  lemma {:induction false} FineItems(items: Items, rest: string, depth: int)
    requires ItemsOk(items) && Fine(rest, Outside, depth) && depth >= 0
    ensures Fine(SerializeItems(items) + rest, Outside, depth)
    decreases items
  {
    match items
    case NoItems => assert "" + rest == rest;
    case Item(head, tail) =>
      if tail == NoItems {
        FineValue(head, rest, depth);
      } else {
        FineItems(tail, rest, depth);
        FineCons(',', SerializeItems(tail) + rest, Outside, depth);
        FineValue(head, [','] + (SerializeItems(tail) + rest), depth);
        Around(Serialize(head), ",", SerializeItems(tail), rest);
      }
  }

  lemma {:induction false} FineMembers(members: Members, rest: string, depth: int)
    requires MembersOk(members) && Fine(rest, Outside, depth) && depth >= 0
    ensures Fine(SerializeMembers(members) + rest, Outside, depth)
    decreases members
  {
    match members
    case NoMembers => assert "" + rest == rest;
    case Member(key, value, tail) =>
      if tail == NoMembers {
        FineValue(value, rest, depth);
        FinePair(key, Serialize(value), rest, depth);
        Around(Quoted(key), ":", Serialize(value), rest);
      } else {
        var more := SerializeMembers(tail);
        FineMembers(tail, rest, depth);
        FineCons(',', more + rest, Outside, depth);
        FineValue(value, [','] + (more + rest), depth);
        FinePair(key, Serialize(value), [','] + (more + rest), depth);
        Around(Quoted(key) + ":" + Serialize(value), ",", more, rest);
        Around(Quoted(key), ":", Serialize(value), [','] + (more + rest));
      }
  }

  lemma FinePair(key: string, value: string, rest: string, depth: int)
    requires BodyOk(key, Inside) && Fine(value + rest, Outside, depth) && depth >= 0
    ensures Fine(Quoted(key) + ([':'] + (value + rest)), Outside, depth)
  {
    FineCons(':', value + rest, Outside, depth);
    FineQuoted(key, [':'] + (value + rest), depth);
  }

  /** Every serialized value: structure only outside strings, depth never negative, 0 at the end. */
  lemma SerializedIsFine(v: Json)
    requires JsonOk(v)
    ensures Fine(Serialize(v), Outside, 0)
  {
    FineValue(v, "", 0);
    assert Serialize(v) + "" == Serialize(v);
  }

  // ----- meaning -----

  /** Dropping the white space a JSON reader skips. */
  function Compact(out: string, m: Mode): string {
    if out == "" then ""
    else if m == Outside && IsSpace(out[0]) then Compact(out[1..], m)
    else [out[0]] + Compact(out[1..], Next(m, out[0]))
  }

  predicate AllSpace(s: string) {
    forall i :: 0 <= i < |s| ==> IsSpace(s[i])
  }

  lemma {:induction false} CompactSpace(s: string, rest: string)
    requires AllSpace(s)
    ensures Compact(s + rest, Outside) == Compact(rest, Outside)
  {
    if s == "" {
      assert s + rest == rest;
    } else {
      assert (s + rest)[1..] == s[1..] + rest;
      CompactSpace(s[1..], rest);
    }
  }

  lemma CompactCons(c: char, rest: string, m: Mode)
    requires m == Outside ==> !IsSpace(c)
    ensures Compact([c] + rest, m) == [c] + Compact(rest, Next(m, c))
  {
    assert ([c] + rest)[1..] == rest;
  }

  lemma {:induction false} SpacesAreSpace(n: int)
    ensures AllSpace(Spaces(n))
    decreases n
  {
    if n > 0 {
      SpacesAreSpace(n - 1);
    }
  }

  lemma CompactEmit(eol: string, c: char, indent: int, rest: string, m: Mode)
    requires AllSpace(eol)
    requires if m == Outside then !IsSpace(c) else !Structural(c)
    ensures Compact(Emit(eol, c, indent) + rest, m) == [c] + Compact(rest, Next(m, c))
  {
    SpacesAreSpace(indent - 1);
    SpacesAreSpace(indent);
    SpacesAreSpace(indent + 1);
    if IsOpen(c) || c == ',' || c == ':' {
      var pad := if IsOpen(c) then eol + Spaces(indent + 1) else if c == ',' then eol + Spaces(indent) else " ";
      Regroup([c], pad, rest);
      CompactCons(c, pad + rest, m);
      CompactSpace(pad, rest);
    } else if IsClose(c) {
      var pad := eol + Spaces(indent - 1);
      Regroup(pad, [c], rest);
      CompactSpace(pad, [c] + rest);
      CompactCons(c, rest, m);
    } else {
      CompactCons(c, rest, m);
    }
  }

  // ----- indentation -----

  function LeadingSpaces(s: string): (n: nat)
    ensures n <= |s|
  {
    if s == "" || s[0] != ' ' then 0 else 1 + LeadingSpaces(s[1..])
  }

  /** Read a text from a given nesting depth on: after every line break there are four spaces
      for each bracket open at that point, not counting one that this line closes first. */
  predicate WellIndented(out: string, depth: int)
    decreases |out|
  {
    if out == "" then true
    else if out[0] == '\n' then
      var k := LeadingSpaces(out[1..]);
      var line := out[1..][k..];
      && k == 4 * (if line != "" && IsClose(line[0]) then depth - 1 else depth)
      && WellIndented(line, depth)
    else WellIndented(out[1..], IndentAfter(out[0], depth))
  }

  lemma {:induction false} LeadingOfSpaces(n: nat, rest: string)
    requires rest == "" || rest[0] != ' '
    ensures |Spaces(n)| == 4 * n
    ensures LeadingSpaces(Spaces(n) + rest) == 4 * n
    ensures (Spaces(n) + rest)[4 * n..] == rest
  {
    if n == 0 {
      assert Spaces(n) + rest == rest;
    } else {
      LeadingOfSpaces(n - 1, rest);
      var s := Spaces(n - 1) + rest;
      assert Spaces(n) + rest == [' '] + ([' '] + ([' '] + ([' '] + s)));
      LeadingCons([' '] + ([' '] + ([' '] + s)));
      LeadingCons([' '] + ([' '] + s));
      LeadingCons([' '] + s);
      LeadingCons(s);
    }
  }

  lemma LeadingCons(s: string)
    ensures LeadingSpaces([' '] + s) == 1 + LeadingSpaces(s)
  {
    assert ([' '] + s)[1..] == s;
  }

  /** A new line with the right number of spaces before it. */
  lemma IndentedLine(n: nat, rest: string, depth: int)
    requires rest == "" || rest[0] != ' '
    requires n == if rest != "" && IsClose(rest[0]) then depth - 1 else depth
    requires WellIndented(rest, depth)
    ensures WellIndented("\n" + Spaces(n) + rest, depth)
  {
    var out := "\n" + Spaces(n) + rest;
    LeadingOfSpaces(n, rest);
    assert out[0] == '\n' && out[1..] == Spaces(n) + rest;
  }

  lemma IndentedCons(c: char, rest: string, depth: int)
    requires c != '\n' && WellIndented(rest, IndentAfter(c, depth))
    ensures WellIndented([c] + rest, depth)
  {
    assert ([c] + rest)[1..] == rest;
  }

  /** What the layout of a rest begins with: never a space, and a closing bracket only after
      its line break. */
  lemma LayoutHead(s: string, depth: int)
    requires s == "" || !IsSpace(s[0])
    ensures var out := Layout("\n", s, depth);
            out == "" || (out[0] != ' ' && !IsClose(out[0]))
  {
  }

  lemma IndentedEmit(c: char, depth: int, rest: string)
    requires c != '\n' && depth >= 0 && IndentAfter(c, depth) >= 0
    requires WellIndented(rest, IndentAfter(c, depth))
    requires Structural(c) && !IsClose(c) && c != ':' ==> rest == "" || (rest[0] != ' ' && !IsClose(rest[0]))
    ensures WellIndented(Emit("\n", c, depth) + rest, depth)
  {
    if IsOpen(c) || c == ',' {
      var d := IndentAfter(c, depth);
      IndentedLine(d, rest, d);
      IndentedCons(c, "\n" + Spaces(d) + rest, depth);
      Regroup([c], "\n" + Spaces(d), rest);
      Regroup("\n", Spaces(d), rest);
    } else if IsClose(c) {
      IndentedCons(c, rest, depth);
      IndentedLine(depth - 1, [c] + rest, depth);
      Regroup("\n" + Spaces(depth - 1), [c], rest);
    } else if c == ':' {
      IndentedCons(' ', rest, depth);
      IndentedCons(c, [' '] + rest, depth);
      Regroup([c], " ", rest);
    } else {
      IndentedCons(c, rest, depth);
    }
  }

  lemma {:induction false} LayoutIsIndented(s: string, depth: int, m: Mode)
    requires Fine(s, m, depth) && depth >= 0
    ensures WellIndented(Layout("\n", s, depth), depth)
    decreases |s|
  {
    if s != "" {
      var c, d := s[0], IndentAfter(s[0], depth);
      LayoutIsIndented(s[1..], d, Next(m, c));
      if Structural(c) {
        LayoutHead(s[1..], d);
      }
      IndentedEmit(c, depth, Layout("\n", s[1..], d));
    }
  }

  /** Every line of the file is indented by its nesting depth, which is never negative and 0
      at the end. */
  lemma BeautifiedIsIndented(v: Json)
    requires JsonOk(v)
    ensures WellIndented(Layout("\n", Serialize(v), 0), 0)
    ensures Balanced(Serialize(v), 0) && IndentAt(Serialize(v), 0) == 0
  {
    SerializedIsFine(v);
    LayoutIsIndented(Serialize(v), 0, Outside);
    BalancedEndsAtZero(Serialize(v), 0);
  }

  lemma {:induction false} BalancedEndsAtZero(s: string, depth: int)
    requires Balanced(s, depth)
    ensures IndentAt(s, depth) == 0
  {
    if s != "" {
      BalancedEndsAtZero(s[1..], IndentAfter(s[0], depth));
    }
  }

  // ----- reading back -----

  /** The text without its line breaks: what the parser is fed, line after line. */
  function Unlined(s: string): string {
    if s == "" then "" else (if s[0] == '\n' then "" else [s[0]]) + Unlined(s[1..])
  }

  lemma {:induction false} UnlinedAppend(a: string, b: string)
    ensures Unlined(a + b) == Unlined(a) + Unlined(b)
  {
    if a == "" {
      assert a + b == b;
    } else {
      assert (a + b)[0] == a[0] && (a + b)[1..] == a[1..] + b;
      UnlinedAppend(a[1..], b);
      Regroup(if a[0] == '\n' then "" else [a[0]], Unlined(a[1..]), Unlined(b));
    }
  }

  lemma {:induction false} UnlinedPlain(s: string)
    requires '\n' !in s
    ensures Unlined(s) == s
  {
    if s != "" {
      UnlinedPlain(s[1..]);
    }
  }

  /** std::getline until the end of the file, each line written to the parser. */
  method ReadLines(file: string) returns (fed: string)
    ensures fed == Unlined(file)
  {
    fed := "";
    var at := 0;
    while at < |file|
      invariant 0 <= at <= |file|
      invariant fed == Unlined(file[..at])
    {
      var eol := Find(file, "\n", at);
      FindIsFirst(file, "\n", at);
      var end := if eol == NPOS then |file| else eol;
      var line := file[at..end];
      UnlinedLine(file, at, end);
      fed := fed + line;
      at := if eol == NPOS then |file| else eol + 1;
    }
    assert file[..at] == file;
  }

  /** One line, and the line break after it if there is one. */
  lemma UnlinedLine(file: string, at: nat, end: nat)
    requires at <= end <= |file|
    requires forall k: nat :: at <= k < end ==> !OccursAt(file, "\n", k)
    ensures Unlined(file[..end]) == Unlined(file[..at]) + file[at..end]
    ensures OccursAt(file, "\n", end) ==> Unlined(file[..end + 1]) == Unlined(file[..end])
  {
    LineIsPlain(file, at, end);
    UnlinedPlain(file[at..end]);
    SplitAt(file, at, end);
    UnlinedAppend(file[..at], file[at..end]);
    if OccursAt(file, "\n", end) {
      UnlinedPastBreak(file, end);
    }
  }

  lemma SplitAt(file: string, at: nat, end: nat)
    requires at <= end <= |file|
    ensures file[..at] + file[at..end] == file[..end]
  {
  }

  lemma UnlinedPastBreak(file: string, end: nat)
    requires OccursAt(file, "\n", end)
    ensures Unlined(file[..end + 1]) == Unlined(file[..end])
  {
    SplitAt(file, end, end + 1);
    UnlinedAppend(file[..end], "\n");
    UnlinedBreak("");
    assert "\n" + "" == "\n";
  }

  lemma LineIsPlain(file: string, at: nat, end: nat)
    requires at <= end <= |file|
    requires forall k: nat :: at <= k < end ==> !OccursAt(file, "\n", k)
    ensures '\n' !in file[at..end]
  {
    forall i | 0 <= i < end - at
      ensures file[at..end][i] != '\n'
    {
      if file[at + i] == '\n' {
        assert file[at + i..at + i + 1] == "\n";
        assert OccursAt(file, "\n", at + i);
      }
    }
  }

  lemma UnlinedEmit(c: char, indent: int)
    requires c != '\n'
    ensures Unlined(Emit("\n", c, indent)) == Emit("", c, indent)
  {
    SpacesHaveNoBreak(indent - 1);
    SpacesHaveNoBreak(indent);
    SpacesHaveNoBreak(indent + 1);
    UnlinedPlain([c]);
    UnlinedPlain(" ");
    if IsOpen(c) || c == ',' {
      var pad := if IsOpen(c) then Spaces(indent + 1) else Spaces(indent);
      UnlinedBreak(pad);
      UnlinedAppend([c], "\n" + pad);
      assert "" + pad == pad;
    } else if IsClose(c) {
      UnlinedBreak(Spaces(indent - 1));
      UnlinedAppend("\n" + Spaces(indent - 1), [c]);
      assert "" + Spaces(indent - 1) == Spaces(indent - 1);
    } else if c == ':' {
      UnlinedAppend([c], " ");
    }
  }

  lemma SpacesHaveNoBreak(n: int)
    ensures '\n' !in Spaces(n)
    decreases n
  {
    if n > 0 {
      SpacesHaveNoBreak(n - 1);
    }
  }

  lemma UnlinedBreak(pad: string)
    requires '\n' !in pad
    ensures Unlined("\n" + pad) == pad
  {
    assert ("\n" + pad)[1..] == pad;
    UnlinedPlain(pad);
  }

  lemma {:induction false} UnlinedLayout(s: string, indent: int)
    requires '\n' !in s
    ensures Unlined(Layout("\n", s, indent)) == Layout("", s, indent)
    decreases |s|
  {
    if s != "" {
      var c := s[0];
      UnlinedLayout(s[1..], IndentAfter(c, indent));
      UnlinedEmit(c, indent);
      UnlinedAppend(Emit("\n", c, indent), Layout("\n", s[1..], IndentAfter(c, indent)));
    }
  }
}
