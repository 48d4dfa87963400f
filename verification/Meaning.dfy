/** When the beautified configuration still means the value it was made from: as a file, and as
    the program's own reader feeds it to the parser (src/config/parser.cpp:28-71, 126-134).
    The beautifier does not tell a structural character inside a string from syntax. */
module Meaning {
  import opened Helpers
  import opened Beautifier

  /** Text with white space in strings only, and no raw line break in them. */
  predicate Plain(s: string, m: Mode) {
    s == "" || ((if m == Outside then !IsSpace(s[0]) else s[0] != '\n') && Plain(s[1..], Next(m, s[0])))
  }

  /** Every structural character in a string is written as it is. */
  predicate Harmless(eol: string, s: string, indent: int, m: Mode) {
    s == "" ||
    ((m != Outside && Structural(s[0]) ==> Emit(eol, s[0], indent) == [s[0]]) &&
     Harmless(eol, s[1..], IndentAfter(s[0], indent), Next(m, s[0])))
  }

  // ----- one character -----

  /** Inside a string white space is kept. */
  lemma {:induction false} CompactInside(pad: string, rest: string, m: Mode)
    requires AllSpace(pad) && m != Outside
    ensures Compact(pad + rest, m) == pad + Compact(rest, if pad == "" then m else Inside)
  {
    if pad == "" {
      assert pad + rest == rest;
    } else {
      assert IsSpace(pad[0]);
      assert (pad + rest)[0] == pad[0] && (pad + rest)[1..] == pad[1..] + rest;
      CompactInside(pad[1..], rest, Inside);
      assert pad == [pad[0]] + pad[1..];
      Regroup([pad[0]], pad[1..], Compact(rest, Inside));
    }
  }

  lemma EmitInside(eol: string, c: char, indent: int, rest: string, m: Mode)
    requires AllSpace(eol) && Structural(c) && m != Outside
    ensures Compact(Emit(eol, c, indent) + rest, m) == Emit(eol, c, indent) + Compact(rest, Next(m, c))
  {
    SpacesAreSpace(indent - 1);
    SpacesAreSpace(indent);
    SpacesAreSpace(indent + 1);
    if IsClose(c) {
      var pad := eol + Spaces(indent - 1);
      Regroup(pad, [c], rest);
      CompactInside(pad, [c] + rest, m);
      CompactCons(c, rest, if pad == "" then m else Inside);
      Regroup(pad, [c], Compact(rest, Inside));
    } else {
      var pad := if IsOpen(c) then eol + Spaces(indent + 1) else if c == ',' then eol + Spaces(indent) else " ";
      Regroup([c], pad, rest);
      CompactCons(c, pad + rest, m);
      CompactInside(pad, rest, Inside);
      Regroup([c], pad, Compact(rest, Inside));
    }
  }

  lemma EmitIsOne(eol: string, c: char, indent: int)
    ensures |Emit(eol, c, indent)| >= 1
    ensures |Emit(eol, c, indent)| == 1 <==> Emit(eol, c, indent) == [c]
  {
  }

  /** What one character adds to what a JSON reader sees. */
  function Seen(eol: string, c: char, indent: int, m: Mode): string {
    if m == Outside then [c] else Emit(eol, c, indent)
  }

  lemma SeenFirst(eol: string, c: char, indent: int, rest: string, m: Mode)
    requires AllSpace(eol) && (m == Outside ==> !IsSpace(c))
    ensures Compact(Emit(eol, c, indent) + rest, m) == Seen(eol, c, indent, m) + Compact(rest, Next(m, c))
  {
    if m == Outside || !Structural(c) {
      CompactEmit(eol, c, indent, rest, m);
    } else {
      EmitInside(eol, c, indent, rest, m);
    }
  }

  // ----- the exact law -----

  lemma {:induction false} HarmlessKeeps(eol: string, s: string, indent: int, m: Mode)
    requires AllSpace(eol) && Plain(s, m) && Harmless(eol, s, indent, m)
    ensures Compact(Layout(eol, s, indent), m) == s
    decreases |s|
  {
    if s != "" {
      var c := s[0];
      SeenFirst(eol, c, indent, Layout(eol, s[1..], IndentAfter(c, indent)), m);
      HarmlessKeeps(eol, s[1..], IndentAfter(c, indent), Next(m, c));
      assert s == [c] + s[1..];
    }
  }

  /** Nothing is ever lost, and if nothing is added then nothing was harmful. */
  lemma {:induction false} NothingAdded(eol: string, s: string, indent: int, m: Mode)
    requires AllSpace(eol) && Plain(s, m)
    ensures |Compact(Layout(eol, s, indent), m)| >= |s|
    ensures |Compact(Layout(eol, s, indent), m)| == |s| ==> Harmless(eol, s, indent, m)
    decreases |s|
  {
    if s != "" {
      var c := s[0];
      SeenFirst(eol, c, indent, Layout(eol, s[1..], IndentAfter(c, indent)), m);
      NothingAdded(eol, s[1..], IndentAfter(c, indent), Next(m, c));
      EmitIsOne(eol, c, indent);
    }
  }

  /** A JSON reader sees the text that was laid out exactly when the structural characters in
      its strings are harmless. */
  lemma LayoutKeepsMeaning(eol: string, s: string, indent: int, m: Mode)
    requires AllSpace(eol) && Plain(s, m)
    ensures Compact(Layout(eol, s, indent), m) == s <==> Harmless(eol, s, indent, m)
  {
    NothingAdded(eol, s, indent, m);
    if Harmless(eol, s, indent, m) {
      HarmlessKeeps(eol, s, indent, m);
    }
  }

  /** With line breaks none is harmless. */
  lemma {:induction false} HarmlessInFile(s: string, indent: int, m: Mode)
    requires Plain(s, m)
    ensures Harmless("\n", s, indent, m) <==> Tame(s, m)
    decreases |s|
  {
    if s != "" {
      HarmlessInFile(s[1..], IndentAfter(s[0], indent), Next(m, s[0]));
      assert Structural(s[0]) ==> |Emit("\n", s[0], indent)| > 1;
    }
  }

  /** Without them a bracket is harmless where no indentation comes with it, a comma outside
      all brackets, and a colon never. */
  lemma HarmlessWhenFed(c: char, indent: int)
    requires Structural(c)
    ensures Emit("", c, indent) == [c] <==>
            if IsOpen(c) then indent < 0 else if IsClose(c) then indent <= 1 else c == ',' && indent <= 0
  {
    if IsOpen(c) {
      assert |Emit("", c, indent)| == 1 + |Spaces(indent + 1)|;
    } else if IsClose(c) {
      assert |Emit("", c, indent)| == 1 + |Spaces(indent - 1)|;
    } else if c == ',' {
      assert |Emit("", c, indent)| == 1 + |Spaces(indent)|;
    } else {
      assert |Emit("", c, indent)| == 2;
    }
  }

  lemma {:induction false} PlainHasNoBreak(s: string, m: Mode)
    requires Plain(s, m)
    ensures '\n' !in s
    decreases |s|
  {
    if s != "" {
      PlainHasNoBreak(s[1..], Next(m, s[0]));
    }
  }

  // ----- serialized values -----

  /** The body of a string as a serializer writes it: no raw line break, every quote escaped,
      no escape left open, and any other characters. */
  predicate BodyWritten(body: string, m: Mode) {
    if body == "" then m == Inside
    else body[0] != '\n' && (m == Inside ==> body[0] != '"') && BodyWritten(body[1..], Next(m, body[0]))
  }

  predicate Written(v: Json) {
    match v
    case Atom(text) => AtomOk(text)
    case Str(body) => BodyWritten(body, Inside)
    case Arr(items) => ItemsWritten(items)
    case Obj(members) => MembersWritten(members)
  }

  predicate ItemsWritten(items: Items) {
    match items
    case NoItems => true
    case Item(head, tail) => Written(head) && ItemsWritten(tail)
  }

  predicate MembersWritten(members: Members) {
    match members
    case NoMembers => true
    case Member(key, value, rest) => BodyWritten(key, Inside) && Written(value) && MembersWritten(rest)
  }

  /** `s` in front of a text adds nothing to what the text needs to be plain, and `ok` to what
      it needs to be tame. */
  predicate Adds(s: string, m: Mode, ok: bool, rest: string) {
    && (Plain(s + rest, m) <==> Plain(rest, Outside))
    && (Tame(s + rest, m) <==> ok && Tame(rest, Outside))
  }

  lemma {:induction false} BodyAdds(body: string, m: Mode, rest: string)
    requires BodyWritten(body, m) && m != Outside
    ensures Adds(body + "\"", m, BodyOk(body, m), rest)
    decreases |body|
  {
    var s := body + "\"" + rest;
    if body == "" {
      assert s[0] == '"' && s[1..] == rest;
    } else {
      assert s[0] == body[0] && s[1..] == body[1..] + "\"" + rest;
      BodyAdds(body[1..], Next(m, body[0]), rest);
    }
  }

  lemma StrAdds(body: string, rest: string)
    requires BodyWritten(body, Inside)
    ensures Adds(Quoted(body), Outside, BodyOk(body, Inside), rest)
  {
    var s := Quoted(body) + rest;
    assert s[0] == '"' && s[1..] == body + "\"" + rest;
    BodyAdds(body, Inside, rest);
  }

  lemma {:induction false} AtomAdds(text: string, rest: string)
    requires AtomOk(text)
    ensures Adds(text, Outside, true, rest)
    decreases |text|
  {
    if text == "" {
      assert text + rest == rest;
    } else {
      assert text[0] in text;
      assert (text + rest)[0] == text[0] && (text + rest)[1..] == text[1..] + rest;
      AtomAdds(text[1..], rest);
    }
  }

  /** One structural character, in its place. */
  lemma SignAdds(c: char, rest: string)
    requires Structural(c)
    ensures Adds([c], Outside, true, rest)
  {
    assert ([c] + rest)[1..] == rest;
  }

  /** One piece after the other. */
  lemma AddsBoth(a: string, okA: bool, b: string, okB: bool, rest: string)
    requires Adds(a, Outside, okA, b + rest) && Adds(b, Outside, okB, rest)
    ensures Adds(a + b, Outside, okA && okB, rest)
  {
    Regroup(a, b, rest);
  }

  lemma {:induction false} ValueAdds(v: Json, rest: string)
    requires Written(v)
    ensures Adds(Serialize(v), Outside, JsonOk(v), rest)
    decreases v
  {
    match v
    case Atom(text) => AtomAdds(text, rest);
    case Str(body) => StrAdds(body, rest);
    case Arr(items) =>
      SignAdds(']', rest);
      ItemsAdd(items, "]" + rest);
      SignAdds('[', SerializeItems(items) + ("]" + rest));
      AddsBoth("[", true, SerializeItems(items), ItemsOk(items), "]" + rest);
      AddsBoth("[" + SerializeItems(items), ItemsOk(items), "]", true, rest);
    case Obj(members) =>
      SignAdds('}', rest);
      MembersAdd(members, "}" + rest);
      SignAdds('{', SerializeMembers(members) + ("}" + rest));
      AddsBoth("{", true, SerializeMembers(members), MembersOk(members), "}" + rest);
      AddsBoth("{" + SerializeMembers(members), MembersOk(members), "}", true, rest);
  }

  lemma {:induction false} ItemsAdd(items: Items, rest: string)
    requires ItemsWritten(items)
    ensures Adds(SerializeItems(items), Outside, ItemsOk(items), rest)
    decreases items
  {
    match items
    case NoItems => assert "" + rest == rest;
    case Item(head, tail) =>
      if tail == NoItems {
        ValueAdds(head, rest);
      } else {
        var more := SerializeItems(tail);
        ItemsAdd(tail, rest);
        SignAdds(',', more + rest);
        AddsBoth(",", true, more, ItemsOk(tail), rest);
        ValueAdds(head, "," + more + rest);
        AddsBoth(Serialize(head), JsonOk(head), "," + more, ItemsOk(tail), rest);
        Regroup(Serialize(head), ",", more);
      }
  }

  lemma {:induction false} MembersAdd(members: Members, rest: string)
    requires MembersWritten(members)
    ensures Adds(SerializeMembers(members), Outside, MembersOk(members), rest)
    decreases members
  {
    match members
    case NoMembers => assert "" + rest == rest;
    case Member(key, value, tail) =>
      if tail == NoMembers {
        ValueAdds(value, rest);
        PairAdds(key, Serialize(value), JsonOk(value), rest);
      } else {
        var more := SerializeMembers(tail);
        MembersAdd(tail, rest);
        SignAdds(',', more + rest);
        AddsBoth(",", true, more, MembersOk(tail), rest);
        ValueAdds(value, "," + more + rest);
        PairAdds(key, Serialize(value), JsonOk(value), "," + more + rest);
        AddsBoth(Quoted(key) + ":" + Serialize(value), BodyOk(key, Inside) && JsonOk(value),
                 "," + more, MembersOk(tail), rest);
        Regroup(Quoted(key) + ":" + Serialize(value), ",", more);
      }
  }

  lemma PairAdds(key: string, value: string, ok: bool, rest: string)
    requires BodyWritten(key, Inside) && Adds(value, Outside, ok, rest)
    ensures Adds(Quoted(key) + ":" + value, Outside, BodyOk(key, Inside) && ok, rest)
  {
    SignAdds(':', value + rest);
    StrAdds(key, ":" + (value + rest));
    AddsBoth(Quoted(key), BodyOk(key, Inside), ":", true, value + rest);
    AddsBoth(Quoted(key) + ":", BodyOk(key, Inside), value, ok, rest);
  }

  lemma SerializedIsPlain(v: Json)
    requires Written(v)
    ensures Plain(Serialize(v), Outside) && (Tame(Serialize(v), Outside) <==> JsonOk(v))
  {
    ValueAdds(v, "");
    assert Serialize(v) + "" == Serialize(v);
  }

  /** The file means the value exactly when no string in it contains any of { } [ ] , : */
  lemma FileMeansTheSame(v: Json)
    requires Written(v)
    ensures Compact(Layout("\n", Serialize(v), 0), Outside) == Serialize(v) <==> JsonOk(v)
  {
    SerializedIsPlain(v);
    HarmlessInFile(Serialize(v), 0, Outside);
    LayoutKeepsMeaning("\n", Serialize(v), 0, Outside);
  }

  /** What the program reads back means the value exactly when each of those is harmless at
      the indentation it stands at; see HarmlessWhenFed. */
  lemma ReadingBackMeansTheSame(v: Json)
    requires Written(v)
    ensures Compact(Unlined(Layout("\n", Serialize(v), 0)), Outside) == Serialize(v) <==>
            Harmless("", Serialize(v), 0, Outside)
  {
    SerializedIsPlain(v);
    PlainHasNoBreak(Serialize(v), Outside);
    UnlinedLayout(Serialize(v), 0);
    LayoutKeepsMeaning("", Serialize(v), 0, Outside);
  }

  /** Without structural characters in strings both hold. */
  lemma {:induction false} TameIsHarmless(eol: string, s: string, indent: int, m: Mode)
    requires Tame(s, m)
    ensures Harmless(eol, s, indent, m)
    decreases |s|
  {
    if s != "" {
      TameIsHarmless(eol, s[1..], IndentAfter(s[0], indent), Next(m, s[0]));
    }
  }

  lemma PlainConfigIsReadBack(v: Json)
    requires Written(v) && JsonOk(v)
    ensures Compact(Unlined(Layout("\n", Serialize(v), 0)), Outside) == Serialize(v)
  {
    SerializedIsPlain(v);
    TameIsHarmless("", Serialize(v), 0, Outside);
    ReadingBackMeansTheSame(v);
  }

  // ----- the default configuration -----

  /** The value the program serializes, the only one, has this shape and these words
      (src/config/parser.hpp:26-38). */
  function ConfigOf(w: seq<string>): Json
    requires |w| == 9
  {
    Obj(Member(w[0], Atom(w[1]), Member(w[2], Atom(w[3]), Member(w[4], UsersOf(w[5..]), NoMembers))))
  }

  function UsersOf(w: seq<string>): Json
    requires |w| == 4
  {
    Arr(Item(Obj(Member(w[0], Str(w[1]), Member(w[2], Str(w[3]), NoMembers))), NoItems))
  }

  const DEFAULT_WORDS: seq<string> :=
    ["secure", "false", "port", "6921", "users", "name", "guest", "password", "12345"]

  predicate IsWord(s: string) {
    forall i :: 0 <= i < |s| ==> '0' <= s[i] <= '9' || 'a' <= s[i] <= 'z'
  }

  predicate AreWords(w: seq<string>) {
    forall i :: 0 <= i < |w| ==> IsWord(w[i])
  }

  lemma {:induction false} WordIsBody(s: string)
    requires IsWord(s)
    ensures BodyOk(s, Inside) && BodyWritten(s, Inside) && AtomOk(s)
    decreases |s|
  {
    if s != "" {
      WordIsBody(s[1..]);
    }
  }

  lemma UsersArePlain(w: seq<string>)
    requires |w| == 4 && AreWords(w)
    ensures Written(UsersOf(w)) && JsonOk(UsersOf(w))
  {
    WordIsBody(w[0]);
    WordIsBody(w[1]);
    WordIsBody(w[2]);
    WordIsBody(w[3]);
    var last := Member(w[2], Str(w[3]), NoMembers);
    assert MembersWritten(NoMembers) && MembersOk(NoMembers);
    assert Written(last.value) && JsonOk(last.value);
    assert MembersWritten(last) && MembersOk(last);
    var all := Member(w[0], Str(w[1]), last);
    assert Written(all.value) && JsonOk(all.value);
    assert MembersWritten(all) && MembersOk(all);
  }

  lemma ConfigIsPlain(w: seq<string>)
    requires |w| == 9 && AreWords(w)
    ensures Written(ConfigOf(w)) && JsonOk(ConfigOf(w))
  {
    UsersArePlain(w[5..]);
    WordIsBody(w[0]);
    WordIsBody(w[1]);
    WordIsBody(w[2]);
    WordIsBody(w[3]);
    WordIsBody(w[4]);
    var last := Member(w[4], UsersOf(w[5..]), NoMembers);
    assert MembersWritten(last) && MembersOk(last);
    var two := Member(w[2], Atom(w[3]), last);
    assert MembersWritten(two) && MembersOk(two);
  }

  lemma DefaultsAreWords(w: seq<string>)
    requires w == DEFAULT_WORDS
    ensures |w| == 9 && AreWords(w)
  {
    forall i | 0 <= i < |w|
      ensures IsWord(w[i])
    {
      assert IsWord("secure") && IsWord("false") && IsWord("port") && IsWord("6921") && IsWord("users");
      assert IsWord("name") && IsWord("guest") && IsWord("password") && IsWord("12345");
    }
  }

  /** The default configuration has none of those characters in its strings, so the file means
      it and the program reads it back as it was. */
  lemma DefaultConfigIsReadBack(w: seq<string>)
    requires w == DEFAULT_WORDS
    ensures var text := Serialize(ConfigOf(w));
            && Compact(Layout("\n", text, 0), Outside) == text
            && Compact(Unlined(Layout("\n", text, 0)), Outside) == text
  {
    DefaultsAreWords(w);
    WordsAreReadBack(w);
  }

  lemma WordsAreReadBack(w: seq<string>)
    requires |w| == 9 && AreWords(w)
    ensures var text := Serialize(ConfigOf(w));
            && Compact(Layout("\n", text, 0), Outside) == text
            && Compact(Unlined(Layout("\n", text, 0)), Outside) == text
  {
    ConfigIsPlain(w);
    FileMeansTheSame(ConfigOf(w));
    PlainConfigIsReadBack(ConfigOf(w));
  }

  /** The loop itself would spoil other values: a comma in a string of a list is one that even
      the program's own reader does not restore. */
  lemma CommaInList()
    ensures var v := Arr(Item(Str(","), NoItems));
            Written(v) && Compact(Unlined(Layout("\n", Serialize(v), 0)), Outside) != Serialize(v)
  {
    var v, s := Arr(Item(Str(","), NoItems)), "[\",\"]";
    assert ","[1..] == "" && BodyWritten(",", Inside);
    assert Serialize(v) == s;
    ReadingBackMeansTheSame(v);
    HarmlessWhenFed(',', 1);
    assert s[1..] == "\",\"]" && s[1..][1..] == ",\"]";
    assert !Harmless("", ",\"]", 1, Inside);
    assert !Harmless("", "\",\"]", 1, Outside);
    assert !Harmless("", s, 0, Outside);
  }
}
