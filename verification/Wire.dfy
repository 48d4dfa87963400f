/** What goes over the control connection: the command line a client sends
    (src/ftp/base_session.cpp:65-86, 785-800) and the reply to PASV
    (src/ftp/insecure_session.cpp:57-72). */
module Wire {
  import opened Helpers

  const CRLF := "\r\n"

  datatype Line = Line(command: string, argument: string)

  /** handle_control_receive_callback for a message without error: anything of at most two
      bytes is taken for an incomplete message. The last two bytes are cut unseen. */
  function ParseMessage(message: string): Line {
    if |message| <= 2 then Line("", "")
    else
      var splitted := Split(message[..|message| - 2], " ");
      if splitted == [] then Line("", "")
      else Line(Upper(splitted[0]), Join(splitted[1..], " "))
  }

  method ParseBuffer(buffer: string, received: nat) returns (line: Line)
    requires 2 < received <= |buffer|
    ensures line == ParseMessage(buffer[..received])
  {
    assert buffer[..received][..received - 2] == buffer[..received - 2];
    var splitted := StringSplit(buffer[..received - 2], " ");
    SplitIsNotEmpty(buffer[..received - 2], " ");
    var command := splitted[0];
    var argument := "";
    splitted := splitted[1..];
    if |splitted| > 0 {
      argument := StringJoin(splitted, " ");
    }
    var upper := StringToUppercase(command);
    line := Line(upper, argument);
  }

  /** The first piece always exists, since only messages longer than two bytes are split. */
  lemma SplitIsNotEmpty(s: string, d: string)
    requires s != ""
    ensures |Split(s, d)| > 0
  {
    if d != "" && |d| <= |s| {
      PiecesNotEmpty(s, d, 0);
    }
  }

  /** Parsing undoes formatting: the command in upper case, and the argument untouched, with
      its leading, trailing and repeated spaces. */
  lemma ParseOfFormatted(command: string, argument: string)
    requires ' ' !in command
    ensures ParseMessage(command + " " + argument + CRLF) == Line(Upper(command), argument)
  {
    var text := command + [' '] + argument;
    var message := command + " " + argument + CRLF;
    assert message[..|message| - 2] == text;
    PiecesOfCons(command, argument, ' ');
    JoinPieces(argument, " ", 0);
    var pieces := Split(text, " ");
    assert pieces[0] == command && pieces[1..] == Pieces(argument, " ", 0);
    assert argument[0..] == argument;
  }

  /** Without a space there is no argument. */
  lemma ParseOfBareCommand(command: string)
    requires command != "" && ' ' !in command
    ensures ParseMessage(command + CRLF) == Line(Upper(command), "")
  {
    var message := command + CRLF;
    assert message[..|message| - 2] == command;
    SplitSingle(command, ' ');
    assert [command][1..] == [];
  }

  // ----- PASV -----

  predicate IsOctet(n: int) {
    0 <= n < 256
  }

  /** The dotted form of an IPv4 address. */
  function Dotted(a: seq<nat>): string {
    Join(Decimals(a), ".")
  }

  function Decimals(a: seq<nat>): seq<string> {
    seq(|a|, i requires 0 <= i < |a| => Decimal(a[i]))
  }

  function PasvText(address: string, port: nat): string {
    "Entering Passive Mode (" + Join(Split(address, "."), ",") + "," +
    Decimal(port / 256) + "," + Decimal(port % 256) + ")"
  }

  method RunPasv(address: string, port: nat) returns (response: string)
    ensures response == PasvText(address, port)
  {
    response := "Entering Passive Mode (";
    var commas := StringReplace(address, ".", ",");
    response := response + commas;
    response := response + "," + Decimal(port / 256) + "," + Decimal(port % 256) + ")";
  }

  datatype Endpoint = Endpoint(address: seq<nat>, port: nat)

  /** A client reading section 4.1.2 of RFC 959: the six numbers h1,h2,h3,h4,p1,p2 between the
      parentheses. */
  function ReadPasv(text: string): seq<nat>
  {
    var open := Find(text, "(", 0);
    var close := Find(text, ")", 0);
    if open == NPOS || close <= open then []
    else
      var fields := Split(text[open + 1..close], ",");
      if forall k :: 0 <= k < |fields| ==> IsDecimal(fields[k]) then
        seq(|fields|, k requires 0 <= k < |fields| && IsDecimal(fields[k]) => ParseDecimal(fields[k]))
      else []
  }

  lemma {:induction false} DecimalIsDigits(n: nat)
    ensures forall c :: c in Decimal(n) ==> '0' <= c <= '9'
  {
    DecimalRoundTrip(n);
  }

  lemma DecimalsAreFree(a: seq<nat>, c: char)
    requires c < '0' || c > '9'
    ensures forall k :: 0 <= k < |a| ==> c !in Decimals(a)[k]
  {
    forall k | 0 <= k < |a|
      ensures c !in Decimals(a)[k]
    {
      DecimalIsDigits(a[k]);
    }
  }

  /** Replacing the dots of an address by commas. */
  lemma DotsToCommas(a: seq<nat>)
    requires |a| > 1
    ensures Join(Split(Dotted(a), "."), ",") == Join(Decimals(a), ",")
  {
    DecimalsAreFree(a, '.');
    SplitJoin(Decimals(a), '.');
  }

  lemma {:induction false} JoinIsFree(v: seq<string>, sep: string, c: char)
    requires c !in sep && forall k :: 0 <= k < |v| ==> c !in v[k]
    ensures c !in Join(v, sep)
  {
    if |v| > 1 {
      JoinIsFree(v[1..], sep, c);
    }
  }

  lemma SixFields(a: seq<nat>, p: nat, q: nat)
    requires |a| == 4
    ensures Join(Decimals(a), ",") + "," + Decimal(p) + "," + Decimal(q) == Join(Decimals(a + [p, q]), ",")
  {
    var d := Decimals(a);
    assert Decimals(a + [p, q]) == d + [Decimal(p)] + [Decimal(q)];
    JoinSnoc(d, Decimal(p), ",");
    JoinSnoc(d + [Decimal(p)], Decimal(q), ",");
  }

  /** The numbers the reply carries, in order. */
  function SixNumbers(a: seq<nat>, port: nat): seq<nat> {
    a + [port / 256, port % 256]
  }

  const PASV_HEAD := "Entering Passive Mode "

  lemma PasvTextIs(a: seq<nat>, port: nat)
    requires |a| == 4
    ensures PasvText(Dotted(a), port) == PASV_HEAD + (['('] + Join(Decimals(SixNumbers(a, port)), ",") + [')'])
  {
    var p, q := port / 256, port % 256;
    DotsToCommas(a);
    SixFields(a, p, q);
    Assemble("Entering Passive Mode (", Join(Decimals(a), ","), Decimal(p), Decimal(q));
  }

  lemma Assemble(open: string, x: string, y: string, z: string)
    requires open == PASV_HEAD + ['(']
    ensures open + x + "," + y + "," + z + ")" == PASV_HEAD + (['('] + (x + "," + y + "," + z) + [')'])
  {
    Regroup(open, x, ",");
    Regroup(open, x + ",", y);
    Regroup(open, x + "," + y, ",");
    Regroup(open, x + "," + y + ",", z);
    var inner := x + "," + y + "," + z;
    Regroup(open, inner, ")");
    Regroup(PASV_HEAD, ['('], inner + ")");
    Regroup(['('], inner, ")");
  }

  lemma PasvReads(a: seq<nat>, port: nat)
    requires |a| == 4
    ensures ReadPasv(PasvText(Dotted(a), port)) == SixNumbers(a, port)
  {
    var six := SixNumbers(a, port);
    PasvTextIs(a, port);
    PasvShape(PASV_HEAD, Join(Decimals(six), ","), six);
    ReadFields(six);
  }

  /** The six numbers are octets and give back the address and the port. */
  lemma PasvDecodes(a: seq<nat>, port: nat)
    requires |a| == 4 && (forall k :: 0 <= k < 4 ==> IsOctet(a[k])) && port < 65536
    ensures var r := ReadPasv(PasvText(Dotted(a), port));
            && |r| == 6
            && (forall k :: 0 <= k < 6 ==> IsOctet(r[k]))
            && r[..4] == a
            && 256 * r[4] + r[5] == port
  {
    PasvReads(a, port);
  }

  /** Where the parentheses are. */
  lemma PasvShape(head: string, inner: string, six: seq<nat>)
    requires inner == Join(Decimals(six), ",")
    requires '(' !in head && ')' !in head
    ensures var text := head + (['('] + inner + [')']);
            && Find(text, "(", 0) == |head|
            && Find(text, ")", 0) == |head| + 1 + |inner|
            && text[|head| + 1..|head| + 1 + |inner|] == inner
  {
    DecimalsAreFree(six, ')');
    JoinIsFree(Decimals(six), ",", ')');
    FirstPiece(head, ['('] + inner + [')'], '(');
    FirstPiece(head + ['('] + inner, [')'], ')');
    assert head + (['('] + inner + [')']) == (head + ['('] + inner) + [')'];
  }

  lemma ReadFields(six: seq<nat>)
    requires |six| == 6
    ensures var fields := Split(Join(Decimals(six), ","), ",");
            && fields == Decimals(six)
            && forall k :: 0 <= k < 6 ==> IsDecimal(fields[k]) && ParseDecimal(fields[k]) == six[k]
  {
    DecimalsAreFree(six, ',');
    SplitJoin(Decimals(six), ',');
    forall k | 0 <= k < 6
      ensures IsDecimal(Decimals(six)[k]) && ParseDecimal(Decimals(six)[k]) == six[k]
    {
      DecimalRoundTrip(six[k]);
    }
  }
}
