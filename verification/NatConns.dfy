/** The connection dump of nat.py: one line per connection, the protocol followed by its keys. */
module NatConns {
  import opened Wrappers
  import opened NatParser
  import opened NatPrinter
  import opened NatReading

  // The lines of a dump, each with its newline; a last line may lack one.
  ghost function Lines(dump: string): seq<string> {
    if dump == [] then []
    else
      var e := First(dump, {'\n'}, 0);
      if e == |dump| then [dump] else [dump[..e + 1]] + Lines(dump[e + 1..])
  }

  method ReadLines(dump: string) returns (lines: seq<string>)
    ensures lines == Lines(dump)
  {
    lines := [];
    var start := 0;
    while start < |dump|
      invariant start <= |dump| && lines + Lines(dump[start..]) == Lines(dump)
    {
      var e := FindChar(dump, '\n', start);
      var next := if e == |dump| then e else e + 1;
      LinesFrom(dump, start);
      lines := lines + [dump[start..next]];
      start := next;
    }
  }

  method FindChar(s: string, c: char, from: nat) returns (r: nat)
    requires from <= |s|
    ensures r == First(s, {c}, from)
  {
    r := from;
    while r < |s| && s[r] != c
      invariant from <= r <= |s| && forall i :: from <= i < r ==> s[i] != c
    {
      r := r + 1;
    }
    FirstUnique(s, {c}, from, r);
  }

  lemma LinesFrom(dump: string, start: nat)
    requires start < |dump|
    ensures var e := First(dump, {'\n'}, start);
      var next := if e == |dump| then e else e + 1;
      start < next <= |dump| && Lines(dump[start..]) == [dump[start..next]] + Lines(dump[next..])
  {
    FirstShifts(dump, {'\n'}, start, 0);
    var e := First(dump, {'\n'}, start);
    if e < |dump| {
      assert dump[start..][..e - start + 1] == dump[start..e + 1];
      assert dump[start..][e - start + 1..] == dump[e + 1..];
    } else {
      assert dump[start..] == dump[start..e] && dump[e..] == [];
    }
  }

  function DropLast(line: string): string {
    if line == [] then [] else line[..|line| - 1]
  }

  // One line: what precedes the first comma is the protocol; without a comma the protocol is all
  // but the last character and the keys are read from the start.
  ghost function ParseLine(line: string): Option<seq<Item>> {
    var c := First(line, {','}, 0);
    var proto := if c < |line| then line[..c] else DropLast(line);
    match ParseKv(if c < |line| then line[c + 1..] else line)
    case None => None
    case Some((kvs, _)) => Some(WithKey(kvs, "proto", Atom(proto)))
  }

  // A line without a comma: its protocol lacks the last character, and its keys are those of the line.
  lemma NoComma(line: string)
    requires ',' !in line && line != []
    ensures ParseLine(line) ==
              match ParseKv(line)
              case None => None
              case Some((kvs, _)) => Some(WithKey(kvs, "proto", Atom(line[..|line| - 1])))
  {
    FirstUnique(line, {','}, 0, |line|);
  }

  ghost function ParseLines(lines: seq<string>): Option<seq<seq<Item>>> {
    if lines == [] then Some([])
    else match ParseLine(lines[0])
         case None => None
         case Some(conn) => Prepended([conn], ParseLines(lines[1..]))
  }

  ghost function Prepended(conns: seq<seq<Item>>, rest: Option<seq<seq<Item>>>): Option<seq<seq<Item>>> {
    match rest
    case None => None
    case Some(more) => Some(conns + more)
  }

  ghost function Conns(dump: string): Option<seq<seq<Item>>> {
    ParseLines(Lines(dump))
  }

  method ParseOneLine(line: string) returns (r: Option<seq<Item>>)
    ensures r == ParseLine(line)
  {
    var c := FindChar(line, ',', 0);
    var proto := if c < |line| then line[..c] else DropLast(line);
    var conn := ParseKvMethod(if c < |line| then line[c + 1..] else line);
    if conn == None { return None; }
    var kvs := Assign(conn.value.0, "proto", Atom(proto));
    return Some(kvs);
  }

  method ParseConns(dump: string) returns (r: Option<seq<seq<Item>>>)
    ensures r == Conns(dump)
  {
    var lines := ReadLines(dump);
    var conns := [];
    var i := 0;
    assert lines[0..] == lines;
    PrependedNone(ParseLines(lines));
    while i < |lines|
      invariant i <= |lines| && Prepended(conns, ParseLines(lines[i..])) == ParseLines(lines)
    {
      assert lines[i..][0] == lines[i] && lines[i..][1..] == lines[i + 1..];
      var conn := ParseOneLine(lines[i]);
      if conn == None { return None; }
      PrependedTwice(conns, [conn.value], ParseLines(lines[i + 1..]));
      conns := conns + [conn.value];
      i := i + 1;
    }
    assert lines[i..] == [] && conns + [] == conns;
    return Some(conns);
  }

  lemma PrependedNone(rest: Option<seq<seq<Item>>>)
    ensures Prepended([], rest) == rest
  {
    if rest.Some? { assert [] + rest.value == rest.value; }
  }

  lemma PrependedTwice(xs: seq<seq<Item>>, ys: seq<seq<Item>>, rest: Option<seq<seq<Item>>>)
    ensures Prepended(xs, Prepended(ys, rest)) == Prepended(xs + ys, rest)
  {
    if rest.Some? { assert xs + (ys + rest.value) == xs + ys + rest.value; }
  }

  // ---- the whole dump reads back ----

  datatype Conn = Conn(proto: string, kvs: seq<Item>)

  ghost predicate OneLine(kvs: seq<Item>)
    decreases kvs, 0
  {
    forall i :: 0 <= i < |kvs| ==> '\n' !in kvs[i].key && OneLineValue(kvs[i].value)
  }

  ghost predicate OneLineValue(v: Value)
    decreases v, 0
  {
    match v
    case Atom(t) => '\n' !in t
    case Group(kvs) => OneLine(kvs)
  }

  ghost predicate ConnOk(c: Conn) {
    && ',' !in c.proto && '\n' !in c.proto
    && ReadsBack(c.kvs) && OneLine(c.kvs)
    && forall i :: 0 <= i < |c.kvs| ==> c.kvs[i].key != "proto"
  }

  function PrintConn(c: Conn): string {
    c.proto + "," + Print(c.kvs) + "\n"
  }

  function PrintDump(cs: seq<Conn>): string {
    if cs == [] then "" else PrintConn(cs[0]) + PrintDump(cs[1..])
  }

  // What the source keeps of a connection: its keys, then its protocol.
  function KeptConns(cs: seq<Conn>): seq<seq<Item>> {
    if cs == [] then [] else [cs[0].kvs + [Item("proto", Atom(cs[0].proto))]] + KeptConns(cs[1..])
  }

  lemma {:induction false} PrintsOneLine(kvs: seq<Item>)
    requires OneLine(kvs)
    ensures '\n' !in Print(kvs)
    decreases kvs, 0
  {
    if kvs == [] {
    } else {
      var it := kvs[0];
      if it.value.Group? { PrintsOneLine(it.value.kvs); }
      assert '\n' !in PrintItem(it);
      if |kvs| > 1 {
        assert forall i :: 0 <= i < |kvs| - 1 ==> kvs[1..][i] == kvs[i + 1];
        PrintsOneLine(kvs[1..]);
      }
    }
  }

  lemma ConnParses(c: Conn)
    requires ConnOk(c)
    ensures ParseLine(PrintConn(c)) == Some(c.kvs + [Item("proto", Atom(c.proto))])
  {
    var line := PrintConn(c);
    var k := |c.proto|;
    assert line == c.proto + ("," + (Print(c.kvs) + "\n"));
    assert line[..k] == c.proto && line[k] == ',' && line[k + 1..] == Print(c.kvs) + "\n";
    assert forall i :: 0 <= i < k ==> line[i] == c.proto[i];
    FirstUnique(line, {','}, 0, k);
    RoundTrip(c.kvs);
    PutNew(c.kvs, "proto", Atom(c.proto));
  }

  lemma FirstLine(body: string, rest: string)
    requires '\n' !in body
    ensures Lines(body + "\n" + rest) == [body + "\n"] + Lines(rest)
  {
    var dump := body + "\n" + rest;
    assert forall i :: 0 <= i < |body| ==> dump[i] == body[i];
    FirstUnique(dump, {'\n'}, 0, |body|);
    assert dump[..|body| + 1] == body + "\n" && dump[|body| + 1..] == rest;
  }

  // A printed dump reads back connection by connection.
  lemma {:induction false} DumpRoundTrip(cs: seq<Conn>)
    requires forall i :: 0 <= i < |cs| ==> ConnOk(cs[i])
    ensures Conns(PrintDump(cs)) == Some(KeptConns(cs))
  {
    if cs == [] {
    } else {
      var c := cs[0];
      var rest := PrintDump(cs[1..]);
      var body := c.proto + "," + Print(c.kvs);
      PrintsOneLine(c.kvs);
      assert PrintConn(c) == body + "\n";
      FirstLine(body, rest);
      ConnParses(c);
      DumpRoundTrip(cs[1..]);
      assert Lines(PrintDump(cs))[1..] == Lines(rest);
    }
  }
}
