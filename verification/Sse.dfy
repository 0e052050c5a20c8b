/** The event-stream writer and the reader that other nodes run on its bytes.
    Line framing as in section 9.2.5 of the WHATWG HTML Living Standard, of which
    the reader understands single-line data fields. */
module Sse {
  import opened Common
  import opened Lines

  /** One call of the writer: an event, named unless the name is empty, or a
      keepalive. Payloads are encoded already. */
  datatype Call = Send(name: string, payload: string) | Comment

  const DATA := "data: "
  const EVENT := "event: "
  const KEEPALIVE := ": keepalive\n\n"

  function Bytes(c: Call): string {
    match c
    case Send(name, payload) => EventField(name) + DataField(payload)
    case Comment => KEEPALIVE
  }

  function EventField(name: string): string {
    if name != "" then EVENT + name + "\n" else ""
  }

  function DataField(payload: string): string {
    DATA + payload + "\n\n"
  }

  function Stream(calls: seq<Call>): string {
    if calls == [] then "" else Bytes(calls[0]) + Stream(calls[1..])
  }

  function Payloads(calls: seq<Call>): seq<string> {
    if calls == [] then []
    else (if calls[0].Send? then [calls[0].payload] else []) + Payloads(calls[1..])
  }

  lemma {:induction false} StreamAppend(calls: seq<Call>, c: Call)
    ensures Stream(calls + [c]) == Stream(calls) + Bytes(c)
  {
    if calls == [] {
      assert [c][1..] == [] && [] + [c] == [c];
    } else {
      assert (calls + [c])[0] == calls[0] && (calls + [c])[1..] == calls[1..] + [c];
      StreamAppend(calls[1..], c);
      Assoc(Bytes(calls[0]), Stream(calls[1..]), Bytes(c));
    }
  }

  lemma StreamGrows(sent: string, c: Call)
    ensures forall calls :: sent == Stream(calls) ==> sent + Bytes(c) == Stream(calls + [c])
  {
    forall calls | sent == Stream(calls)
      ensures sent + Bytes(c) == Stream(calls + [c])
    {
      StreamAppend(calls, c);
    }
  }

  /** The bytes on the wire: an event line that carries the name, if there is one,
      then the data line and a blank line; a keepalive is a comment. */
  lemma Wire(name: string, payload: string)
    ensures Bytes(Send("", payload)) == "data: " + payload + "\n\n"
    ensures name != "" ==> Bytes(Send(name, payload)) == "event: " + name + "\n" + ("data: " + payload + "\n\n")
    ensures Bytes(Comment) == ": keepalive\n\n"
  {
    assert "" + DataField(payload) == DataField(payload);
  }

  /** A line of any origin is read as its payload if it starts as a data line, its
      line ends taken off, and is skipped otherwise. */
  lemma LineReadsAs(line: string) returns (x: string, ends: string)
    requires IsLine(line)
    ensures forall i :: 0 <= i < |ends| ==> ends[i] == '\r' || ends[i] == '\n'
    ensures x == "" || (x[|x| - 1] != '\r' && x[|x| - 1] != '\n')
    ensures "data: " <= line ==> line == "data: " + x + ends && DataOf([line]) == [x]
    ensures !("data: " <= line) ==> DataOf([line]) == []
  {
    var trimmed := TrimRight(line);
    ends := TrimEnds(line);
    x := "";
    if "data: " <= line {
      KeepsStart(line);
      x := trimmed[6..];
      TrimHolds(line);
      assert line == "data: " + x + ends;
    } else {
      TrimHolds(line);
    }
  }

  lemma {:induction false} TrimEnds(line: string) returns (ends: string)
    ensures line == TrimRight(line) + ends
    ensures forall i :: 0 <= i < |ends| ==> ends[i] == '\r' || ends[i] == '\n'
  {
    ends := "";
    if line != "" && IsEol(line[|line| - 1]) {
      ends := TrimEnds(line[..|line| - 1]);
      assert line == line[..|line| - 1] + [line[|line| - 1]];
      ends := ends + [line[|line| - 1]];
    }
  }

  lemma {:induction false} KeepsStart(line: string)
    requires "data: " <= line
    ensures "data: " <= TrimRight(line)
  {
    if IsEol(line[|line| - 1]) {
      assert |line| > 6;
      KeepsStart(line[..|line| - 1]);
    }
  }

  class SseWriter {
    var sent: string

    constructor ()
      ensures sent == ""
    {
      sent := "";
    }

    method Send(event: string, payload: string)
      modifies this
      ensures sent == old(sent) + Bytes(Call.Send(event, payload))
      ensures forall calls :: old(sent) == Stream(calls) ==> sent == Stream(calls + [Call.Send(event, payload)])
    {
      StreamGrows(sent, Call.Send(event, payload));
      if event != "" {
        sent := sent + (EVENT + event + "\n");
      }
      sent := sent + (DATA + payload + "\n\n");
      assert old(sent) + "" == old(sent);
      Assoc(old(sent), EventField(event), DataField(payload));
    }

    method Comment()
      modifies this
      ensures sent == old(sent) + Bytes(Call.Comment)
      ensures forall calls :: old(sent) == Stream(calls) ==> sent == Stream(calls + [Call.Comment])
    {
      StreamGrows(sent, Call.Comment);
      sent := sent + KEEPALIVE;
    }
  }

  predicate IsEol(c: char) {
    c == '\r' || c == '\n'
  }

  /** A line without the line ends at its right. */
  function TrimRight(line: string): string {
    if line != "" && IsEol(line[|line| - 1]) then TrimRight(line[..|line| - 1]) else line
  }

  predicate HasData(line: string) {
    DATA <= TrimRight(line)
  }

  /** The data fields of the complete lines of a stream, in order. */
  function DataOf(lines: seq<string>): seq<string> {
    if lines == [] then []
    else (if HasData(lines[0]) then [TrimRight(lines[0])[|DATA|..]] else []) + DataOf(lines[1..])
  }

  class SseReader {
    var rest: string

    constructor (bytes: string)
      ensures rest == bytes
    {
      rest := bytes;
    }

    /** The next data field, or end of input; an unfinished last line is not one. */
    method Next() returns (r: Option<string>)
      modifies this
      ensures r == if DataOf(Split(old(rest))) == [] then None else Some(DataOf(Split(old(rest)))[0])
      ensures r.Some? ==> DataOf(Split(rest)) == DataOf(Split(old(rest)))[1..]
      ensures r.None? ==> rest == ""
    {
      while true
        invariant DataOf(Split(rest)) == DataOf(Split(old(rest)))
        decreases |rest|
      {
        var n := FirstLine(rest);
        if n == 0 {
          rest := "";
          return None;
        }
        var line := rest[..n];
        assert Split(rest)[1..] == Split(rest[n..]);
        rest := rest[n..];
        line := TrimRight(line);
        if DATA <= line {
          return Some(line[|DATA|..]);
        }
      }
    }

    /** Reads to the end of input. */
    method ReadAll() returns (payloads: seq<string>)
      modifies this
      ensures payloads == DataOf(Split(old(rest)))
    {
      ghost var all := DataOf(Split(rest));
      payloads := [];
      var more := true;
      while more
        invariant payloads + (if more then DataOf(Split(rest)) else []) == all
        decreases more, |DataOf(Split(rest))|
      {
        ghost var left := DataOf(Split(rest));
        var r := Next();
        if r.None? {
          more := false;
        } else {
          assert left == [r.value] + left[1..];
          Assoc(payloads, [r.value], left[1..]);
          payloads := payloads + [r.value];
        }
      }
    }
  }

  // ---- Round trip ----

  /** What a payload must be to survive: one line, not ending in a return. */
  predicate Plain(payload: string) {
    NoNewline(payload) && (payload == "" || payload[|payload| - 1] != '\r')
  }

  predicate Framed(c: Call) {
    c.Send? ==> Plain(c.payload) && NoNewline(c.name)
  }

  lemma {:induction false} DataConcat(a: seq<string>, b: seq<string>)
    ensures DataOf(a + b) == DataOf(a) + DataOf(b)
  {
    if a == [] {
      assert a + b == b;
    } else {
      var head := if HasData(a[0]) then [TrimRight(a[0])[|DATA|..]] else [];
      assert (a + b)[0] == a[0] && (a + b)[1..] == a[1..] + b;
      DataConcat(a[1..], b);
      Assoc(head, DataOf(a[1..]), DataOf(b));
    }
  }

  lemma TrimLine(s: string)
    requires s != "" && !IsEol(s[|s| - 1])
    ensures TrimRight(s + "\n") == s
  {
    assert (s + "\n")[..|s|] == s;
  }

  lemma FirstCharKept(line: string)
    requires line != "" && !IsEol(line[0])
    ensures TrimRight(line) != "" && TrimRight(line)[0] == line[0]
  {
  }

  /** The first line of a named frame carries the name. */
  lemma NameOnWire(name: string, payload: string)
    requires name != "" && NoNewline(name) && NoNewline(payload)
    ensures Split(Bytes(Send(name, payload))) == ["event: " + name + "\n", "data: " + payload + "\n", "\n"]
  {
    var event, data := "event: " + name + "\n", "data: " + payload + "\n";
    var lines := [event, data, "\n"];
    Wire(name, payload);
    Framing("data: " + payload, "");
    assert "data: " + payload + "\n\n" + "" == "data: " + payload + "\n\n" && "\n" + "" == "\n";
    assert lines == [event] + [data, "\n"] && [data, "\n"] == [data] + ["\n"] && ["\n"] == ["\n"] + [];
    JoinCons(event, [data, "\n"]);
    JoinCons(data, ["\n"]);
    JoinCons("\n", []);
    SplitJoin(lines);
  }

  /** A line that starts with another letter is no data field. */
  lemma OtherLine(line: string, after: string)
    requires IsLine(line) && (line == "\n" || (line[0] != 'd' && !IsEol(line[0])))
    ensures DataOf(Split(line + after)) == DataOf(Split(after))
  {
    SplitCons(line, after);
    if line == "\n" {
      assert TrimRight(line) == "";
    } else {
      FirstCharKept(line);
    }
    assert !HasData(line);
    assert ([line] + Split(after))[1..] == Split(after);
  }

  lemma DataLine(payload: string, after: string)
    requires Plain(payload)
    ensures DataOf(Split(DATA + payload + "\n" + after)) == [payload] + DataOf(Split(after))
  {
    var line := DATA + payload + "\n";
    assert (DATA + payload)[|DATA + payload| - 1] == if payload == "" then ' ' else payload[|payload| - 1];
    TrimLine(DATA + payload);
    SplitCons(line, after);
    assert ([line] + Split(after))[1..] == Split(after);
  }

  /** A frame is its line and the blank line after it. */
  lemma Framing(line: string, after: string)
    ensures line + "\n\n" + after == line + "\n" + ("\n" + after)
  {
    assert "\n\n" == "\n" + "\n";
    Assoc(line, "\n", "\n");
    Assoc(line + "\n", "\n", after);
  }

  lemma DataRoundTrip(payload: string, after: string)
    requires Plain(payload)
    ensures DataOf(Split(DataField(payload) + after)) == [payload] + DataOf(Split(after))
  {
    DataLine(payload, "\n" + after);
    OtherLine("\n", after);
    Framing(DATA + payload, after);
  }

  lemma EventIgnored(name: string, after: string)
    requires NoNewline(name)
    ensures DataOf(Split(EventField(name) + after)) == DataOf(Split(after))
  {
    if name != "" {
      OtherLine(EVENT + name + "\n", after);
    } else {
      assert EventField(name) + after == after;
    }
  }

  lemma CommentIgnored(after: string)
    ensures DataOf(Split(KEEPALIVE + after)) == DataOf(Split(after))
  {
    var keepalive := ": keepalive";
    OtherLine(keepalive + "\n", "\n" + after);
    OtherLine("\n", after);
    Framing(keepalive, after);
    assert KEEPALIVE == keepalive + "\n\n";
  }

  lemma CallRoundTrip(c: Call, after: string)
    requires Framed(c)
    ensures DataOf(Split(Bytes(c) + after)) == (if c.Send? then [c.payload] else []) + DataOf(Split(after))
  {
    match c
    case Comment => CommentIgnored(after);
    case Send(name, payload) =>
      EventIgnored(name, DataField(payload) + after);
      DataRoundTrip(payload, after);
      Assoc(EventField(name), DataField(payload), after);
  }

  /** Reading a written stream gives back exactly the payloads sent, in order. */
  lemma {:induction false} RoundTrip(calls: seq<Call>)
    requires forall i :: 0 <= i < |calls| ==> Framed(calls[i])
    ensures DataOf(Split(Stream(calls))) == Payloads(calls)
  {
    if calls != [] {
      CallRoundTrip(calls[0], Stream(calls[1..]));
      RoundTrip(calls[1..]);
    }
  }

  lemma {:induction false} DataPrefix(a: seq<string>, b: seq<string>)
    requires a <= b
    ensures DataOf(a) <= DataOf(b)
  {
    DataConcat(a, b[|a|..]);
    assert b == a + b[|a|..];
  }

  /** A stream that is cut off anywhere gives the first payloads, whole. */
  lemma CutStream(calls: seq<Call>, n: nat)
    requires forall i :: 0 <= i < |calls| ==> Framed(calls[i])
    requires n <= |Stream(calls)|
    ensures DataOf(Split(Stream(calls)[..n])) <= Payloads(calls)
  {
    RoundTrip(calls);
    SplitPrefix(Stream(calls), n);
    DataPrefix(Split(Stream(calls)[..n]), Split(Stream(calls)));
  }

  /** No wider class of payloads survives: what is read of a lone event is its
      payload exactly when that is one line not ending in a return. */
  lemma SurvivesIffPlain(payload: string)
    ensures DataOf(Split(Bytes(Send("", payload)))) == [payload] <==> Plain(payload)
  {
    if Plain(payload) {
      CallRoundTrip(Send("", payload), "");
      assert Bytes(Send("", payload)) + "" == Bytes(Send("", payload));
    } else {
      var bytes := Bytes(Send("", payload));
      SplitLines(bytes);
      DataIsPlain(Split(bytes));
      assert payload in [payload];
    }
  }

  lemma {:induction false} PayloadSent(calls: seq<Call>, i: nat)
    requires i < |calls| && calls[i].Send?
    ensures calls[i].payload in Payloads(calls)
  {
    if i > 0 {
      PayloadSent(calls[1..], i - 1);
    }
  }

  /** A whole stream comes back as sent exactly when every payload of it does. */
  lemma StreamSurvivesIffPlain(calls: seq<Call>)
    requires forall i :: 0 <= i < |calls| && calls[i].Send? ==> NoNewline(calls[i].name)
    ensures DataOf(Split(Stream(calls))) == Payloads(calls)
            <==> forall i :: 0 <= i < |calls| && calls[i].Send? ==> Plain(calls[i].payload)
  {
    if forall i :: 0 <= i < |calls| && calls[i].Send? ==> Plain(calls[i].payload) {
      RoundTrip(calls);
    } else if DataOf(Split(Stream(calls))) == Payloads(calls) {
      var i :| 0 <= i < |calls| && calls[i].Send? && !Plain(calls[i].payload);
      PayloadSent(calls, i);
      SplitLines(Stream(calls));
      DataIsPlain(Split(Stream(calls)));
      assert false;
    }
  }

  /** Whatever is read is plain. */
  lemma {:induction false} DataIsPlain(lines: seq<string>)
    requires forall i :: 0 <= i < |lines| ==> IsLine(lines[i])
    ensures forall x :: x in DataOf(lines) ==> Plain(x)
  {
    if lines != [] {
      DataIsPlain(lines[1..]);
      TrimIsPlain(lines[0]);
    }
  }

  lemma {:induction false} TrimHolds(s: string)
    ensures TrimRight(s) <= s
    ensures TrimRight(s) == "" || !IsEol(TrimRight(s)[|TrimRight(s)| - 1])
  {
    if s != "" && IsEol(s[|s| - 1]) {
      TrimHolds(s[..|s| - 1]);
    }
  }

  lemma TrimIsPlain(line: string)
    requires IsLine(line)
    ensures HasData(line) ==> Plain(TrimRight(line)[|DATA|..])
  {
    TrimHolds(line);
    assert TrimRight(line) != line;
  }
}
