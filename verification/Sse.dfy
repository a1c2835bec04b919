/**
 * The text of a frame as the server prints it (src/api/stream.ts:606-616), the chunked splitter that reads
 * it back (scripts/load-test-stream.ts:98-110), and the interpretation of a frame's lines in sections 9.2.5
 * and 9.2.6 of the WHATWG HTML Standard.
 */
module Sse {
  import opened Outcomes
  import Decimal
  import Stream

  /** The JSON text carries no raw line terminator; the serializer escapes them. */
  predicate OneLine(s: string) {
    '\n' !in s && '\r' !in s
  }

  function KindName(k: Stream.Kind): string {
    match k
    case Resync => "resync"
    case Notification => "notification"
    case Heartbeat => "heartbeat"
  }

  function EventLine(f: Stream.Frame): string { "event: " + KindName(f.kind) }
  function IdLine(f: Stream.Frame): string { "id: " + Decimal.Print(f.id) }
  function DataLine(f: Stream.Frame): string { "data: " + f.body }

  /** A frame without the blank line that ends it. */
  function Body(f: Stream.Frame): string {
    EventLine(f) + "\n" + (IdLine(f) + "\n" + DataLine(f))
  }

  function Text(f: Stream.Frame): string {
    Body(f) + "\n\n"
  }

  function TextOf(fs: seq<Stream.Frame>): string {
    if fs == [] then "" else Text(fs[0]) + TextOf(fs[1..])
  }

  /** The text of a frame of each kind. */
  lemma FrameTextIs(f: Stream.Frame)
    ensures f.kind.Notification? ==>
              Text(f) == "event: notification\nid: " + Decimal.Print(f.id) + "\ndata: " + f.body + "\n\n"
    ensures f.kind.Heartbeat? ==>
              Text(f) == "event: heartbeat\nid: " + Decimal.Print(f.id) + "\ndata: " + f.body + "\n\n"
    ensures f.kind.Resync? ==> Text(f) == "event: resync\nid: " + Decimal.Print(f.id) + "\ndata: " + f.body + "\n\n"
  {
    var name, id := KindName(f.kind), Decimal.Print(f.id);
    assert Body(f) == "event: " + name + "\nid: " + id + "\ndata: " + f.body;
    assert "event: " + "notification" + "\nid: " == "event: notification\nid: ";
    assert "event: " + "heartbeat" + "\nid: " == "event: heartbeat\nid: ";
    assert "event: " + "resync" + "\nid: " == "event: resync\nid: ";
  }

  // The splitter

  predicate IsBreak(s: string, i: int) {
    0 <= i && i + 1 < |s| && s[i] == '\n' && s[i + 1] == '\n'
  }

  /** `indexOf("\n\n")` at or after `from`, or -1. */
  function BreakFrom(s: string, from: nat): (i: int)
    ensures i == -1 || (from <= i && IsBreak(s, i))
    ensures i == -1 ==> forall k :: from <= k ==> !IsBreak(s, k)
    ensures i >= 0 ==> forall k :: from <= k < i ==> !IsBreak(s, k)
    decreases |s| - from
  {
    if from + 1 >= |s| then -1
    else if IsBreak(s, from) then from
    else BreakFrom(s, from + 1)
  }

  function Break(s: string): int {
    BreakFrom(s, 0)
  }

  /** All complete frames of a buffer, and what is left of it. */
  function Split(s: string): (seq<string>, string)
    decreases |s|
  {
    var i := Break(s);
    if i < 0 then ([], s)
    else
      var (frames, rest) := Split(s[i + 2..]);
      ([s[..i]] + frames, rest)
  }

  /** The reader: a buffer, the frames handed to the callback so far, and the data handler. */
  class Reader {
    var buf: string
    var frames: seq<string>

    constructor ()
      ensures buf == "" && frames == []
    {
      buf, frames := "", [];
    }

    method OnData(chunk: string)
      modifies this
      ensures (frames, buf) == (old(frames) + Split(old(buf) + chunk).0, Split(old(buf) + chunk).1)
    {
      buf := buf + chunk;
      ghost var all, before := buf, frames;
      var idx := Break(buf);
      while idx != -1
        invariant idx == Break(buf)
        invariant before + Split(all).0 == frames + Split(buf).0
        invariant Split(all).1 == Split(buf).1
        decreases |buf|
      {
        var rawFrame := buf[..idx];
        assert Split(buf).0 == [rawFrame] + Split(buf[idx + 2..]).0;
        buf := buf[idx + 2..];
        frames := frames + [rawFrame];
        idx := Break(buf);
      }
      assert frames + [] == frames;
    }
  }

  /** The reader's state after a sequence of chunks. */
  function Fed(chunks: seq<string>): (seq<string>, string) {
    if chunks == [] then ([], "")
    else
      var (frames, buf) := Fed(chunks[..|chunks| - 1]);
      var (more, rest) := Split(buf + chunks[|chunks| - 1]);
      (frames + more, rest)
  }

  function Concat(chunks: seq<string>): string {
    if chunks == [] then "" else Concat(chunks[..|chunks| - 1]) + chunks[|chunks| - 1]
  }

  lemma BreakIsFirst(s: string, i: nat)
    requires IsBreak(s, i) && forall k :: 0 <= k < i ==> !IsBreak(s, k)
    ensures Break(s) == i
  {
    assert IsBreak(s, i);
  }

  lemma BreakStays(a: string, b: string)
    requires Break(a) >= 0
    ensures Break(a + b) == Break(a)
  {
    var i := Break(a);
    assert IsBreak(a, i) && IsBreak(a + b, i);
    forall k | 0 <= k < i
      ensures !IsBreak(a + b, k)
    {
      assert !IsBreak(a, k);
    }
    BreakIsFirst(a + b, i);
  }

  /** Splitting early and carrying the rest over gives the same as splitting everything at once. */
  lemma {:induction false} SplitAppend(a: string, b: string)
    ensures Split(a + b) == (Split(a).0 + Split(Split(a).1 + b).0, Split(Split(a).1 + b).1)
    decreases |a|
  {
    var i := Break(a);
    if i >= 0 {
      BreakStays(a, b);
      assert (a + b)[..i] == a[..i];
      assert (a + b)[i + 2..] == a[i + 2..] + b;
      SplitAppend(a[i + 2..], b);
      var rest := Split(a[i + 2..]);
      var more := Split(rest.1 + b).0;
      assert [a[..i]] + (rest.0 + more) == [a[..i]] + rest.0 + more;
    } else {
      assert [] + Split(a + b).0 == Split(a + b).0;
    }
  }

  /** How the text is cut into chunks does not matter. */
  lemma {:induction false} ChunksDoNotMatter(chunks: seq<string>)
    ensures Fed(chunks) == Split(Concat(chunks))
  {
    if chunks != [] {
      var n := |chunks| - 1;
      ChunksDoNotMatter(chunks[..n]);
      SplitAppend(Concat(chunks[..n]), chunks[n]);
    }
  }

  // Printed frames come back whole

  /** No blank line inside, and no line terminator at either end. */
  ghost predicate Solid(s: string) {
    s != "" && s[0] != '\n' && s[|s| - 1] != '\n' && forall k :: !IsBreak(s, k)
  }

  lemma LineIsSolid(s: string)
    requires s != "" && '\n' !in s
    ensures Solid(s)
  {
  }

  lemma SolidJoin(a: string, b: string)
    requires Solid(a) && Solid(b)
    ensures Solid(a + "\n" + b)
  {
    var s := a + "\n" + b;
    forall k
      ensures !IsBreak(s, k)
    {
      if 0 <= k && k + 1 < |a| {
        assert s[k] == a[k] && s[k + 1] == a[k + 1] && !IsBreak(a, k);
      } else if |a| < k && k + 1 < |s| {
        assert s[k] == b[k - |a| - 1] && s[k + 1] == b[k - |a|] && !IsBreak(b, k - |a| - 1);
      }
    }
  }

  lemma DigitsAreOneLine(s: string)
    requires Decimal.IsDigits(s)
    ensures OneLine(s)
  {
  }

  lemma LinesAreOneLine(f: Stream.Frame)
    requires OneLine(f.body)
    ensures OneLine(EventLine(f)) && OneLine(IdLine(f)) && OneLine(DataLine(f))
  {
    DigitsAreOneLine(Decimal.Print(f.id));
  }

  lemma BodyIsSolid(f: Stream.Frame)
    requires OneLine(f.body)
    ensures Solid(Body(f))
  {
    hide EventLine, IdLine, DataLine, Solid;
    LinesAreOneLine(f);
    LinesAreNotEmpty(f);
    LineIsSolid(EventLine(f));
    LineIsSolid(IdLine(f));
    LineIsSolid(DataLine(f));
    SolidJoin(IdLine(f), DataLine(f));
    SolidJoin(EventLine(f), IdLine(f) + "\n" + DataLine(f));
  }

  lemma LinesAreNotEmpty(f: Stream.Frame)
    ensures EventLine(f) != "" && IdLine(f) != "" && DataLine(f) != ""
  {
  }

  lemma SolidBreaksAtItsEnd(s: string, rest: string)
    requires Solid(s)
    ensures Break(s + "\n\n" + rest) == |s|
  {
    var t := s + "\n\n" + rest;
    assert IsBreak(t, |s|);
    forall k | 0 <= k < |s|
      ensures !IsBreak(t, k)
    {
      assert t[k] == s[k];
      if k + 1 < |s| {
        assert t[k + 1] == s[k + 1] && !IsBreak(s, k);
      }
    }
    BreakIsFirst(t, |s|);
  }

  function Bodies(fs: seq<Stream.Frame>): seq<string> {
    seq(|fs|, i requires 0 <= i < |fs| => Body(fs[i]))
  }

  lemma SplitOne(body: string, rest: string)
    requires Solid(body)
    ensures Split(body + "\n\n" + rest) == ([body] + Split(rest).0, Split(rest).1)
  {
    var s := body + "\n\n" + rest;
    SolidBreaksAtItsEnd(body, rest);
    assert s[..|body|] == body && s[|body| + 2..] == rest;
  }

  lemma BodiesCons(fs: seq<Stream.Frame>)
    requires fs != []
    ensures Bodies(fs) == [Body(fs[0])] + Bodies(fs[1..])
  {
    hide Body;
  }

  lemma {:induction false} PrintedFramesSplit(fs: seq<Stream.Frame>)
    requires forall f :: f in fs ==> OneLine(f.body)
    ensures Split(TextOf(fs)) == (Bodies(fs), "")
    decreases |fs|
  {
    if fs == [] {
      assert Bodies(fs) == [];
    } else {
      hide Body, OneLine, Split, Solid;
      BodyIsSolid(fs[0]);
      SplitOne(Body(fs[0]), TextOf(fs[1..]));
      PrintedFramesSplit(fs[1..]);
      BodiesCons(fs);
    }
  }

  // Interpreting the lines of a frame

  /** The data and event type buffers and the last event id buffer of section 9.2.6. */
  datatype Pending = Pending(event: string, data: string, id: string)

  datatype Message = Message(event: string, data: string, id: string)

  /** Lines end with LF, CR or CRLF. */
  function Lines(s: string): seq<string>
    decreases |s|
  {
    var i := LineEnd(s);
    if i == |s| then [s]
    else if s[i] == '\r' && i + 1 < |s| && s[i + 1] == '\n' then [s[..i]] + Lines(s[i + 2..])
    else [s[..i]] + Lines(s[i + 1..])
  }

  function LineEnd(s: string): (i: nat)
    ensures i <= |s| && (i < |s| ==> s[i] == '\n' || s[i] == '\r')
    ensures forall k :: 0 <= k < i ==> s[k] != '\n' && s[k] != '\r'
  {
    if s == "" || s[0] == '\n' || s[0] == '\r' then 0 else 1 + LineEnd(s[1..])
  }

  function Colon(s: string): (i: nat)
    ensures i <= |s| && (i < |s| ==> s[i] == ':')
    ensures forall k :: 0 <= k < i ==> s[k] != ':'
  {
    if s == "" || s[0] == ':' then 0 else 1 + Colon(s[1..])
  }

  function FieldValue(s: string): string {
    if s != "" && s[0] == ' ' then s[1..] else s
  }

  /** One line: a comment, a field with a value, or a field alone. */
  function ReadLine(p: Pending, line: string): Pending {
    var i := Colon(line);
    var field, value := line[..i], if i == |line| then "" else FieldValue(line[i + 1..]);
    if field == "event" then p.(event := value)
    else if field == "data" then p.(data := p.data + value + "\n")
    else if field == "id" && (0 as char) !in value then p.(id := value)
    else p
  }

  function ReadLines(p: Pending, lines: seq<string>): Pending
    decreases |lines|
  {
    if lines == [] then p else ReadLines(ReadLine(p, lines[0]), lines[1..])
  }

  /** Dispatch: an empty data buffer gives no event; one trailing LF is dropped; the default type is "message". */
  function Dispatch(p: Pending): Option<Message> {
    if p.data == "" then None
    else Some(Message(if p.event == "" then "message" else p.event,
                      if p.data[|p.data| - 1] == '\n' then p.data[..|p.data| - 1] else p.data, p.id))
  }

  function Interpret(frame: string): Option<Message> {
    Dispatch(ReadLines(Pending("", "", ""), Lines(frame)))
  }

  lemma LineEndsAt(a: string, rest: string)
    requires OneLine(a)
    ensures LineEnd(a) == |a| && LineEnd(a + "\n" + rest) == |a|
  {
    var s := a + "\n" + rest;
    assert forall k :: 0 <= k < |a| ==> s[k] == a[k] && a[k] in a;
    assert s[|a|] == '\n';
  }

  lemma LinesOfBody(f: Stream.Frame)
    requires OneLine(f.body)
    ensures Lines(Body(f)) == [EventLine(f), IdLine(f), DataLine(f)]
  {
    hide EventLine, IdLine, DataLine, OneLine;
    LinesAreOneLine(f);
    var a, b, c := EventLine(f), IdLine(f), DataLine(f);
    LineEndsAt(a, b + "\n" + c);
    LineEndsAt(b, c);
    LineEndsAt(c, "");
    LinesCons(a, b + "\n" + c);
    LinesCons(b, c);
  }

  lemma LinesCons(a: string, rest: string)
    requires LineEnd(a + "\n" + rest) == |a|
    ensures Lines(a + "\n" + rest) == [a] + Lines(rest)
  {
    var s := a + "\n" + rest;
    assert s[|a|] == '\n';
    assert s[..|a|] == a && s[|a| + 1..] == rest;
  }

  lemma ReadField(field: string, value: string)
    requires ':' !in field && field != ""
    ensures var line := field + ": " + value;
            Colon(line) == |field| && line[..|field|] == field && FieldValue(line[|field| + 1..]) == value
  {
    var line := field + ": " + value;
    assert forall k :: 0 <= k < |field| ==> line[k] == field[k] && field[k] in field;
    assert line[|field|] == ':';
    assert line[|field| + 1..] == " " + value;
  }

  lemma DigitsHaveNoNul(s: string)
    requires Decimal.IsDigits(s)
    ensures (0 as char) !in s
  {
  }

  lemma ReadEvent(p: Pending, value: string)
    ensures ReadLine(p, "event: " + value) == p.(event := value)
  {
    ReadField("event", value);
    assert "event" + ": " + value == "event: " + value;
  }

  lemma ReadId(p: Pending, value: Decimal.Digits)
    ensures ReadLine(p, "id: " + value) == p.(id := value)
  {
    ReadField("id", value);
    DigitsHaveNoNul(value);
    assert "id" + ": " + value == "id: " + value;
  }

  lemma ReadData(p: Pending, value: string)
    ensures ReadLine(p, "data: " + value) == p.(data := p.data + value + "\n")
  {
    ReadField("data", value);
    assert "data" + ": " + value == "data: " + value;
  }

  lemma ThreeLines(p: Pending, a: string, b: string, c: string)
    ensures ReadLines(p, [a, b, c]) == ReadLine(ReadLine(ReadLine(p, a), b), c)
  {
    hide ReadLine;
    var p1 := ReadLine(p, a);
    var p2 := ReadLine(p1, b);
    assert [a, b, c][1..] == [b, c] && [b, c][1..] == [c] && [c][1..] == [];
    assert ReadLines(p2, [c]) == ReadLines(ReadLine(p2, c), []);
    assert ReadLines(p1, [b, c]) == ReadLines(p2, [c]);
  }

  /** Every printed frame means its own event type, id and data. */
  lemma FrameMeansItself(f: Stream.Frame)
    requires OneLine(f.body)
    ensures Interpret(Body(f)) == Some(Message(KindName(f.kind), f.body, Decimal.Print(f.id)))
  {
    hide Lines, Body, ReadLine, ReadLines, OneLine;
    var p0 := Pending("", "", "");
    var name, id := KindName(f.kind), Decimal.Print(f.id);
    LinesOfBody(f);
    ThreeLines(p0, EventLine(f), IdLine(f), DataLine(f));
    ReadEvent(p0, name);
    ReadId(Pending(name, "", ""), id);
    ReadData(Pending(name, "", id), f.body);
    assert "" + f.body + "\n" == f.body + "\n" && (f.body + "\n")[..|f.body|] == f.body;
  }

  /** Print and parse: whatever frames are sent, and however the text is cut into chunks, the reader gets back
      exactly those frames in order with nothing left over, and each means what was sent. */
  lemma RoundTrip(fs: seq<Stream.Frame>, chunks: seq<string>)
    requires forall f :: f in fs ==> OneLine(f.body)
    requires Concat(chunks) == TextOf(fs)
    ensures Fed(chunks) == (Bodies(fs), "")
    ensures forall i :: 0 <= i < |fs| ==>
              Interpret(Fed(chunks).0[i]) == Some(Message(KindName(fs[i].kind), fs[i].body, Decimal.Print(fs[i].id)))
  {
    ChunksDoNotMatter(chunks);
    PrintedFramesSplit(fs);
    hide Interpret, Body, Fed;
    forall i | 0 <= i < |fs|
      ensures Interpret(Fed(chunks).0[i]) == Some(Message(KindName(fs[i].kind), fs[i].body, Decimal.Print(fs[i].id)))
    {
      assert fs[i] in fs;
      FrameMeansItself(fs[i]);
    }
  }
}
