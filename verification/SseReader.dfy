/**
 * The incremental server-sent-events reader of the smoke client (scripts/smoke-mcp-tools.ts): a buffer drained
 * at blank lines, a queue of parsed events, and events set aside while waiting for another one.
 * The stream is text; JSON is a parameter.
 */
module SseReader {
  import opened Options
  import opened Text

  datatype Event = Event(event: string, data: string)

  // ---------------------------------------------------------------- parsing one event

  predicate IsSpace(c: char) { c in " \t\r\n" }

  function TrimStart(s: string): string { if s != "" && IsSpace(s[0]) then TrimStart(s[1..]) else s }

  function TrimEnd(s: string): string { if s != "" && IsSpace(s[|s| - 1]) then TrimEnd(s[..|s| - 1]) else s }

  function Trim(s: string): string { TrimEnd(TrimStart(s)) }

  const EVENT := "event:"
  const DATA := "data:"

  /** The last event line names the event; the data lines are collected in order. */
  function Fold(lines: seq<string>): (string, seq<string>) {
    if lines == [] then ("message", []) else
    var (name, data) := Fold(lines[..|lines| - 1]);
    var line := lines[|lines| - 1];
    (if EVENT <= line then Trim(line[|EVENT|..]) else name,
     if DATA <= line then data + [Trim(line[|DATA|..])] else data)
  }

  function ParseEvent(raw: string): Event {
    var (name, data) := Fold(Split(raw, '\n'));
    Event(name, if data == [] then "" else Join(data, '\n'))
  }

  // ---------------------------------------------------------------- draining the buffer

  /** buffer.indexOf('\n\n'), with the length of the buffer for -1. */
  function Blank(s: string): (n: nat)
    ensures n == |s| || (n + 1 < |s| && s[n] == '\n' && s[n + 1] == '\n')
    ensures forall i :: 0 <= i < n && i + 1 < |s| ==> !(s[i] == '\n' && s[i + 1] == '\n')
  {
    if s == "" then 0
    else if |s| >= 2 && s[0] == '\n' && s[1] == '\n' then 0
    else 1 + Blank(s[1..])
  }

  datatype Drained = Drained(events: seq<Event>, rest: string)

  function Drain(buffer: string): Drained
    decreases |buffer|
  {
    var n := Blank(buffer);
    if n == |buffer| then Drained([], buffer) else
    var more := Drain(buffer[n + 2..]);
    Drained([ParseEvent(buffer[..n])] + more.events, more.rest)
  }

  lemma BlankIsFirst(s: string, n: nat)
    requires n + 1 < |s| && s[n] == '\n' && s[n + 1] == '\n'
    requires forall i :: 0 <= i < n ==> !(s[i] == '\n' && s[i + 1] == '\n')
    ensures Blank(s) == n
  {
  }

  lemma DrainOne(buffer: string)
    requires Blank(buffer) < |buffer|
    ensures var n := Blank(buffer);
      && n + 2 <= |buffer|
      && Drain(buffer).events == [ParseEvent(buffer[..n])] + Drain(buffer[n + 2..]).events
      && Drain(buffer).rest == Drain(buffer[n + 2..]).rest
  {
    hide ParseEvent, Blank;
    var n := Blank(buffer);
    var more := Drain(buffer[n + 2..]);
    assert Drain(buffer) == Drained([ParseEvent(buffer[..n])] + more.events, more.rest);
  }

  lemma DrainNone(buffer: string)
    requires Blank(buffer) == |buffer|
    ensures Drain(buffer).events == [] && Drain(buffer).rest == buffer
  {
  }

  lemma {:induction false} DrainLeavesNoBlank(buffer: string)
    ensures Blank(Drain(buffer).rest) == |Drain(buffer).rest|
    decreases |buffer|
  {
    var n := Blank(buffer);
    if n < |buffer| {
      DrainLeavesNoBlank(buffer[n + 2..]);
    }
  }

  /** Text after the first blank line does not move it. */
  lemma BlankStays(a: string, b: string)
    requires Blank(a) < |a|
    ensures Blank(a + b) == Blank(a)
  {
    var n := Blank(a);
    var s := a + b;
    forall i | 0 <= i < n
      ensures !(s[i] == '\n' && s[i + 1] == '\n')
    {
      assert s[i] == a[i] && s[i + 1] == a[i + 1];
    }
    BlankIsFirst(s, n);
  }

  /** Draining early and then again after more text gives what draining everything at once gives. */
  lemma {:induction false} DrainInTwo(a: string, b: string)
    ensures Drain(a + b).events == Drain(a).events + Drain(Drain(a).rest + b).events
    ensures Drain(a + b).rest == Drain(Drain(a).rest + b).rest
    decreases |a|
  {
    hide ParseEvent, Drain, Blank;
    var n := Blank(a);
    if n < |a| {
      var tail := a[n + 2..];
      BlankStays(a, b);
      assert (a + b)[..n] == a[..n] && (a + b)[n + 2..] == tail + b;
      DrainOne(a);
      DrainOne(a + b);
      DrainInTwo(tail, b);
    } else {
      DrainNone(a);
    }
  }

  function Concat(chunks: seq<string>): string { if chunks == [] then "" else chunks[0] + Concat(chunks[1..]) }

  /** Draining after every chunk, with what the last drain left over. */
  function Feed(rest: string, chunks: seq<string>): Drained
    decreases |chunks|
  {
    if chunks == [] then Drained([], rest) else
    var now := Drain(rest + chunks[0]);
    var later := Feed(now.rest, chunks[1..]);
    Drained(now.events + later.events, later.rest)
  }

  lemma {:induction false} FeedIsDrain(rest: string, chunks: seq<string>)
    requires Blank(rest) == |rest|
    ensures Feed(rest, chunks) == Drain(rest + Concat(chunks))
    decreases |chunks|
  {
    hide Blank;
    if chunks == [] {
      assert rest + Concat(chunks) == rest;
    } else {
      var now := Drain(rest + chunks[0]);
      DrainLeavesNoBlank(rest + chunks[0]);
      FeedIsDrain(now.rest, chunks[1..]);
      DrainInTwo(rest + chunks[0], Concat(chunks[1..]));
      assert rest + Concat(chunks) == (rest + chunks[0]) + Concat(chunks[1..]);
    }
  }

  /** Any chunking of a stream, even inside a blank line, yields the events of the whole stream in order. */
  lemma ChunkingIsInvisible(chunks: seq<string>)
    ensures Feed("", chunks) == Drain(Concat(chunks))
  {
    FeedIsDrain("", chunks);
    assert "" + Concat(chunks) == Concat(chunks);
  }

  lemma DrainTwice(buffer: string)
    ensures Drain(Drain(buffer).rest).events == [] && Drain(Drain(buffer).rest).rest == Drain(buffer).rest
  {
    DrainLeavesNoBlank(buffer);
    DrainNone(Drain(buffer).rest);
  }

  // ---------------------------------------------------------------- what an event says

  predicate Spaces(s: string) { forall i :: 0 <= i < |s| ==> s[i] in " \t\r\n" }

  predicate Trimmed(s: string) { s != "" ==> s[0] !in " \t\r\n" && s[|s| - 1] !in " \t\r\n" }

  lemma {:induction false} TrimStartDrops(a: string, s: string)
    requires Spaces(a) && Trimmed(s)
    ensures TrimStart(a + s) == s
  {
    if a != "" {
      TrimStartDrops(a[1..], s);
      assert (a + s)[1..] == a[1..] + s;
    } else {
      assert a + s == s;
    }
  }

  lemma {:induction false} TrimEndDrops(s: string, b: string)
    requires Spaces(b) && Trimmed(s)
    ensures TrimEnd(s + b) == s
  {
    if b != "" {
      TrimEndDrops(s, b[..|b| - 1]);
      assert (s + b)[..|s + b| - 1] == s + b[..|b| - 1];
    } else {
      assert s + b == s;
    }
  }

  lemma {:induction false} TrimStartSpaces(a: string)
    requires Spaces(a)
    ensures TrimStart(a) == ""
  {
    if a != "" {
      TrimStartSpaces(a[1..]);
    }
  }

  /** Trimming takes the white space off both ends, and nothing else. */
  lemma TrimDrops(a: string, s: string, b: string)
    requires Spaces(a) && Trimmed(s) && Spaces(b)
    ensures Trim(a + s + b) == s
  {
    if s == "" {
      assert a + s + b == a + b;
      TrimStartSpaces(a + b);
    } else {
      StartDropsBefore(a, s + b);
      assert a + s + b == a + (s + b);
      TrimEndDrops(s, b);
    }
  }

  lemma {:induction false} StartDropsBefore(a: string, s: string)
    requires Spaces(a) && s != "" && s[0] !in " \t\r\n"
    ensures TrimStart(a + s) == s
  {
    if a != "" {
      StartDropsBefore(a[1..], s);
      assert (a + s)[1..] == a[1..] + s;
    } else {
      assert a + s == s;
    }
  }

  /** The name is that of the last event line, "message" without one. */
  lemma {:induction false} LastEventLineNames(lines: seq<string>, n: nat)
    requires n <= |lines| && forall i :: n <= i < |lines| ==> !("event:" <= lines[i])
    requires n > 0 ==> "event:" <= lines[n - 1]
    ensures Fold(lines).0 == if n == 0 then "message" else Trim(lines[n - 1][6..])
  {
    hide Trim;
    if n < |lines| {
      LastEventLineNames(lines[..|lines| - 1], n);
    }
  }

  function DataLines(data: seq<string>): seq<string> {
    if data == [] then [] else DataLines(data[..|data| - 1]) + ["data: " + data[|data| - 1]]
  }

  /** An event as a server writes it: its name, if it has one, and its data line by line. */
  datatype Sent = Sent(name: Option<string>, data: seq<string>)

  predicate WellFormed(e: Sent) {
    && (e.name.Some? ==> Trimmed(e.name.value) && '\n' !in e.name.value)
    && (forall d :: d in e.data ==> Trimmed(d) && '\n' !in d)
    && (e.name.Some? || e.data != [])
  }

  function LinesOf(e: Sent): seq<string> {
    (if e.name.Some? then ["event: " + e.name.value] else []) + DataLines(e.data)
  }

  function Rendered(e: Sent): string
    requires WellFormed(e)
  {
    LinesAreLines(e);
    Join(LinesOf(e), '\n') + "\n\n"
  }

  /** What the reader is to make of it. */
  function Meant(e: Sent): Event {
    Event(if e.name.Some? then e.name.value else "message", if e.data == [] then "" else Join(e.data, '\n'))
  }

  lemma {:induction false} DataLinesAreLines(data: seq<string>)
    requires forall d :: d in data ==> '\n' !in d
    ensures |DataLines(data)| == |data|
    ensures forall l :: l in DataLines(data) ==> l != "" && '\n' !in l
    ensures forall i :: 0 <= i < |data| ==> DataLines(data)[i] == "data: " + data[i]
  {
    if data != [] {
      DataLinesAreLines(data[..|data| - 1]);
    }
  }

  lemma LinesAreLines(e: Sent)
    requires WellFormed(e)
    ensures LinesOf(e) != [] && forall l :: l in LinesOf(e) ==> l != "" && '\n' !in l
  {
    DataLinesAreLines(e.data);
  }

  /** Joined lines hold no blank line. */
  lemma {:induction false} JoinedHasNoBlank(lines: seq<string>)
    requires lines != [] && forall l :: l in lines ==> l != "" && '\n' !in l
    ensures var s := Join(lines, '\n');
      && s != "" && s[0] != '\n' && s[|s| - 1] != '\n'
      && forall i :: 0 <= i < |s| - 1 ==> !(s[i] == '\n' && s[i + 1] == '\n')
  {
    if |lines| > 1 {
      assert forall l :: l in lines[1..] ==> l in lines;
      JoinedHasNoBlank(lines[1..]);
      var s, rest := Join(lines, '\n'), Join(lines[1..], '\n');
      var l := lines[0];
      assert l in lines;
      assert s == l + ("\n" + rest);
      forall i | 0 <= i < |s| - 1
        ensures !(s[i] == '\n' && s[i + 1] == '\n')
      {
        if i < |l| {
          assert s[i] == l[i] && l[i] in l;
        } else if i > |l| {
          assert s[i] == rest[i - |l| - 1] && s[i + 1] == rest[i - |l|];
        }
      }
    } else {
      assert lines[0] in lines && Join(lines, '\n') == lines[0];
    }
  }

  lemma FoldOneMore(lines: seq<string>, d: string)
    requires Trimmed(d)
    ensures Fold(lines + ["data: " + d]).1 == Fold(lines).1 + [d]
  {
    var line := "data: " + d;
    assert (lines + [line])[..|lines|] == lines;
    assert line[5..] == " " + d && DATA <= line;
    TrimDrops(" ", d, "");
    assert " " + d + "" == " " + d;
    hide Trim;
  }

  /** The data lines are collected in order, and the name line is no data line. */
  lemma {:induction false} FoldData(head: seq<string>, data: seq<string>)
    requires forall d :: d in data ==> Trimmed(d)
    requires forall i :: 0 <= i < |head| ==> !("data:" <= head[i])
    ensures Fold(head + DataLines(data)).1 == data
  {
    hide Fold;
    if data != [] {
      var front, d := data[..|data| - 1], data[|data| - 1];
      FoldData(head, front);
      FoldOneMore(head + DataLines(front), d);
      assert head + DataLines(data) == head + DataLines(front) + ["data: " + d];
      assert front + [d] == data;
    } else {
      assert head + DataLines(data) == head;
      NoDataLines(head);
    }
  }

  lemma {:induction false} NoDataLines(head: seq<string>)
    requires forall i :: 0 <= i < |head| ==> !("data:" <= head[i])
    ensures Fold(head).1 == []
  {
    if head != [] {
      NoDataLines(head[..|head| - 1]);
    }
  }

  lemma FoldSaysWhatIsMeant(e: Sent)
    requires WellFormed(e)
    ensures Fold(LinesOf(e)) == (Meant(e).event, e.data)
  {
    hide Fold, Trim;
    var head := if e.name.Some? then ["event: " + e.name.value] else [];
    var lines := LinesOf(e);
    DataLinesAreLines(e.data);
    assert e.name.Some? ==> head[0][0] == 'e';
    FoldData(head, e.data);
    forall i | |head| <= i < |lines|
      ensures !("event:" <= lines[i])
    {
      assert lines[i] == "data: " + e.data[i - |head|] && lines[i][0] == 'd';
    }
    LastEventLineNames(lines, |head|);
    if e.name.Some? {
      assert lines[0][6..] == " " + e.name.value;
      TrimDrops(" ", e.name.value, "");
      assert " " + e.name.value + "" == " " + e.name.value;
    }
  }

  /** An event drains to what it means, whatever follows it. */
  lemma RenderedEventDrains(e: Sent, rest: string)
    requires WellFormed(e)
    ensures Drain(Rendered(e) + rest).events == [Meant(e)] + Drain(rest).events
    ensures Drain(Rendered(e) + rest).rest == Drain(rest).rest
  {
    LinesAreLines(e);
    var raw := Join(LinesOf(e), '\n');
    var s := Rendered(e) + rest;
    JoinedHasNoBlank(LinesOf(e));
    forall i | 0 <= i < |raw|
      ensures !(s[i] == '\n' && s[i + 1] == '\n')
    {
      assert s[i] == raw[i];
      assert i + 1 < |raw| ==> s[i + 1] == raw[i + 1];
    }
    BlankIsFirst(s, |raw|);
    assert s[..|raw|] == raw && s[|raw| + 2..] == rest;
    hide Drain, Blank, Fold;
    DrainOne(s);
    SplitJoin(LinesOf(e), '\n');
    FoldSaysWhatIsMeant(e);
  }

  function Stream(events: seq<Sent>): string
    requires forall e :: e in events ==> WellFormed(e)
  {
    if events == [] then "" else Rendered(events[0]) + Stream(events[1..])
  }

  function Meanings(events: seq<Sent>): seq<Event> {
    if events == [] then [] else [Meant(events[0])] + Meanings(events[1..])
  }

  /** A stream of events, in any chunks, is read as exactly those events, with nothing left over. */
  lemma {:induction false} StreamDrains(events: seq<Sent>, chunks: seq<string>)
    requires (forall e :: e in events ==> WellFormed(e)) && Concat(chunks) == Stream(events)
    ensures Feed("", chunks) == Drained(Meanings(events), "")
  {
    ChunkingIsInvisible(chunks);
    WholeStreamDrains(events);
  }

  lemma {:induction false} WholeStreamDrains(events: seq<Sent>)
    requires forall e :: e in events ==> WellFormed(e)
    ensures Drain(Stream(events)) == Drained(Meanings(events), "")
  {
    hide Drain, Rendered, Meant, WellFormed;
    if events == [] {
      DrainNone("");
    } else {
      assert events[0] in events;
      RenderedEventDrains(events[0], Stream(events[1..]));
      WholeStreamDrains(events[1..]);
    }
  }

  // ---------------------------------------------------------------- the client

  datatype Json = Malformed | Parsed(id: Option<int>)

  datatype Next = Delivered(value: Event) | Closed | TimedOut

  datatype Outcome = Response(value: Event) | StreamClosed | Timeout | JsonError(value: Event)

  predicate MatchesId(json: string -> Json, e: Event, id: int) { json(e.data) == Parsed(Some(id)) }

  /** findIndex, with the length for -1. */
  function FirstAnswer(json: string -> Json, pending: seq<Event>, id: int): (n: nat)
    ensures n <= |pending| && (n < |pending| ==> Answers(json, pending[n], id))
    ensures forall i :: 0 <= i < n ==> !Answers(json, pending[i], id)
  {
    if pending == [] || Answers(json, pending[0], id) then 0 else 1 + FirstAnswer(json, pending[1..], id)
  }

  predicate Answers(json: string -> Json, e: Event, id: int) { e.event == "message" && MatchesId(json, e, id) }

  /** Every event taken off the queue is in exactly one place. */
  ghost predicate Placed(taken: seq<Event>, returned: seq<Event>, pending: seq<Event>, lost: seq<Event>) {
    multiset(taken) == multiset(returned) + multiset(pending) + multiset(lost)
  }

  lemma OneMorePlaced(taken: seq<Event>, returned: seq<Event>, pending: seq<Event>, lost: seq<Event>, e: Event)
    requires Placed(taken, returned, pending, lost)
    ensures Placed(taken + [e], returned + [e], pending, lost)
    ensures Placed(taken + [e], returned, pending + [e], lost)
    ensures Placed(taken + [e], returned, pending, lost + [e])
  {
  }

  lemma HandedOverPlaced(taken: seq<Event>, returned: seq<Event>, pending: seq<Event>, lost: seq<Event>, n: nat)
    requires Placed(taken, returned, pending, lost) && n < |pending|
    ensures Placed(taken, returned + [pending[n]], pending[..n] + pending[n + 1..], lost)
  {
    assert pending == pending[..n] + [pending[n]] + pending[n + 1..];
  }

  /** What was taken meanwhile was set aside in order, but for `last`. */
  ghost predicate SetAside(pending: seq<Event>, pendingNow: seq<Event>, taken: seq<Event>, takenNow: seq<Event>, last: seq<Event>) {
    pending <= pendingNow && takenNow == taken + pendingNow[|pending|..] + last
  }

  lemma SkippedIsSetAside(pending: seq<Event>, taken: seq<Event>, skipped: seq<Event>, last: seq<Event>)
    ensures SetAside(pending, pending + skipped, taken, taken + skipped + last, last)
  {
    assert (pending + skipped)[|pending|..] == skipped;
  }

  class McpClient {
    const json: string -> Json
    var chunks: seq<string>          // what the reader will still deliver
    var buffer: string
    var queuedEvents: seq<Event>
    var pendingEvents: seq<Event>
    ghost var fed: string            // all text read so far
    ghost var shifted: seq<Event>    // events taken off the queue, in order
    ghost var returned: seq<Event>   // events handed to a caller
    ghost var lost: seq<Event>       // events dropped by a JSON error

    /** Taken, queued and still in the buffer: the events of the text so far, in stream order. */
    ghost predicate StreamKept()
      reads this`fed, this`shifted, this`queuedEvents, this`buffer
    {
      && Drain(fed).events == shifted + queuedEvents + Drain(buffer).events
      && Drain(fed).rest == Drain(buffer).rest
    }

    /** And every event taken is in one place: set aside, returned, or lost to a JSON error. */
    ghost predicate Valid()
      reads this
    {
      && StreamKept()
      && Placed(shifted, returned, pendingEvents, lost)
    }

    constructor (json: string -> Json, chunks: seq<string>)
      ensures Valid() && this.json == json && this.chunks == chunks
      ensures fed == "" && returned == [] && lost == [] && pendingEvents == []
    {
      this.json := json;
      this.chunks := chunks;
      buffer, queuedEvents, pendingEvents := "", [], [];
      fed, shifted, returned, lost := "", [], [], [];
    }

    method DrainEvents() returns (events: seq<Event>)
      modifies this`buffer
      ensures events == Drain(old(buffer)).events && buffer == Drain(old(buffer)).rest
    {
      hide ParseEvent, Drain, Blank;
      events := [];
      while Blank(buffer) != |buffer|
        invariant Drain(old(buffer)).events == events + Drain(buffer).events
        invariant Drain(old(buffer)).rest == Drain(buffer).rest
        decreases |buffer|
      {
        var index := Blank(buffer);
        DrainOne(buffer);
        var e := ParseEvent(buffer[..index]);
        assert events + ([e] + Drain(buffer[index + 2..]).events) == (events + [e]) + Drain(buffer[index + 2..]).events;
        events := events + [e];
        buffer := buffer[index + 2..];
      }
      DrainNone(buffer);
      assert events + [] == events;
    }

    /** `ticks` is how many times the clock is found before the deadline. */
    method NextEvent(ticks: nat) returns (next: Next, left: nat)
      requires StreamKept()
      modifies this`chunks, this`buffer, this`queuedEvents, this`fed, this`shifted
      ensures left <= ticks && (next.Delivered? ==> left < ticks)
      ensures fed + Concat(chunks) == old(fed) + Concat(old(chunks))
      ensures StreamKept()
      ensures shifted == if next.Delivered? then old(shifted) + [next.value] else old(shifted)
      ensures ticks > 0 && old(queuedEvents) != [] ==> next == Delivered(old(queuedEvents)[0]) && chunks == old(chunks)
      ensures next.Closed? ==> chunks == [] && queuedEvents == [] && Drain(buffer).events == []
      ensures next.TimedOut? ==> left == 0 && |chunks| + ticks == |old(chunks)|
    {
      hide Drain, Blank;
      left := ticks;
      while left > 0
        invariant left <= ticks && shifted == old(shifted) && |chunks| + ticks == |old(chunks)| + left
        invariant left < ticks ==> old(queuedEvents) == []
        invariant left == ticks ==> queuedEvents == old(queuedEvents) && chunks == old(chunks)
        invariant fed + Concat(chunks) == old(fed) + Concat(old(chunks))
        invariant StreamKept()
      {
        left := left - 1;
        if queuedEvents != [] {
          next := Shift();
          return;
        }
        ghost var b := buffer;
        var events := DrainEvents();
        DrainTwice(b);
        queuedEvents := queuedEvents + events;
        assert (shifted + queuedEvents) + [] == shifted + [] + events;
        assert StreamKept();
        if |events| > 0 {
          next := Shift();
          return;
        }
        if chunks == [] {
          return Closed, left;
        }
        DrainInTwo(fed, chunks[0]);
        assert fed + (chunks[0] + Concat(chunks[1..])) == (fed + chunks[0]) + Concat(chunks[1..]);
        fed := fed + chunks[0];
        buffer := buffer + chunks[0];
        chunks := chunks[1..];
      }
      next := TimedOut;
    }

    method Shift() returns (next: Next)
      requires StreamKept() && queuedEvents != []
      modifies this`queuedEvents, this`shifted
      ensures StreamKept() && next == Delivered(old(queuedEvents)[0]) && shifted == old(shifted) + [next.value]
      ensures queuedEvents == old(queuedEvents)[1..]
    {
      hide Drain;
      var e := queuedEvents[0];
      assert shifted + queuedEvents == (shifted + [e]) + queuedEvents[1..];
      queuedEvents := queuedEvents[1..];
      shifted := shifted + [e];
      next := Delivered(e);
    }

    method WaitForEndpoint(ticks: nat) returns (outcome: Outcome)
      requires Valid()
      modifies this
      ensures Valid() && lost == old(lost) && fed + Concat(chunks) == old(fed) + Concat(old(chunks))
      ensures outcome.StreamClosed? ==> chunks == []
      ensures outcome.Response? ==> outcome.value.event == "endpoint" && returned == old(returned) + [outcome.value]
      ensures !outcome.Response? ==> returned == old(returned) && !outcome.JsonError?
      ensures SetAside(old(pendingEvents), pendingEvents, old(shifted), shifted,
                       if outcome.Response? then [outcome.value] else [])
      ensures forall i :: |old(pendingEvents)| <= i < |pendingEvents| ==> pendingEvents[i].event != "endpoint"
    {
      hide Drain, StreamKept, Concat, Placed, SetAside;
      ghost var skipped: seq<Event> := [];
      var left := ticks;
      while left > 0
        invariant Valid() && lost == old(lost) && returned == old(returned)
        invariant fed + Concat(chunks) == old(fed) + Concat(old(chunks))
        invariant pendingEvents == old(pendingEvents) + skipped && shifted == old(shifted) + skipped
        invariant forall i :: |old(pendingEvents)| <= i < |pendingEvents| ==> pendingEvents[i].event != "endpoint"
      {
        ghost var before := shifted;
        var next;
        next, left := NextEvent(left);
        if !next.Delivered? {
          SkippedIsSetAside(old(pendingEvents), old(shifted), skipped, []);
          assert old(shifted) + skipped + [] == shifted;
          return if next.Closed? then StreamClosed else Timeout;
        }
        OneMorePlaced(before, returned, pendingEvents, lost, next.value);
        if next.value.event == "endpoint" {
          SkippedIsSetAside(old(pendingEvents), old(shifted), skipped, [next.value]);
          returned := returned + [next.value];
          return Response(next.value);
        }
        pendingEvents := pendingEvents + [next.value];
        assert old(pendingEvents) + skipped + [next.value] == old(pendingEvents) + (skipped + [next.value]);
        assert old(shifted) + skipped + [next.value] == old(shifted) + (skipped + [next.value]);
        skipped := skipped + [next.value];
      }
      SkippedIsSetAside(old(pendingEvents), old(shifted), skipped, []);
      assert old(shifted) + skipped + [] == shifted;
      outcome := Timeout;
    }

    /** pendingEvents.findIndex(...), with the length for -1. */
    method FindPending(id: int) returns (index: nat)
      ensures index == FirstAnswer(json, pendingEvents, id)
    {
      index := 0;
      while index < |pendingEvents| && !Answers(json, pendingEvents[index], id)
        invariant index <= |pendingEvents|
        invariant forall i :: 0 <= i < index ==> !Answers(json, pendingEvents[i], id)
      {
        index := index + 1;
      }
    }

    /** pendingEvents.splice(index, 1), handed to the caller. */
    method TakePending(index: nat) returns (e: Event)
      requires Valid() && index < |pendingEvents|
      modifies this`pendingEvents, this`returned
      ensures Valid() && e == old(pendingEvents)[index] && returned == old(returned) + [e]
      ensures pendingEvents == old(pendingEvents)[..index] + old(pendingEvents)[index + 1..]
    {
      hide StreamKept, Placed;
      e := pendingEvents[index];
      HandedOverPlaced(shifted, returned, pendingEvents, lost, index);
      pendingEvents := pendingEvents[..index] + pendingEvents[index + 1..];
      returned := returned + [e];
    }

    /** What becomes of a message taken off the queue while waiting for response `id`. */
    method Receive(e: Event, id: int, ghost before: seq<Event>) returns (outcome: Option<Outcome>)
      requires StreamKept() && shifted == before + [e] && Placed(before, returned, pendingEvents, lost)
      modifies this`pendingEvents, this`returned, this`lost
      ensures Valid()
      ensures outcome == (
        if e.event != "message" then None
        else if json(e.data).Malformed? then Some(JsonError(e))
        else if MatchesId(json, e, id) then Some(Response(e)) else None)
      ensures returned == if outcome == Some(Response(e)) then old(returned) + [e] else old(returned)
      ensures lost == if outcome == Some(JsonError(e)) then old(lost) + [e] else old(lost)
      ensures pendingEvents == if outcome == None then old(pendingEvents) + [e] else old(pendingEvents)
    {
      hide StreamKept, MatchesId, Placed;
      OneMorePlaced(before, returned, pendingEvents, lost, e);
      if e.event == "message" {
        if json(e.data).Malformed? {
          lost := lost + [e];
          return Some(JsonError(e));
        }
        if MatchesId(json, e, id) {
          returned := returned + [e];
          return Some(Response(e));
        }
      }
      pendingEvents := pendingEvents + [e];
      outcome := None;
    }

    /**
     * The first answer set aside earlier if there is one; else the first in the stream, with what came before
     * it set aside in order. An event is lost exactly when its JSON cannot be parsed.
     */
    method WaitForResponse(id: int, ticks: nat) returns (outcome: Outcome)
      requires Valid()
      modifies this
      ensures Valid() && fed + Concat(chunks) == old(fed) + Concat(old(chunks))
      ensures outcome.StreamClosed? ==> chunks == []
      ensures outcome.Response? ==> Answers(json, outcome.value, id) && returned == old(returned) + [outcome.value]
      ensures !outcome.Response? ==> returned == old(returned)
      ensures outcome.JsonError? ==> outcome.value.event == "message" && json(outcome.value.data).Malformed?
      ensures lost == if outcome.JsonError? then old(lost) + [outcome.value] else old(lost)
      ensures var n := FirstAnswer(json, old(pendingEvents), id);
        if ticks > 0 && n < |old(pendingEvents)| then
          && outcome == Response(old(pendingEvents)[n]) && shifted == old(shifted)
          && pendingEvents == old(pendingEvents)[..n] + old(pendingEvents)[n + 1..]
        else
          && SetAside(old(pendingEvents), pendingEvents, old(shifted), shifted,
                      if outcome.Response? || outcome.JsonError? then [outcome.value] else [])
          && forall i :: |old(pendingEvents)| <= i < |pendingEvents| ==> !Answers(json, pendingEvents[i], id)
    {
      hide Drain, StreamKept, Concat, Answers, Placed, SetAside;
      ghost var skipped: seq<Event> := [];
      var left := ticks;
      while left > 0
        invariant Valid() && lost == old(lost) && returned == old(returned)
        invariant fed + Concat(chunks) == old(fed) + Concat(old(chunks))
        invariant pendingEvents == old(pendingEvents) + skipped && shifted == old(shifted) + skipped
        invariant forall i :: 0 <= i < |skipped| ==> !Answers(json, skipped[i], id)
        invariant left < ticks ==> FirstAnswer(json, old(pendingEvents), id) == |old(pendingEvents)|
        invariant left <= ticks && (left == ticks ==> skipped == [])
      {
        var index := FindPending(id);
        NoneSkippedAnswers(json, old(pendingEvents), skipped, id);
        if index < |pendingEvents| {
          var e := TakePending(index);
          return Response(e);
        }
        ghost var before := shifted;
        var next;
        next, left := NextEvent(left);
        if !next.Delivered? {
          SkippedIsSetAside(old(pendingEvents), old(shifted), skipped, []);
          assert old(shifted) + skipped + [] == shifted;
          return if next.Closed? then StreamClosed else Timeout;
        }
        var received := Receive(next.value, id, before);
        if received.Some? {
          SkippedIsSetAside(old(pendingEvents), old(shifted), skipped, [next.value]);
          ReceivedAnswers(json, next.value, id);
          return received.value;
        }
        assert old(pendingEvents) + skipped + [next.value] == old(pendingEvents) + (skipped + [next.value]);
        assert old(shifted) + skipped + [next.value] == old(shifted) + (skipped + [next.value]);
        ReceivedAnswers(json, next.value, id);
        skipped := skipped + [next.value];
      }
      SkippedIsSetAside(old(pendingEvents), old(shifted), skipped, []);
      assert old(shifted) + skipped + [] == shifted;
      outcome := Timeout;
    }
  }

  lemma ReceivedAnswers(json: string -> Json, e: Event, id: int)
    ensures Answers(json, e, id) <==> e.event == "message" && !json(e.data).Malformed? && MatchesId(json, e, id)
  {
  }

  lemma NoneSkippedAnswers(json: string -> Json, pending: seq<Event>, skipped: seq<Event>, id: int)
    requires forall i :: 0 <= i < |skipped| ==> !Answers(json, skipped[i], id)
    ensures FirstAnswer(json, pending + skipped, id) ==
      if FirstAnswer(json, pending, id) < |pending| then FirstAnswer(json, pending, id) else |pending| + |skipped|
  {
    hide Answers;
    var all := pending + skipped;
    var n := FirstAnswer(json, pending, id);
    assert forall i :: 0 <= i < |all| ==> all[i] == if i < |pending| then pending[i] else skipped[i - |pending|];
    var m := FirstAnswer(json, all, id);
    if n < |pending| {
      assert all[n] == pending[n];
    }
  }

  /** What has been taken off the queue is a prefix of the events of the whole stream, in stream order. */
  lemma DeliveredInStreamOrder(fed: string, ahead: string, shifted: seq<Event>, rest: seq<Event>)
    requires Drain(fed).events == shifted + rest
    ensures shifted <= Drain(fed + ahead).events
  {
    DrainInTwo(fed, ahead);
  }
}
