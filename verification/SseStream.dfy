/**
 * The analytics stream on the wire: the server's printer (apps/api/src/sse/connection-manager.ts) and the
 * browser's incremental parser (apps/web/src/features/analytics/hooks/use-analytics-stream.ts).
 *
 * The format is a subset of the event stream format of the WHATWG HTML Living Standard, sections 9.2.5 and
 * 9.2.6. The stream is modelled after UTF-8 decoding, as characters.
 */
module SseStream {
  import opened Types

  // ---------------------------------------------------------------- text helpers

  /** text.startsWith(prefix) */
  predicate StartsWith(text: string, prefix: string) {
    prefix <= text
  }

  /** Position of the first blank line at or after `from`, or |text|. */
  function FindBreak(text: string, from: nat): (i: nat)
    requires from <= |text|
    ensures from <= i <= |text|
    ensures i < |text| ==> i + 2 <= |text| && text[i] == '\n' && text[i + 1] == '\n'
    decreases |text| - from
  {
    if from + 2 > |text| then |text|
    else if text[from] == '\n' && text[from + 1] == '\n' then from
    else FindBreak(text, from + 1)
  }

  /** text.split('\n\n'): the pieces between blank lines; the last one is what follows the last of them. */
  function SplitFrames(text: string): (pieces: seq<string>)
    ensures pieces != []
    decreases |text|
  {
    var i := FindBreak(text, 0);
    if i == |text| then [text] else [text[..i]] + SplitFrames(text[i + 2..])
  }

  function AllButLast(pieces: seq<string>): seq<string>
    requires pieces != []
  {
    pieces[..|pieces| - 1]
  }

  function Last(pieces: seq<string>): string
    requires pieces != []
  {
    pieces[|pieces| - 1]
  }

  /** text.split('\n') */
  function SplitLines(text: string): (lines: seq<string>)
    ensures lines != []
  {
    if text == "" then [""]
    else
      var rest := SplitLines(text[1..]);
      if text[0] == '\n' then [""] + rest else [[text[0]] + rest[0]] + rest[1..]
  }

  /** What String.prototype.trim strips: the WhiteSpace and LineTerminator characters of ECMAScript. */
  predicate IsSpace(c: char) {
    || '\t' <= c <= '\r'
    || c in {' ', '\U{00A0}', '\U{1680}', '\U{2028}', '\U{2029}', '\U{202F}', '\U{205F}', '\U{3000}', '\U{FEFF}'}
    || '\U{2000}' <= c <= '\U{200A}'
  }

  function TrimStart(text: string): string {
    if text != "" && IsSpace(text[0]) then TrimStart(text[1..]) else text
  }

  function TrimEnd(text: string): string {
    if text != "" && IsSpace(text[|text| - 1]) then TrimEnd(text[..|text| - 1]) else text
  }

  function Trim(text: string): string {
    TrimEnd(TrimStart(text))
  }

  ghost predicate AllSpaces(text: string) {
    forall k :: 0 <= k < |text| ==> IsSpace(text[k])
  }

  lemma {:induction false} TrimStartDrops(text: string) returns (i: nat)
    ensures i <= |text| && TrimStart(text) == text[i..] && AllSpaces(text[..i])
    ensures i < |text| ==> !IsSpace(text[i])
  {
    if text != "" && IsSpace(text[0]) {
      var rest := TrimStartDrops(text[1..]);
      i := rest + 1;
      assert text[i..] == text[1..][rest..] && text[..i] == [text[0]] + text[1..][..rest];
    } else {
      i := 0;
    }
  }

  lemma {:induction false} TrimEndDrops(text: string) returns (j: nat)
    ensures j <= |text| && TrimEnd(text) == text[..j] && AllSpaces(text[j..])
    ensures 0 < j ==> !IsSpace(text[j - 1])
  {
    if text != "" && IsSpace(text[|text| - 1]) {
      j := TrimEndDrops(text[..|text| - 1]);
      assert text[..j] == text[..|text| - 1][..j] && text[j..] == text[..|text| - 1][j..] + [text[|text| - 1]];
    } else {
      j := |text|;
    }
  }

  /** Trimming takes the blanks off both ends and nothing else. */
  lemma TrimDropsBlanks(text: string) returns (i: nat, j: nat)
    ensures i <= j <= |text| && Trim(text) == text[i..j] && AllSpaces(text[..i]) && AllSpaces(text[j..])
    ensures i < j ==> !IsSpace(text[i]) && !IsSpace(text[j - 1])
  {
    i := TrimStartDrops(text);
    var k := TrimEndDrops(text[i..]);
    j := i + k;
    assert text[i..j] == text[i..][..k] && text[j..] == text[i..][k..];
  }

  const EVENT: string := "event:"

  /** lines.find(line => line.startsWith('event:'))?.slice(6).trim() */
  function EventName(lines: seq<string>): Option<string> {
    if lines == [] then None
    else if StartsWith(lines[0], EVENT) then Some(Trim(lines[0][|EVENT|..]))
    else EventName(lines[1..])
  }

  function FrameEvent(frame: string): Option<string> {
    EventName(SplitLines(frame))
  }

  ghost predicate IsEventLine(line: string) {
    |line| >= 6 && line[..6] == "event:"
  }

  /** The name is what follows the colon on the first event line, trimmed; a frame without such a line has none. */
  lemma {:induction false} NameOnFirstEventLine(lines: seq<string>, i: nat)
    ensures (forall k :: 0 <= k < |lines| ==> !IsEventLine(lines[k])) ==> EventName(lines) == None
    ensures i < |lines| && IsEventLine(lines[i]) && (forall k :: 0 <= k < i ==> !IsEventLine(lines[k])) ==>
              EventName(lines) == Some(Trim(lines[i][6..]))
  {
    if lines != [] {
      assert IsEventLine(lines[0]) <==> StartsWith(lines[0], EVENT);
      assert forall k :: 0 <= k < |lines| - 1 ==> lines[1..][k] == lines[k + 1];
      if i > 0 {
        NameOnFirstEventLine(lines[1..], i - 1);
      } else {
        NameOnFirstEventLine(lines[1..], 0);
      }
    }
  }

  // ---------------------------------------------------------------- the client as a function of its frames

  datatype Status = Connecting | Connected | Disconnected | Error

  /**
   * What the hook has done: the events it dispatched, the query refreshes, the reconnects scheduled with their
   * delays, and whether a shutdown ended the read loop.
   */
  datatype View = View(
    status: Status,
    retryDelay: nat,
    refreshes: nat,
    reconnects: seq<nat>,
    dispatched: seq<string>,
    stopped: bool)

  function ScheduleReconnect(v: View): View {
    v.(reconnects := v.reconnects + [v.retryDelay], retryDelay := Min(v.retryDelay * 2, 30_000))
  }

  /** The body of the frame loop. */
  function React(v: View, event: Option<string>): View {
    match event
    case None => v
    case Some(name) =>
      var w := v.(dispatched := v.dispatched + [name]);
      if name == "connected" then w.(status := Connected, retryDelay := 1000)
      else if name == "analytics" then w.(refreshes := v.refreshes + 1)
      else if name == "shutdown" then ScheduleReconnect(w.(status := Disconnected, stopped := true))
      else w
  }

  /** The frame loop: it returns at a shutdown. */
  function ReactAll(v: View, frames: seq<string>): View
    decreases |frames|
  {
    if frames == [] || v.stopped then v else ReactAll(React(v, FrameEvent(frames[0])), frames[1..])
  }

  lemma {:induction false} ReactConcat(v: View, a: seq<string>, b: seq<string>)
    ensures ReactAll(v, a + b) == ReactAll(ReactAll(v, a), b)
    decreases |a|
  {
    if a == [] {
      assert a + b == b;
    } else if v.stopped {
    } else {
      assert (a + b)[1..] == a[1..] + b;
      ReactConcat(React(v, FrameEvent(a[0])), a[1..], b);
    }
  }

  // ---------------------------------------------------------------- chunks

  lemma {:induction false} FindBreakStable(a: string, b: string, from: nat)
    requires from <= |a| && FindBreak(a, from) < |a|
    ensures FindBreak(a + b, from) == FindBreak(a, from)
    decreases |a| - from
  {
    if !(a[from] == '\n' && a[from + 1] == '\n') {
      FindBreakStable(a, b, from + 1);
    }
  }

  /** A complete first frame of a prefix is the first frame of the whole. */
  lemma SplitFirst(a: string, b: string)
    requires FindBreak(a, 0) < |a|
    ensures var i := FindBreak(a, 0);
            && SplitFrames(a) == [a[..i]] + SplitFrames(a[i + 2..])
            && SplitFrames(a + b) == [a[..i]] + SplitFrames(a[i + 2..] + b)
  {
    var i := FindBreak(a, 0);
    FindBreakStable(a, b, 0);
    assert (a + b)[..i] == a[..i];
    assert (a + b)[i + 2..] == a[i + 2..] + b;
  }

  lemma PrependedFrame(first: string, tail: seq<string>, pieces: seq<string>, more: seq<string>)
    requires tail != [] && pieces == [first] + tail
    ensures Last(pieces) == Last(tail)
    ensures [first] + (AllButLast(tail) + more) == AllButLast(pieces) + more
  {
  }

  /** Splitting can be resumed: what is after the last blank line of a prefix is split together with the rest. */
  lemma {:induction false} SplitResumes(a: string, b: string)
    ensures SplitFrames(a + b) == AllButLast(SplitFrames(a)) + SplitFrames(Last(SplitFrames(a)) + b)
    decreases |a|
  {
    var i := FindBreak(a, 0);
    if i < |a| {
      var pieces, tail := SplitFrames(a), SplitFrames(a[i + 2..]);
      SplitFirst(a, b);
      SplitResumes(a[i + 2..], b);
      PrependedFrame(a[..i], tail, pieces, SplitFrames(Last(tail) + b));
    } else {
      assert AllButLast([a]) == [];
    }
  }

  /** One read: append the chunk, take the complete frames, keep the rest. */
  function Feed(v: View, buffer: string, chunk: string): (View, string) {
    var pieces := SplitFrames(buffer + chunk);
    (ReactAll(v, AllButLast(pieces)), Last(pieces))
  }

  /** The read loop, which ends at a shutdown. */
  function FeedAll(v: View, buffer: string, chunks: seq<string>): (View, string)
    decreases |chunks|
  {
    if chunks == [] || v.stopped then (v, buffer)
    else
      var (w, rest) := Feed(v, buffer, chunks[0]);
      FeedAll(w, rest, chunks[1..])
  }

  function Join(chunks: seq<string>): string {
    if chunks == [] then "" else chunks[0] + Join(chunks[1..])
  }

  /** However the stream is cut into chunks, the client does what it would do on the whole stream at once. */
  lemma {:induction false} ChunkingDoesNotMatter(v: View, buffer: string, chunks: seq<string>)
    requires FindBreak(buffer, 0) == |buffer|
    ensures var pieces := SplitFrames(buffer + Join(chunks));
            var (w, rest) := FeedAll(v, buffer, chunks);
            && w == ReactAll(v, AllButLast(pieces))
            && (!w.stopped ==> rest == Last(pieces))
    decreases |chunks|
  {
    if chunks == [] {
      assert buffer + "" == buffer;
      assert SplitFrames(buffer) == [buffer];
      assert AllButLast([buffer]) == [];
    } else if v.stopped {
    } else {
      var text := buffer + chunks[0];
      SplitResumes(text, Join(chunks[1..]));
      assert buffer + Join(chunks) == text + Join(chunks[1..]);
      var pieces := SplitFrames(text);
      LastHasNoBreak(text);
      var w := ReactAll(v, AllButLast(pieces));
      ChunkingDoesNotMatter(w, Last(pieces), chunks[1..]);
      var later := SplitFrames(Last(pieces) + Join(chunks[1..]));
      ReactConcat(v, AllButLast(pieces), AllButLast(later));
      assert AllButLast(AllButLast(pieces) + later) == AllButLast(pieces) + AllButLast(later);
    }
  }

  lemma {:induction false} LastHasNoBreak(text: string)
    ensures var rest := Last(SplitFrames(text)); FindBreak(rest, 0) == |rest|
    decreases |text|
  {
    var i := FindBreak(text, 0);
    if i < |text| {
      LastHasNoBreak(text[i + 2..]);
      assert Last(SplitFrames(text)) == Last(SplitFrames(text[i + 2..]));
    }
  }

  // ---------------------------------------------------------------- the printer

  datatype Message = Event(name: string, data: string) | Ping

  predicate OneLine(text: string) {
    '\n' !in text
  }

  /** Event names are one line without surrounding blanks; JSON.stringify prints one line. */
  predicate Printable(m: Message) {
    m.Ping? || (OneLine(m.name) && Trim(m.name) == m.name && OneLine(m.data))
  }

  function Frame(m: Message): string {
    match m
    case Ping => ":ping"
    case Event(name, data) => "event: " + name + "\n" + "data: " + data
  }

  /** What is written to the response for one message. */
  function Print(m: Message): string {
    Frame(m) + "\n\n"
  }

  function PrintAll(ms: seq<Message>): string {
    if ms == [] then "" else Print(ms[0]) + PrintAll(ms[1..])
  }

  function FramesOf(ms: seq<Message>): seq<string> {
    if ms == [] then [] else [Frame(ms[0])] + FramesOf(ms[1..])
  }

  /** No line of the text is empty, so no blank line begins in it. */
  predicate Unbroken(text: string) {
    forall i :: 0 <= i < |text| && text[i] == '\n' ==> i + 1 < |text| && text[i + 1] != '\n'
  }

  lemma FrameIsUnbroken(m: Message)
    requires Printable(m)
    ensures Unbroken(Frame(m))
  {
    match m
    case Ping =>
    case Event(name, data) =>
      var head, tail := "event: " + name, "data: " + data;
      var f := head + "\n" + tail;
      assert f == Frame(m);
      forall i | 0 <= i < |f| && f[i] == '\n' ensures i + 1 < |f| && f[i + 1] != '\n' {
        LineBreakPosition(head, tail, i);
        assert f[|head| + 1] == tail[0] == 'd';
      }
  }

  /** Two lines joined: the only line break is the one between them. */
  lemma LineBreakPosition(head: string, tail: string, i: nat)
    requires OneLine(head) && OneLine(tail)
    requires var f := head + "\n" + tail; i < |f| && f[i] == '\n'
    ensures i == |head|
  {
    var f := head + "\n" + tail;
    assert forall j :: 0 <= j < |head| ==> f[j] == head[j] && head[j] in head;
    assert forall j :: |head| < j < |f| ==> f[j] == tail[j - |head| - 1] && tail[j - |head| - 1] in tail;
  }

  lemma {:induction false} BreakAfterFrame(frame: string, rest: string, from: nat)
    requires Unbroken(frame) && from <= |frame|
    ensures FindBreak(frame + "\n\n" + rest, from) == |frame|
    decreases |frame| - from
  {
    var text := frame + "\n\n" + rest;
    assert text[|frame|] == '\n' && text[|frame| + 1] == '\n';
    if from < |frame| {
      assert text[from] == frame[from];
      if text[from] == '\n' {
        assert text[from + 1] == frame[from + 1] != '\n';
      }
      BreakAfterFrame(frame, rest, from + 1);
    }
  }

  lemma {:induction false} SplitOfPrint(ms: seq<Message>)
    requires forall m <- ms :: Printable(m)
    ensures SplitFrames(PrintAll(ms)) == FramesOf(ms) + [""]
  {
    if ms != [] {
      var frame, rest := Frame(ms[0]), PrintAll(ms[1..]);
      var text := PrintAll(ms);
      assert text == frame + "\n\n" + rest;
      FrameIsUnbroken(ms[0]);
      BreakAfterFrame(frame, rest, 0);
      assert text[..|frame|] == frame && text[|frame| + 2..] == rest;
      SplitOfPrint(ms[1..]);
    }
  }

  lemma {:induction false} SplitLinesOfOneLine(line: string)
    requires OneLine(line)
    ensures SplitLines(line) == [line]
  {
    if line != "" {
      assert line == [line[0]] + line[1..];
      SplitLinesOfOneLine(line[1..]);
    }
  }

  lemma {:induction false} SplitLinesOfTwo(a: string, b: string)
    requires OneLine(a) && OneLine(b)
    ensures SplitLines(a + "\n" + b) == [a, b]
  {
    var text := a + "\n" + b;
    if a == "" {
      assert text[1..] == b;
      SplitLinesOfOneLine(b);
    } else {
      assert text[1..] == a[1..] + "\n" + b;
      SplitLinesOfTwo(a[1..], b);
      assert a == [a[0]] + a[1..];
    }
  }

  /** The lines of a frame, as section 9.2.6 has them: the event field, the data field, or a comment. */
  lemma FrameLines(m: Message)
    requires Printable(m)
    ensures SplitLines(Frame(m)) == if m.Ping? then [":ping"] else ["event: " + m.name, "data: " + m.data]
    ensures Print(m) == Frame(m) + "\n\n"
  {
    match m
    case Ping =>
      SplitLinesOfOneLine(":ping");
    case Event(name, data) =>
      var head, tail := "event: " + name, "data: " + data;
      assert OneLine(head) && OneLine(tail);
      assert Frame(m) == head + "\n" + tail;
      SplitLinesOfTwo(head, tail);
  }

  /** The parser reads back the name the printer wrote, and reads no event in a ping. */
  lemma FrameEventOfFrame(m: Message)
    requires Printable(m)
    ensures FrameEvent(Frame(m)) == if m.Ping? then None else Some(m.name)
  {
    match m
    case Ping =>
      SplitLinesOfOneLine(":ping");
      assert SplitLines(":ping")[1..] == [];
      assert !StartsWith(":ping", EVENT) by {
        assert ":ping"[0] != EVENT[0];
      }
    case Event(name, data) =>
      var head, tail := "event: " + name, "data: " + data;
      assert OneLine(head) && OneLine(tail);
      assert Frame(m) == head + "\n" + tail;
      SplitLinesOfTwo(head, tail);
      assert "event: " == EVENT + " ";
      assert head == EVENT + (" " + name);
      assert head[|EVENT|..] == " " + name;
      assert (" " + name)[1..] == name;
      assert TrimStart(" " + name) == TrimStart(name);
  }

  /** The event names of a stream, up to and including the first shutdown. */
  function NamesUntilShutdown(ms: seq<Message>): seq<string> {
    if ms == [] then []
    else if ms[0].Ping? then NamesUntilShutdown(ms[1..])
    else if ms[0].name == "shutdown" then [ms[0].name]
    else [ms[0].name] + NamesUntilShutdown(ms[1..])
  }

  lemma ReactFirst(v: View, ms: seq<Message>)
    requires ms != [] && !v.stopped
    ensures ReactAll(v, FramesOf(ms)) == ReactAll(React(v, FrameEvent(Frame(ms[0]))), FramesOf(ms[1..]))
  {
    var frames := FramesOf(ms);
    assert frames == [Frame(ms[0])] + FramesOf(ms[1..]);
    assert frames[0] == Frame(ms[0]);
    assert frames[1..] == FramesOf(ms[1..]);
  }

  function CountOf(names: seq<string>, name: string): nat {
    if names == [] then 0 else (if names[0] == name then 1 else 0) + CountOf(names[1..], name)
  }

  /** What dispatching these names, of which only the last may be a shutdown, does to the client. */
  ghost predicate ViewAfter(v: View, w: View, names: seq<string>) {
    && w.dispatched == v.dispatched + names
    && w.refreshes == v.refreshes + CountOf(names, "analytics")
    && (w.stopped <==> "shutdown" in names)
    && (if w.stopped then
          w.status == Disconnected && |w.reconnects| == |v.reconnects| + 1 && v.reconnects <= w.reconnects
        else
          && w.reconnects == v.reconnects
          && w.status == (if "connected" in names then Connected else v.status)
          && w.retryDelay == (if "connected" in names then 1000 else v.retryDelay))
  }

  /**
   * What a stream does to the client: every event is dispatched up to the first shutdown, with one refresh per
   * update, and after a shutdown one reconnect and no more reading.
   */
  lemma {:induction false} ClientViewOfStream(v: View, ms: seq<Message>)
    requires forall m <- ms :: Printable(m)
    requires !v.stopped
    ensures ViewAfter(v, ReactAll(v, FramesOf(ms)), NamesUntilShutdown(ms))
    decreases |ms|
  {
    if ms != [] {
      var event := if ms[0].Ping? then None else Some(ms[0].name);
      FrameEventOfFrame(ms[0]);
      var w := React(v, event);
      ReactFirst(v, ms);
      ReactMeans(v, event);
      if !w.stopped {
        ClientViewOfStream(w, ms[1..]);
        NamesAfterFirst(ms);
        ViewJoins(v, w, ReactAll(w, FramesOf(ms[1..])), if event.Some? then [event.value] else [], NamesUntilShutdown(ms[1..]));
      }
    }
  }

  lemma ReactMeans(v: View, event: Option<string>)
    requires !v.stopped
    ensures ViewAfter(v, React(v, event), if event.Some? then [event.value] else [])
  {
    DistinctNames();
    if event.Some? {
      assert [event.value][1..] == [];
    }
  }

  lemma ViewJoins(v: View, w: View, x: View, first: seq<string>, rest: seq<string>)
    requires ViewAfter(v, w, first) && ViewAfter(w, x, rest) && !w.stopped
    requires CountOf(first + rest, "analytics") == CountOf(first, "analytics") + CountOf(rest, "analytics")
    requires "shutdown" in first + rest <==> "shutdown" in first || "shutdown" in rest
    requires "connected" in first + rest <==> "connected" in first || "connected" in rest
    ensures ViewAfter(v, x, first + rest)
  {
    assert v.dispatched + (first + rest) == (v.dispatched + first) + rest;
  }

  lemma DistinctNames()
    ensures "connected" != "analytics" && "connected" != "shutdown" && "analytics" != "shutdown"
  {
    assert "connected"[0] == 'c' && "analytics"[0] == 'a' && "shutdown"[0] == 's';
  }

  lemma NamesAfterFirst(ms: seq<Message>)
    requires ms != [] && (ms[0].Ping? || ms[0].name != "shutdown")
    ensures var first := if ms[0].Ping? then [] else [ms[0].name];
            var rest := NamesUntilShutdown(ms[1..]);
            && NamesUntilShutdown(ms) == first + rest
            && (forall name :: CountOf(first + rest, name) == CountOf(first, name) + CountOf(rest, name))
            && (forall name :: name in first + rest <==> name in first || name in rest)
  {
    if ms[0].Event? {
      var rest := NamesUntilShutdown(ms[1..]);
      assert ([ms[0].name] + rest)[1..] == rest;
      assert [ms[0].name][1..] == [];
    } else {
      assert [] + NamesUntilShutdown(ms[1..]) == NamesUntilShutdown(ms[1..]);
    }
  }

  /**
   * Reading back what the server wrote, cut into chunks at any positions, the client dispatches exactly the
   * names of the events sent, in order, pings ignored, up to the first shutdown.
   */
  lemma ClientReadsWhatServerSent(v: View, ms: seq<Message>, chunks: seq<string>)
    requires !v.stopped && (forall m <- ms :: Printable(m))
    requires Join(chunks) == PrintAll(ms)
    ensures FeedAll(v, "", chunks).0.dispatched == v.dispatched + NamesUntilShutdown(ms)
  {
    ChunkingDoesNotMatter(v, "", chunks);
    assert "" + Join(chunks) == PrintAll(ms);
    SplitOfPrint(ms);
    assert AllButLast(FramesOf(ms) + [""]) == FramesOf(ms);
    ClientViewOfStream(v, ms);
  }

  // ---------------------------------------------------------------- a stream read so far

  /** How many messages are complete within the first n characters of the stream. */
  function Complete(ms: seq<Message>, n: nat): (k: nat)
    ensures k <= |ms|
  {
    if ms == [] || n < |Print(ms[0])| then 0 else 1 + Complete(ms[1..], n - |Print(ms[0])|)
  }

  lemma {:induction false} CompleteIsLargest(ms: seq<Message>, n: nat)
    ensures var k := Complete(ms, n);
            |PrintAll(ms[..k])| <= n && (k < |ms| ==> n < |PrintAll(ms[..k + 1])|)
  {
    if ms != [] && |Print(ms[0])| <= n {
      CompleteIsLargest(ms[1..], n - |Print(ms[0])|);
      var k := Complete(ms, n);
      assert ms[..k][1..] == ms[1..][..k - 1];
      if k < |ms| {
        assert ms[..k + 1][1..] == ms[1..][..k];
      }
    } else if ms != [] {
      assert ms[..1][1..] == [];
    }
  }

  /** No blank line ends within a frame. */
  lemma {:induction false} NoBreakYet(frame: string, text: string, from: nat)
    requires Unbroken(frame) && text <= frame + "\n\n" && |text| < |frame| + 2 && from <= |text|
    ensures FindBreak(text, from) == |text|
    decreases |text| - from
  {
    if from + 2 <= |text| {
      assert text[from] == frame[from];
      if text[from] == '\n' {
        assert text[from + 1] == (frame + "\n\n")[from + 1] == frame[from + 1];
      }
      NoBreakYet(frame, text, from + 1);
    }
  }

  lemma UnfinishedFrame(m: Message, text: string)
    requires Printable(m) && text <= Print(m) && |text| < |Print(m)|
    ensures AllButLast(SplitFrames(text)) == []
  {
    FrameIsUnbroken(m);
    NoBreakYet(Frame(m), text, 0);
    assert SplitFrames(text) == [text];
  }

  lemma FinishedFrame(m: Message, text: string)
    requires Printable(m) && Print(m) <= text
    ensures AllButLast(SplitFrames(text)) == [Frame(m)] + AllButLast(SplitFrames(text[|Print(m)|..]))
  {
    FrameIsUnbroken(m);
    var frame, rest := Frame(m), text[|Print(m)|..];
    assert text == frame + "\n\n" + rest;
    BreakAfterFrame(frame, rest, 0);
    assert text[..|frame|] == frame && text[|frame| + 2..] == rest;
    PrependedFrame(frame, SplitFrames(rest), SplitFrames(text), []);
  }

  lemma CutText(first: string, later: string, text: string)
    requires text <= first + later
    ensures if |text| < |first| then text <= first else first <= text && text[|first|..] <= later
  {
  }

  /** What has been read splits into the frames that are complete and an unfinished rest. */
  lemma {:induction false} SplitOfPrefix(ms: seq<Message>, text: string)
    requires (forall m <- ms :: Printable(m)) && text <= PrintAll(ms)
    ensures AllButLast(SplitFrames(text)) == FramesOf(ms[..Complete(ms, |text|)])
    decreases |ms|
  {
    if ms == [] {
      assert text == "" && SplitFrames("") == [""];
      assert AllButLast([""]) == [];
    } else {
      var k := Complete(ms, |text|);
      CutText(Print(ms[0]), PrintAll(ms[1..]), text);
      if |text| < |Print(ms[0])| {
        UnfinishedFrame(ms[0], text);
        assert ms[..k] == [];
      } else {
        var rest := text[|Print(ms[0])|..];
        FinishedFrame(ms[0], text);
        SplitOfPrefix(ms[1..], rest);
        FirstOfCut(ms, k);
      }
    }
  }

  lemma FirstOfCut(ms: seq<Message>, k: nat)
    requires 1 <= k <= |ms|
    ensures FramesOf(ms[..k]) == [Frame(ms[0])] + FramesOf(ms[1..][..k - 1])
  {
    assert ms[..k][1..] == ms[1..][..k - 1];
  }

  /** At any point of a stream, the client has dispatched exactly the events whose frames have arrived completely. */
  lemma ClientReadsWhatArrived(v: View, ms: seq<Message>, chunks: seq<string>)
    requires !v.stopped && (forall m <- ms :: Printable(m))
    requires Join(chunks) <= PrintAll(ms)
    ensures var arrived := ms[..Complete(ms, |Join(chunks)|)];
            FeedAll(v, "", chunks).0.dispatched == v.dispatched + NamesUntilShutdown(arrived)
  {
    var arrived := ms[..Complete(ms, |Join(chunks)|)];
    ChunkingDoesNotMatter(v, "", chunks);
    assert "" + Join(chunks) == Join(chunks);
    SplitOfPrefix(ms, Join(chunks));
    ClientViewOfStream(v, arrived);
  }

  /** n failures in a row, each scheduling the next attempt. */
  function AfterFailures(v: View, n: nat): View {
    if n == 0 then v else ScheduleReconnect(AfterFailures(v, n - 1))
  }

  /** The delays of successive failures double from the current one, up to 30 seconds. */
  lemma {:induction false} DelaysDouble(v: View, n: nat)
    requires 1000 <= v.retryDelay <= 30_000
    ensures var delays := AfterFailures(v, n).reconnects;
            && |delays| == |v.reconnects| + n && v.reconnects <= delays
            && (forall i :: |v.reconnects| <= i < |delays| ==> 1000 <= delays[i] <= 30_000)
            && (n > 0 ==> delays[|v.reconnects|] == v.retryDelay)
            && (forall i :: |v.reconnects| <= i < |delays| - 1 ==> delays[i + 1] == Min(2 * delays[i], 30_000))
            && 1000 <= AfterFailures(v, n).retryDelay <= 30_000
            && (n > 0 ==> AfterFailures(v, n).retryDelay == Min(2 * delays[|delays| - 1], 30_000))
            && (n == 0 ==> AfterFailures(v, n).retryDelay == v.retryDelay)
  {
    if n > 0 {
      DelaysDouble(v, n - 1);
    }
  }

  // ---------------------------------------------------------------- the hook

  class AnalyticsStream {
    var status: Status
    var retryDelay: nat
    var buffer: string
    var cancelled: bool
    var refreshes: nat
    var reconnects: seq<nat>
    var stopped: bool
    ghost var dispatched: seq<string>

    ghost function State(): View
      reads this
    {
      View(status, retryDelay, refreshes, reconnects, dispatched, stopped)
    }

    constructor ()
      ensures State() == View(Disconnected, 1000, 0, [], [], false) && buffer == "" && !cancelled
    {
      status, retryDelay, buffer, cancelled := Disconnected, 1000, "", false;
      refreshes, reconnects, stopped, dispatched := 0, [], false, [];
    }

    method Reconnect()
      modifies this`retryDelay, this`reconnects
      ensures !cancelled ==> State() == ScheduleReconnect(old(State()))
      ensures cancelled ==> State() == old(State())
    {
      if cancelled {
        return;
      }
      var delay := retryDelay;
      retryDelay := Min(delay * 2, 30_000);
      reconnects := reconnects + [delay];
    }

    /** connect(): a fresh buffer and a new read loop. */
    method Connect()
      modifies this
      ensures cancelled == old(cancelled)
      ensures cancelled ==> State() == old(State()) && buffer == old(buffer)
      ensures !cancelled ==> State() == old(State()).(status := Connecting, stopped := false) && buffer == ""
    {
      if cancelled {
        return;
      }
      status, buffer, stopped := Connecting, "", false;
    }

    /** One turn of the read loop. A cancelled stream is left without touching anything. */
    method OnChunk(chunk: string)
      requires !stopped
      modifies this
      ensures cancelled == old(cancelled)
      ensures cancelled ==> State() == old(State()) && buffer == old(buffer)
      ensures !cancelled ==> (State(), buffer) == Feed(old(State()), old(buffer), chunk)
    {
      if cancelled {
        return;
      }
      buffer := buffer + chunk;
      var pieces := SplitFrames(buffer);
      var frames := AllButLast(pieces);
      buffer := Last(pieces);
      ghost var v := State();
      for i := 0 to |frames|
        invariant !cancelled && !stopped && buffer == Last(pieces)
        invariant ReactAll(v, frames) == ReactAll(State(), frames[i..])
      {
        assert frames[i..][1..] == frames[i + 1..];
        Dispatch(FrameEvent(frames[i]));
        if stopped {
          return;
        }
      }
    }

    /** The body of the frame loop. */
    method Dispatch(event: Option<string>)
      requires !cancelled && !stopped
      modifies this
      ensures State() == React(old(State()), event) && !cancelled && buffer == old(buffer)
    {
      if event.Some? {
        dispatched := dispatched + [event.value];
      }
      if event == Some("connected") {
        status, retryDelay := Connected, 1000;
      }
      if event == Some("analytics") {
        refreshes := refreshes + 1;
      }
      if event == Some("shutdown") {
        status, stopped := Disconnected, true;
        Reconnect();
      }
    }

    /** The stream ended or failed. */
    method OnEnd(failed: bool)
      modifies this
      ensures cancelled ==> State() == old(State())
      ensures !cancelled ==> State() == ScheduleReconnect(old(State()).(status := if failed then Error else Disconnected))
    {
      if !cancelled {
        status := if failed then Error else Disconnected;
        Reconnect();
      }
    }

    /** The effect's cleanup. */
    method Cancel()
      modifies this
      ensures cancelled && State() == old(State()) && buffer == old(buffer)
    {
      cancelled := true;
    }
  }
}
