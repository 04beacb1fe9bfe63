// The live event stream: the frames the API writes and the chunk-by-chunk
// reader of the SDK, with JSON as a parameter.
module Sse {
  import opened Wrappers
  import opened Texts

  const BOUNDARY: string := "\n\n"
  const DATA: string := "data:"

  // What JSON.parse may return, as far as the reader looks at it. Reading a
  // property of null throws; any other non-object simply lacks the property.
  datatype Parsed<+P> = Null | Value(payload: P)

  // view reads review_id and type where they are strings.
  datatype Json<!P> = Json(
    stringify: P -> string,
    parse: string -> Option<Parsed<P>>,
    reviewId: P -> Option<string>,
    kind: P -> Option<string>)

  // JSON text has no raw line feed and begins and ends with its brackets.
  ghost predicate Faithful<P(!new)>(json: Json<P>) {
    forall p ::
      json.parse(json.stringify(p)) == Some(Value(p)) && '\n' !in json.stringify(p) && Tight(json.stringify(p))
  }

  // ---- the writer ----------------------------------------------------------

  datatype Item<+P> = Event(payload: P) | Heartbeat

  function Frame<P>(json: Json<P>, item: Item<P>): string {
    match item
    case Event(p) => "data: " + json.stringify(p) + BOUNDARY
    case Heartbeat => ":" + BOUNDARY
  }

  function Wire<P>(json: Json<P>, items: seq<Item<P>>): string {
    if items == [] then "" else Frame(json, items[0]) + Wire(json, items[1..])
  }

  function Payloads<P>(items: seq<Item<P>>): seq<P> {
    if items == [] then []
    else (if items[0].Event? then [items[0].payload] else []) + Payloads(items[1..])
  }

  lemma {:induction false} WireSnoc<P>(json: Json<P>, items: seq<Item<P>>, item: Item<P>)
    ensures Wire(json, items + [item]) == Wire(json, items) + Frame(json, item)
    ensures Payloads(items + [item]) == Payloads(items) + (if item.Event? then [item.payload] else [])
  {
    if items == [] {
      assert ([] + [item])[1..] == [];
    } else {
      assert (items + [item])[1..] == items[1..] + [item];
      WireSnoc(json, items[1..], item);
    }
  }

  // openSseStream: an opening frame, then one frame per event the subscriber
  // may see and one comment per heartbeat, until the connection is cleaned up.
  class EventStream<P> {
    const json: Json<P>
    const allowed: Option<string>   // an API key sees its own project only
    var wire: string
    var closed: bool
    ghost var items: seq<Item<P>>

    ghost predicate Valid()
      reads this
    {
      wire == Wire(json, items)
    }

    constructor (json: Json<P>, allowed: Option<string>, opening: P)
      ensures Valid() && !closed && this.json == json && this.allowed == allowed && items == [Event(opening)]
    {
      this.json, this.allowed, this.closed := json, allowed, false;
      this.wire := "data: " + json.stringify(opening) + "\n\n";
      this.items := [Event(opening)];
      new;
      assert [Event(opening)][1..] == [];
      assert Wire(json, [Event(opening)]) == Frame(json, Event(opening)) + "";
    }

    method OnEvent(project: string, payload: P)
      requires Valid()
      modifies this
      ensures Valid() && closed == old(closed)
      ensures items == if old(closed) || (allowed.Some? && allowed.value != project)
                       then old(items) else old(items) + [Event(payload)]
    {
      if closed || (allowed.Some? && allowed.value != project) { return; }
      WireSnoc(json, items, Event(payload));
      wire := wire + ("data: " + json.stringify(payload) + "\n\n");
      items := items + [Event(payload)];
    }

    method OnHeartbeat()
      requires Valid()
      modifies this
      ensures Valid() && closed == old(closed)
      ensures items == if old(closed) then old(items) else old(items) + [Heartbeat]
    {
      if closed { return; }
      WireSnoc(json, items, Heartbeat);
      wire := wire + ":\n\n";
      items := items + [Heartbeat];
    }

    method Cleanup()
      requires Valid()
      modifies this`closed
      ensures Valid() && closed && items == old(items)
    {
      closed := true;
    }
  }

  // ---- one frame -----------------------------------------------------------

  function DataLines(lines: seq<string>): seq<string> {
    if lines == [] then []
    else (if DATA <= lines[0] then [Trim(lines[0][|DATA|..])] else []) + DataLines(lines[1..])
  }

  // The parsed payload of a frame, if it is not skipped.
  function Read<P>(json: Json<P>, frame: string): Option<Parsed<P>> {
    var data := DataLines(Split(frame, "\n"));
    if Trim(frame) == "" || data == [] then None else json.parse(Join(data, ""))
  }

  const TERMINAL_TYPES: set<string> := {"review.decided", "review.expired", "review.vetoed", "review.confirmed"}

  predicate Terminal<P>(json: Json<P>, p: P, reviewId: string) {
    && json.reviewId(p) == Some(reviewId)
    && json.kind(p).Some? && json.kind(p).value in TERMINAL_TYPES
  }

  // Finished: a terminal frame for the review. Crashed: a frame holding null.
  // Closed: the stream ended first.
  datatype Outcome<+P> = Finished(payload: P) | Crashed | Closed

  function FirstSignal<P>(json: Json<P>, frames: seq<string>, reviewId: string): Outcome<P> {
    if frames == [] then Closed
    else
      match Read(json, frames[0])
      case Some(Null) => Crashed
      case Some(Value(p)) =>
        if Terminal(json, p, reviewId) then Finished(p) else FirstSignal(json, frames[1..], reviewId)
      case None => FirstSignal(json, frames[1..], reviewId)
  }

  lemma {:induction false} FirstSignalAppend<P>(json: Json<P>, xs: seq<string>, ys: seq<string>, reviewId: string)
    ensures FirstSignal(json, xs + ys, reviewId)
         == if FirstSignal(json, xs, reviewId).Closed? then FirstSignal(json, ys, reviewId)
            else FirstSignal(json, xs, reviewId)
  {
    if xs == [] {
      assert xs + ys == ys;
    } else {
      assert (xs + ys)[1..] == xs[1..] + ys;
      FirstSignalAppend(json, xs[1..], ys, reviewId);
    }
  }

  // ---- the reader ----------------------------------------------------------

  // The complete frames of a text and its unterminated tail.
  function Complete(text: string): seq<string> {
    Front(Split(text, BOUNDARY))
  }

  function Tail(text: string): string {
    Last(Split(text, BOUNDARY))
  }

  lemma FramesAppend(a: string, b: string)
    ensures Complete(a + b) == Complete(a) + Complete(Tail(a) + b)
    ensures Tail(a + b) == Tail(Tail(a) + b)
  {
    SplitAppend(a, b, BOUNDARY);
    var left, right := Front(Split(a, BOUNDARY)), Split(Tail(a) + b, BOUNDARY);
    assert Front(left + right) == left + Front(right);
  }

  lemma NoFrames()
    ensures Complete("") == [] && Tail("") == ""
  {
  }

  class Reader {
    var buffer: string

    constructor ()
      ensures buffer == ""
    {
      buffer := "";
    }

    // One chunk: append, split on the boundary, keep the last piece.
    method Feed(chunk: string) returns (frames: seq<string>)
      modifies this
      ensures frames == Complete(old(buffer) + chunk) && buffer == Tail(old(buffer) + chunk)
    {
      buffer := buffer + chunk;
      var pieces := Split(buffer, BOUNDARY);
      frames := pieces[..|pieces| - 1];
      buffer := pieces[|pieces| - 1];
    }

    // All chunks up to the end of the stream.
    method FeedAll(chunks: seq<string>) returns (handled: seq<string>)
      requires buffer == ""
      modifies this
      ensures handled == Complete(Concat(chunks)) && buffer == Tail(Concat(chunks))
    {
      handled := [];
      NoFrames();
      assert chunks[..0] == [];
      for i := 0 to |chunks|
        invariant handled == Complete(Concat(chunks[..i])) && buffer == Tail(Concat(chunks[..i]))
      {
        assert chunks[..i + 1] == chunks[..i] + [chunks[i]];
        ConcatSnoc(chunks[..i], chunks[i]);
        FramesAppend(Concat(chunks[..i]), chunks[i]);
        var frames := Feed(chunks[i]);
        handled := handled + frames;
      }
      assert chunks[..|chunks|] == chunks;
    }

    // The read loop of waitForDecisionSSE. Whichever way the stream is cut
    // into chunks, it stops at the first signal among the complete frames of
    // the whole stream.
    method WaitForDecision<P>(json: Json<P>, chunks: seq<string>, reviewId: string) returns (outcome: Outcome<P>)
      requires buffer == ""
      modifies this
      ensures outcome == FirstSignal(json, Complete(Concat(chunks)), reviewId)
    {
      NoFrames();
      assert chunks[..0] == [];
      var i := 0;
      while i < |chunks|
        invariant 0 <= i <= |chunks|
        invariant buffer == Tail(Concat(chunks[..i]))
        invariant FirstSignal(json, Complete(Concat(chunks[..i])), reviewId).Closed?
      {
        NextChunk(json, chunks, i, reviewId);
        var frames := Feed(chunks[i]);
        for k := 0 to |frames|
          invariant FirstSignal(json, frames, reviewId) == FirstSignal(json, frames[k..], reviewId)
        {
          var read := Read(json, frames[k]);
          assert frames[k..][1..] == frames[k + 1..];
          if read.Some? {
            if read.value.Null? { return Crashed; }
            if Terminal(json, read.value.payload, reviewId) { return Finished(read.value.payload); }
          }
        }
        i := i + 1;
      }
      assert chunks[..|chunks|] == chunks;
      return Closed;
    }
  }

  // A signal in the chunks read so far is the signal of the whole stream.
  lemma LaterChunks<P>(json: Json<P>, chunks: seq<string>, n: nat, reviewId: string)
    requires n <= |chunks|
    ensures var sofar := FirstSignal(json, Complete(Concat(chunks[..n])), reviewId);
            !sofar.Closed? ==> FirstSignal(json, Complete(Concat(chunks)), reviewId) == sofar
  {
    assert chunks == chunks[..n] + chunks[n..];
    ConcatAppend(chunks[..n], chunks[n..]);
    var a, b := Concat(chunks[..n]), Concat(chunks[n..]);
    FramesAppend(a, b);
    FirstSignalAppend(json, Complete(a), Complete(Tail(a) + b), reviewId);
  }

  // One chunk more, after chunks without a signal.
  lemma NextChunk<P>(json: Json<P>, chunks: seq<string>, i: nat, reviewId: string)
    requires i < |chunks| && FirstSignal(json, Complete(Concat(chunks[..i])), reviewId).Closed?
    ensures var buffer := Tail(Concat(chunks[..i]));
            var signal := FirstSignal(json, Complete(buffer + chunks[i]), reviewId);
            && Tail(buffer + chunks[i]) == Tail(Concat(chunks[..i + 1]))
            && FirstSignal(json, Complete(Concat(chunks[..i + 1])), reviewId) == signal
            && (!signal.Closed? ==> FirstSignal(json, Complete(Concat(chunks)), reviewId) == signal)
  {
    var text := Concat(chunks[..i]);
    assert chunks[..i + 1] == chunks[..i] + [chunks[i]];
    ConcatSnoc(chunks[..i], chunks[i]);
    FramesAppend(text, chunks[i]);
    FirstSignalAppend(json, Complete(text), Complete(Tail(text) + chunks[i]), reviewId);
    LaterChunks(json, chunks, i + 1, reviewId);
  }

  lemma {:induction false} ConcatAppend(xs: seq<string>, ys: seq<string>)
    ensures Concat(xs + ys) == Concat(xs) + Concat(ys)
  {
    if xs == [] {
      assert xs + ys == ys;
    } else {
      assert (xs + ys)[1..] == xs[1..] + ys;
      ConcatAppend(xs[1..], ys);
    }
  }

  // Two cuttings of one stream: the same frames, the same tail, the same end.
  method CutTwoWays<P>(json: Json<P>, one: seq<string>, other: seq<string>, reviewId: string)
    returns (frames: seq<string>, framesToo: seq<string>, tail: string, tailToo: string,
             outcome: Outcome<P>, outcomeToo: Outcome<P>)
    requires Concat(one) == Concat(other)
    ensures frames == framesToo && tail == tailToo && outcome == outcomeToo
  {
    var reader := new Reader();
    frames := reader.FeedAll(one);
    tail := reader.buffer;
    reader := new Reader();
    framesToo := reader.FeedAll(other);
    tailToo := reader.buffer;
    reader := new Reader();
    outcome := reader.WaitForDecision(json, one, reviewId);
    reader := new Reader();
    outcomeToo := reader.WaitForDecision(json, other, reviewId);
  }

  // ---- writer and reader undo each other ----------------------------------

  // The payloads the reader gets out of a list of frames.
  function Received<P>(json: Json<P>, frames: seq<string>): seq<P> {
    if frames == [] then []
    else
      var read := Read(json, frames[0]);
      (if read.Some? && read.value.Value? then [read.value.payload] else []) + Received(json, frames[1..])
  }

  function Body<P>(json: Json<P>, item: Item<P>): string {
    match item
    case Event(p) => "data: " + json.stringify(p)
    case Heartbeat => ":"
  }

  lemma BodyHasNoLineFeed<P(!new)>(json: Json<P>, item: Item<P>)
    requires Faithful(json)
    ensures '\n' !in Body(json, item)
  {
  }

  lemma FrameSplits<P(!new)>(json: Json<P>, item: Item<P>, rest: string)
    requires Faithful(json)
    ensures Split(Frame(json, item) + rest, BOUNDARY) == [Body(json, item)] + Split(rest, BOUNDARY)
  {
    var body := Body(json, item);
    BodyHasNoLineFeed(json, item);
    assert Frame(json, item) == body + BOUNDARY;
    var t := body + BOUNDARY;
    assert At(t, BOUNDARY, |body|);
    forall j | 0 <= j < |body| ensures !At(t, BOUNDARY, j) {
      assert t[j] == body[j] && body[j] in body;
      assert t[j..j + 2][0] == t[j];
    }
    IndexOfIs(t, BOUNDARY, |body|);
    SplitFirst(body, rest, BOUNDARY);
  }

  lemma BodyReads<P(!new)>(json: Json<P>, item: Item<P>)
    requires Faithful(json)
    ensures Read(json, Body(json, item)) == if item.Event? then Some(Value(item.payload)) else None
  {
    var body := Body(json, item);
    BodyHasNoLineFeed(json, item);
    SplitFirstChar(body, "", '\n');
    if item.Event? {
      var text := json.stringify(item.payload);
      assert Tight(text);
      assert body[..5] == DATA && body[5..] == " " + text;
      TrimTight(text);
      assert DataLines([body]) == [text];
      assert body[0] == 'd';
      TrimBlank(body);
    } else {
      assert DataLines([body]) == [];
    }
  }

  lemma FirstFrame<P(!new)>(json: Json<P>, items: seq<Item<P>>)
    requires Faithful(json) && items != []
    ensures var frames := Complete(Wire(json, items));
            && frames == [Body(json, items[0])] + Complete(Wire(json, items[1..]))
            && frames[0] == Body(json, items[0]) && frames[1..] == Complete(Wire(json, items[1..]))
    ensures Tail(Wire(json, items)) == Tail(Wire(json, items[1..]))
  {
    var rest := Wire(json, items[1..]);
    var body := Body(json, items[0]);
    FrameSplits(json, items[0], rest);
    assert Front([body] + Split(rest, BOUNDARY)) == [body] + Complete(rest);
  }

  lemma {:induction false} WireReads<P(!new)>(json: Json<P>, items: seq<Item<P>>)
    requires Faithful(json)
    ensures Received(json, Complete(Wire(json, items))) == Payloads(items)
    ensures Tail(Wire(json, items)) == ""
  {
    if items == [] {
      NoFrames();
    } else {
      WireReads(json, items[1..]);
      FirstFrame(json, items);
      BodyReads(json, items[0]);
    }
  }

  // Any payloads, any heartbeats between them, any cutting: the reader gets
  // exactly the payloads, in order, and is left with an empty buffer.
  lemma ReaderRecoversWhatWasWritten<P(!new)>(json: Json<P>, items: seq<Item<P>>, chunks: seq<string>)
    requires Faithful(json) && Concat(chunks) == Wire(json, items)
    ensures Received(json, Complete(Concat(chunks))) == Payloads(items) && Tail(Concat(chunks)) == ""
  {
    WireReads(json, items);
  }

  // The first payload a waiting client would stop at.
  function FirstTerminal<P>(json: Json<P>, ps: seq<P>, reviewId: string): Outcome<P> {
    if ps == [] then Closed
    else if Terminal(json, ps[0], reviewId) then Finished(ps[0])
    else FirstTerminal(json, ps[1..], reviewId)
  }

  lemma FirstTerminalCons<P>(json: Json<P>, p: P, ps: seq<P>, reviewId: string)
    ensures FirstTerminal(json, [p] + ps, reviewId)
         == if Terminal(json, p, reviewId) then Finished(p) else FirstTerminal(json, ps, reviewId)
  {
  }

  lemma {:induction false} SignalOfWire<P(!new)>(json: Json<P>, items: seq<Item<P>>, reviewId: string)
    requires Faithful(json)
    ensures FirstSignal(json, Complete(Wire(json, items)), reviewId) == FirstTerminal(json, Payloads(items), reviewId)
  {
    if items == [] {
      NoFrames();
    } else {
      SignalOfWire(json, items[1..], reviewId);
      FirstFrame(json, items);
      BodyReads(json, items[0]);
      var later := Payloads(items[1..]);
      if items[0].Event? {
        FirstTerminalCons(json, items[0].payload, later, reviewId);
      } else {
        assert [] + later == later;
      }
    }
  }

  // ---- what ends a wait, in the fields of the payloads ---------------------

  // A wait over these payloads ends with p exactly when p is one of them, of the
  // review waited for and of one of four kinds, and none before it is both; it
  // does not end exactly when none is both.
  lemma {:induction false} FirstTerminalIs<P(!new)>(json: Json<P>, ps: seq<P>, reviewId: string, p: P)
    ensures FirstTerminal(json, ps, reviewId) == Finished(p) <==>
            exists i ::
              && 0 <= i < |ps| && ps[i] == p
              && json.reviewId(p) == Some(reviewId)
              && json.kind(p) in [Some("review.decided"), Some("review.expired"),
                                  Some("review.vetoed"), Some("review.confirmed")]
              && forall j :: 0 <= j < i && json.reviewId(ps[j]) == Some(reviewId) ==>
                   json.kind(ps[j]) !in [Some("review.decided"), Some("review.expired"),
                                         Some("review.vetoed"), Some("review.confirmed")]
    ensures FirstTerminal(json, ps, reviewId) == Closed <==>
            forall j :: 0 <= j < |ps| && json.reviewId(ps[j]) == Some(reviewId) ==>
              json.kind(ps[j]) !in [Some("review.decided"), Some("review.expired"),
                                    Some("review.vetoed"), Some("review.confirmed")]
    ensures FirstTerminal(json, ps, reviewId) != Crashed
  {
    var n := TerminalPlace(json, ps, reviewId);
  }

  // The place of that payload.
  lemma {:induction false} TerminalPlace<P>(json: Json<P>, ps: seq<P>, reviewId: string) returns (n: nat)
    ensures n <= |ps|
    ensures FirstTerminal(json, ps, reviewId) == if n < |ps| then Finished(ps[n]) else Closed
    ensures n < |ps| ==>
              && json.reviewId(ps[n]) == Some(reviewId)
              && json.kind(ps[n]) in [Some("review.decided"), Some("review.expired"),
                                      Some("review.vetoed"), Some("review.confirmed")]
    ensures forall j :: 0 <= j < n && json.reviewId(ps[j]) == Some(reviewId) ==>
              json.kind(ps[j]) !in [Some("review.decided"), Some("review.expired"),
                                    Some("review.vetoed"), Some("review.confirmed")]
  {
    if ps == [] || Terminal(json, ps[0], reviewId) {
      n := 0;
    } else {
      n := TerminalPlace(json, ps[1..], reviewId);
      n := n + 1;
      forall j | 0 <= j < n && json.reviewId(ps[j]) == Some(reviewId)
        ensures json.kind(ps[j]) !in [Some("review.decided"), Some("review.expired"),
                                      Some("review.vetoed"), Some("review.confirmed")]
      {
        if j > 0 { assert ps[j] == ps[1..][j - 1]; }
      }
    }
  }

  // A frame the reader passes over: no data, or no JSON, or another payload.
  ghost predicate PassedOver<P>(json: Json<P>, frame: string, reviewId: string) {
    match Read(json, frame)
    case None => true
    case Some(Null) => false
    case Some(Value(p)) =>
      json.reviewId(p) == Some(reviewId) ==>
        json.kind(p) !in [Some("review.decided"), Some("review.expired"),
                          Some("review.vetoed"), Some("review.confirmed")]
  }

  // The same for the reader alone, over whatever frames a server sends: the wait
  // ends at the first frame that holds null or such a payload.
  lemma {:induction false} SignalPlace<P>(json: Json<P>, frames: seq<string>, reviewId: string) returns (n: nat)
    ensures n <= |frames| && forall j | 0 <= j < n :: PassedOver(json, frames[j], reviewId)
    ensures n < |frames| ==> !PassedOver(json, frames[n], reviewId)
    ensures match FirstSignal(json, frames, reviewId)
            case Closed => n == |frames|
            case Crashed => n < |frames| && Read(json, frames[n]) == Some(Null)
            case Finished(p) => n < |frames| && Read(json, frames[n]) == Some(Value(p))
  {
    n := 0;
    if frames != [] && PassedOver(json, frames[0], reviewId) {
      n := SignalPlace(json, frames[1..], reviewId);
      n := n + 1;
      assert forall j | 0 < j < n :: frames[j] == frames[1..][j - 1];
    }
  }

  // A line of a frame: a data field, with space around its text, or any other.
  datatype Line = Data(before: string, text: string, after: string) | Other(text: string)

  predicate PlainLine(line: Line) {
    && '\n' !in line.text
    && match line
       case Data(before, text, after) =>
         Blank(before) && Blank(after) && '\n' !in before && '\n' !in after && (text == "" || Tight(text))
       case Other(text) => !("data:" <= text)
  }

  function LineText(line: Line): string {
    match line
    case Data(before, text, after) => "data:" + (before + text + after)
    case Other(text) => text
  }

  function LineTexts(lines: seq<Line>): seq<string> {
    if lines == [] then [] else [LineText(lines[0])] + LineTexts(lines[1..])
  }

  function DataTexts(lines: seq<Line>): seq<string> {
    if lines == [] then [] else (if lines[0].Data? then [lines[0].text] else []) + DataTexts(lines[1..])
  }

  lemma DataTrims(before: string, text: string, after: string)
    requires Blank(before) && Blank(after) && (text == "" || Tight(text))
    ensures Trim(before + text + after) == text
  {
    if text == "" {
      TrimBlank(before + text + after);
    } else {
      TrimPadded(before, text, after);
    }
  }

  lemma OneLine(line: Line)
    requires PlainLine(line)
    ensures '\n' !in LineText(line)
    ensures DATA <= LineText(line) <==> line.Data?
    ensures line.Data? ==> Trim(LineText(line)[|DATA|..]) == line.text
  {
    match line
    case Data(before, text, after) =>
      DataTrims(before, text, after);
      assert LineText(line)[5..] == before + text + after;
    case Other(_) =>
  }

  lemma {:induction false} LinesRead(lines: seq<Line>)
    requires forall line | line in lines :: PlainLine(line)
    ensures DataLines(LineTexts(lines)) == DataTexts(lines)
    ensures |LineTexts(lines)| == |lines| && forall t | t in LineTexts(lines) :: '\n' !in t
    ensures DataTexts(lines) != [] ==> exists t :: t in LineTexts(lines) && 'd' in t
  {
    if lines != [] {
      var first, later := LineText(lines[0]), LineTexts(lines[1..]);
      OneLine(lines[0]);
      LinesRead(lines[1..]);
      assert ([first] + later)[1..] == later;
      if lines[0].Data? { assert first[0] == 'd' && first in LineTexts(lines); }
    }
  }

  lemma {:induction false} JoinHolds(parts: seq<string>, sep: string, t: string, c: char)
    requires t in parts && c in t
    ensures c in Join(parts, sep)
  {
    if |parts| > 1 && t != parts[0] {
      JoinHolds(parts[1..], sep, t, c);
    }
  }

  // What a frame of any lines says: the JSON of the texts of its data fields, one
  // after the other, without the space around them.
  lemma FrameReads<P>(json: Json<P>, lines: seq<Line>)
    requires lines != [] && forall line | line in lines :: PlainLine(line)
    ensures Read(json, Join(LineTexts(lines), "\n"))
         == if DataTexts(lines) == [] then None else json.parse(Join(DataTexts(lines), ""))
  {
    var frame := Join(LineTexts(lines), "\n");
    LinesRead(lines);
    SplitJoin(LineTexts(lines), '\n');
    if DataTexts(lines) != [] {
      var t :| t in LineTexts(lines) && 'd' in t;
      JoinHolds(LineTexts(lines), "\n", t, 'd');
      TrimBlank(frame);
    }
  }

  // End to end: what a stream wrote, cut anywhere, makes the SDK's wait return
  // at the first terminal event of its review, or report the close.
  method WriteThenWait<P(!new)>(stream: EventStream<P>, chunks: seq<string>, reviewId: string)
    returns (outcome: Outcome<P>)
    requires stream.Valid() && Faithful(stream.json) && Concat(chunks) == stream.wire
    ensures outcome == FirstTerminal(stream.json, Payloads(stream.items), reviewId)
    ensures match outcome
            case Crashed => false
            case Closed =>
              forall p | p in Payloads(stream.items) && stream.json.reviewId(p) == Some(reviewId) ::
                stream.json.kind(p) !in [Some("review.decided"), Some("review.expired"),
                                         Some("review.vetoed"), Some("review.confirmed")]
            case Finished(p) =>
              && p in Payloads(stream.items) && stream.json.reviewId(p) == Some(reviewId)
              && stream.json.kind(p) in [Some("review.decided"), Some("review.expired"),
                                         Some("review.vetoed"), Some("review.confirmed")]
  {
    var reader := new Reader();
    outcome := reader.WaitForDecision(stream.json, chunks, reviewId);
    SignalOfWire(stream.json, stream.items, reviewId);
    ghost var n := TerminalPlace(stream.json, Payloads(stream.items), reviewId);
  }
}
