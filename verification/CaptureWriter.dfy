/** CaptureResponseWriter of httpkit/response.go: passes a response through and
    keeps its status and body for later.

    The writer underneath follows the http.ResponseWriter contract and never
    fails: the first final status is sent with the headers of that moment, a
    status of 1xx other than 101 is only informational, and a body byte or the
    end of the handler sends 200 if nothing was sent before.  Of the headers only
    Content-Type is modelled.
 */
module CaptureWriter {

  newtype Byte = b: int | 0 <= b < 256

  type Bytes = seq<Byte>

  // ---------------------------------------------------------------------------
  // The writer underneath

  datatype Head = Unsent | Head(status: int, contentType: string)

  datatype Wire = Wire(contentType: string, head: Head, body: Bytes)

  predicate Informational(code: int) { 100 <= code <= 199 && code != 101 }

  function SendHeader(w: Wire, code: int): Wire {
    if w.head.Unsent? && !Informational(code) then w.(head := Head(code, w.contentType)) else w
  }

  function SendBody(w: Wire, data: Bytes): Wire {
    SendHeader(w, 200).(body := w.body + data)
  }

  // What the client has once the handler returns.
  function Finished(w: Wire): Wire { SendHeader(w, 200) }

  class ResponseWriter {
    var wire: Wire

    constructor ()
      ensures wire == Wire("", Unsent, [])
    {
      wire := Wire("", Unsent, []);
    }

    method SetContentType(t: string)
      modifies this
      ensures wire == old(wire).(contentType := t)
    {
      wire := wire.(contentType := t);
    }

    method WriteHeader(code: int)
      modifies this
      ensures wire == SendHeader(old(wire), code)
    {
      wire := SendHeader(wire, code);
    }

    method Write(data: Bytes)
      modifies this
      ensures wire == SendBody(old(wire), data)
    {
      wire := SendBody(wire, data);
    }
  }

  // ---------------------------------------------------------------------------
  // The recorder

  datatype Event =
    | SetContentType(contentType: string)
    | WriteHeader(code: int)
    | Write(data: Bytes)
    | ReadFrom(chunks: seq<Bytes>)   // what a reader hands over, read by read

  function Flat(chunks: seq<Bytes>): Bytes {
    if chunks == [] then [] else Flat(chunks[..|chunks| - 1]) + chunks[|chunks| - 1]
  }

  datatype Recorder = Recorder(statusCode: int, wroteHeader: bool, body: Bytes, wire: Wire)

  function NewRecorder(): Recorder { Recorder(200, false, [], Wire("", Unsent, [])) }

  function Headed(r: Recorder, code: int): Recorder {
    if r.wroteHeader then r
    else r.(wroteHeader := true, statusCode := code, wire := SendHeader(r.wire, code))
  }

  function Step(r: Recorder, e: Event): Recorder {
    match e
    case SetContentType(t) => r.(wire := r.wire.(contentType := t))
    case WriteHeader(code) => Headed(r, code)
    case Write(data) =>
      var h := Headed(r, 200);
      h.(body := h.body + data, wire := SendBody(h.wire, data))
    case ReadFrom(chunks) =>
      var data := Flat(chunks);
      if data == [] then r
      else
        Recorder(if r.wroteHeader then r.statusCode else 200, true, r.body + data, SendBody(r.wire, data))
  }

  class CaptureResponseWriter {
    const under: ResponseWriter
    var statusCode: int
    var wroteHeader: bool
    var body: Bytes

    ghost function View(): Recorder
      reads this, under
    {
      Recorder(statusCode, wroteHeader, body, under.wire)
    }

    constructor (writer: ResponseWriter)
      ensures under == writer
      ensures View() == Recorder(200, false, [], writer.wire)
    {
      under := writer;
      statusCode, wroteHeader, body := 200, false, [];
    }

    method WriteHeader(code: int)
      modifies this, under
      ensures View() == Step(old(View()), Event.WriteHeader(code))
    {
      if wroteHeader {
        return;
      }
      wroteHeader := true;
      statusCode := code;
      under.WriteHeader(code);
    }

    method Write(data: Bytes)
      modifies this, under
      ensures View() == Step(old(View()), Event.Write(data))
    {
      if !wroteHeader {
        WriteHeader(200);
      }
      body := body + data;
      under.Write(data);
    }

    // Copies through a tee: each chunk goes to the buffer and to the writer
    // underneath, past this writer's own WriteHeader.
    method ReadFrom(chunks: seq<Bytes>) returns (n: nat)
      modifies this, under
      ensures View() == Step(old(View()), Event.ReadFrom(chunks))
      ensures n == |Flat(chunks)|
    {
      n := 0;
      for i := 0 to |chunks|
        invariant n == |Flat(chunks[..i])|
        invariant statusCode == old(statusCode) && wroteHeader == old(wroteHeader)
        invariant body == old(body) + Flat(chunks[..i])
        invariant under.wire == if n == 0 then old(under.wire) else SendBody(old(under.wire), Flat(chunks[..i]))
      {
        assert chunks[..i + 1][..i] == chunks[..i];
        body := body + chunks[i];
        if chunks[i] != [] {
          under.Write(chunks[i]);
        }
        n := n + |chunks[i]|;
      }
      assert chunks[..|chunks|] == chunks;
      if n > 0 && !wroteHeader {
        wroteHeader := true;
        statusCode := 200;
      }
    }
  }

  // ---------------------------------------------------------------------------
  // Whole handlers

  function Run(r: Recorder, trace: seq<Event>): Recorder
    decreases |trace|
  {
    if trace == [] then r else Run(Step(r, trace[0]), trace[1..])
  }

  // --- Read off the trace alone

  // The body bytes.
  function Data(e: Event): Bytes {
    match e
    case Write(data) => data
    case ReadFrom(chunks) => Flat(chunks)
    case _ => []
  }

  function Body(trace: seq<Event>): Bytes {
    if trace == [] then [] else Data(trace[0]) + Body(trace[1..])
  }

  // The status the handler asked for first, before any body byte.
  function AskedStatus(trace: seq<Event>): int {
    if trace == [] then 200
    else match trace[0]
      case WriteHeader(code) => code
      case Write(_) => 200
      case ReadFrom(chunks) => if Flat(chunks) == [] then AskedStatus(trace[1..]) else 200
      case SetContentType(_) => AskedStatus(trace[1..])
  }

  // The Content-Type set last, and the one set last before the response was sent.
  function LastType(trace: seq<Event>, t: string): string
    decreases |trace|
  {
    if trace == [] then t
    else LastType(trace[1..], if trace[0].SetContentType? then trace[0].contentType else t)
  }

  function SentType(trace: seq<Event>, asked: bool, t: string): string
    decreases |trace|
  {
    if trace == [] then t
    else match trace[0]
      case SetContentType(u) => SentType(trace[1..], asked, u)
      case WriteHeader(code) => if asked || Informational(code) then SentType(trace[1..], true, t) else t
      case Write(_) => t
      case ReadFrom(chunks) => if Flat(chunks) == [] then SentType(trace[1..], asked, t) else t
  }

  function FinalStatus(code: int): int { if Informational(code) then 200 else code }

  // --- And they are what the recorder and the client hold

  lemma StepBody(r: Recorder, e: Event)
    ensures Step(r, e).body == r.body + Data(e) && Step(r, e).wire.body == r.wire.body + Data(e)
  {
  }

  lemma {:induction false} BodyCaptured(r: Recorder, trace: seq<Event>)
    ensures Run(r, trace).body == r.body + Body(trace)
    ensures Run(r, trace).wire.body == r.wire.body + Body(trace)
    decreases |trace|
  {
    if trace == [] {
      assert r.body + [] == r.body && r.wire.body + [] == r.wire.body;
    } else {
      var d, rest := Data(trace[0]), Body(trace[1..]);
      StepBody(r, trace[0]);
      BodyCaptured(Step(r, trace[0]), trace[1..]);
      assert (r.body + d) + rest == r.body + (d + rest);
      assert (r.wire.body + d) + rest == r.wire.body + (d + rest);
    }
  }

  lemma {:induction false} TypeCaptured(r: Recorder, trace: seq<Event>)
    ensures Run(r, trace).wire.contentType == LastType(trace, r.wire.contentType)
    decreases |trace|
  {
    if trace != [] {
      TypeCaptured(Step(r, trace[0]), trace[1..]);
    }
  }

  lemma {:induction false} StatusCaptured(r: Recorder, trace: seq<Event>)
    requires !r.wroteHeader ==> r.statusCode == 200
    ensures Run(r, trace).statusCode == if r.wroteHeader then r.statusCode else AskedStatus(trace)
    decreases |trace|
  {
    if trace != [] {
      StatusCaptured(Step(r, trace[0]), trace[1..]);
    }
  }

  lemma {:induction false} SentStays(r: Recorder, trace: seq<Event>)
    requires r.wire.head.Head?
    ensures Run(r, trace).wire.head == r.wire.head
    decreases |trace|
  {
    if trace != [] {
      SentStays(Step(r, trace[0]), trace[1..]);
    }
  }

  // From a response not sent yet: wroteHeader then means an informational status was asked for.
  lemma {:induction false} HeadSent(r: Recorder, trace: seq<Event>)
    requires r.wire.head.Unsent?
    ensures Finished(Run(r, trace).wire).head ==
      Head(if r.wroteHeader then 200 else FinalStatus(AskedStatus(trace)), SentType(trace, r.wroteHeader, r.wire.contentType))
    decreases |trace|
  {
    if trace != [] {
      var r' := Step(r, trace[0]);
      if r'.wire.head.Unsent? {
        HeadSent(r', trace[1..]);
      } else {
        SentStays(r', trace[1..]);
      }
    }
  }

  // What the middleware stores of a response.
  datatype Stored = Stored(statusCode: int, contentType: string, body: Bytes)

  function Defaulted(t: string): string { if t == "" then "application/json" else t }

  function Recorded(trace: seq<Event>): Stored {
    var r := Run(NewRecorder(), trace);
    Stored(r.statusCode, Defaulted(r.wire.contentType), r.body)
  }

  // What the client of the original request received.
  function Received(trace: seq<Event>): Wire { Finished(Run(NewRecorder(), trace).wire) }

  // What the client of a replay receives.
  function Replayed(s: Stored): Wire {
    var w := Wire("", Unsent, []);
    var typed := if s.contentType != "" then w.(contentType := s.contentType) else w;
    Finished(SendBody(SendHeader(typed, s.statusCode), s.body))
  }

  // Body and status of every handler's response are recorded as received; the
  // status exactly when the first one asked for was not informational.
  lemma RecordedFaithfully(trace: seq<Event>)
    ensures Recorded(trace).body == Received(trace).body == Body(trace)
    ensures Recorded(trace).statusCode == AskedStatus(trace)
    ensures Recorded(trace).statusCode == Received(trace).head.status
            <==> AskedStatus(trace) < 100 || AskedStatus(trace) == 101 || AskedStatus(trace) >= 200
  {
    BodyCaptured(NewRecorder(), trace);
    StatusCaptured(NewRecorder(), trace);
    HeadSent(NewRecorder(), trace);
  }

  // A replay of x reaches its client with the status and body bytes of the
  // original, always, and with its Content-Type (or the default) exactly when the
  // handler did not change that header after the response was sent.
  predicate Repeats(x: Stored, trace: seq<Event>) {
    var got, first := Replayed(x), Received(trace);
    && got.head.Head? && first.head.Head? && got.head.status == first.head.status && got.body == first.body
    && (got.head.contentType == Defaulted(first.head.contentType)
        <==> Defaulted(LastType(trace, "")) == Defaulted(SentType(trace, false, "")))
  }

  lemma ReplayFaithful(trace: seq<Event>)
    ensures Repeats(Recorded(trace), trace)
    ensures Recorded(trace).contentType == if LastType(trace, "") == "" then "application/json" else LastType(trace, "")
  {
    BodyCaptured(NewRecorder(), trace);
    TypeCaptured(NewRecorder(), trace);
    StatusCaptured(NewRecorder(), trace);
    HeadSent(NewRecorder(), trace);
  }
}
