/**
 The response compression writer as functions on values: it holds the body back until the encoding is
 known, then sends it to the encoder or to the transport. Both are sinks that may accept any part of a
 write and then fail.
 */
module CompressionSpec {
  import opened Options

  type Byte = bv8

  // ---- Sinks ----

  /** What one call on a sink will do: the most bytes it accepts, and whether it reports an error anyway. */
  datatype Outcome = Outcome(accepts: nat, fails: bool)

  /** A sink with the plaintext it took and its future behaviour; a call beyond the plan succeeds. */
  datatype Sink = Sink(received: seq<Byte>, plan: seq<Outcome>)

  datatype Fault = SinkFault | ClosedPipe

  datatype Pushed = Pushed(sink: Sink, n: nat, fault: Option<Fault>)

  /** One io.Writer call: a short write always comes with an error. */
  function Push(sink: Sink, data: seq<Byte>): (p: Pushed)
    ensures p.n <= |data| && p.sink.received == sink.received + data[..p.n]
    ensures p.fault.None? ==> p.n == |data|
  {
    if sink.plan == [] then Pushed(sink.(received := sink.received + data), |data|, None)
    else
      var n := if sink.plan[0].accepts < |data| then sink.plan[0].accepts else |data|;
      Pushed(Sink(sink.received + data[..n], sink.plan[1..]), n,
             if n < |data| || sink.plan[0].fails then Some(SinkFault) else None)
  }

  // ---- The writer's state ----

  /** The header fields the writer looks at; contentLength is the value that parses as a 64-bit number, if it does. */
  datatype Headers = Headers(contentType: string, contentEncoding: string, contentLength: Option<int>)

  /** The embedded gin writer: `wire` holds the headers as committed. */
  datatype Transport = Transport(sink: Sink, headers: Headers, wire: Option<Headers>, status: int)

  /**
   `pool` is the behaviour of the next pooled encoder, None when none can be made; `retired` remembers
   the encoder that finish returned to the pool.
   */
  datatype Writer = Writer(
    encoding: string, minBytes: int, pool: Option<seq<Outcome>>,
    transport: Transport, encoder: Option<Sink>, retired: Option<Sink>,
    buffer: seq<Byte>, decided: bool, fault: Option<Fault>, written: bool, size: nat, status: int)

  function Start(encoding: string, minBytes: int, pool: Option<seq<Outcome>>, transport: Transport): Writer {
    Writer(encoding, minBytes, pool, transport, None, None, [], false, None, false, 0, 0)
  }

  // ---- Media types ----

  function Cut(s: string, c: char): string {
    if s == [] || s[0] == c then [] else [s[0]] + Cut(s[1..], c)
  }

  predicate IsSpace(c: char) {
    c == ' ' || c == '\t' || c == '\n' || c == '\r'
  }

  function TrimLeft(s: string): string {
    if s != [] && IsSpace(s[0]) then TrimLeft(s[1..]) else s
  }

  function TrimRight(s: string): string {
    if s != [] && IsSpace(s[|s| - 1]) then TrimRight(s[..|s| - 1]) else s
  }

  function Lower(s: string): string {
    seq(|s|, i requires 0 <= i < |s| => if 'A' <= s[i] <= 'Z' then (s[i] as int + 32) as char else s[i])
  }

  function MediaType(contentType: string): string {
    Lower(TrimRight(TrimLeft(Cut(contentType, ';'))))
  }

  predicate EndsWith(s: string, suffix: string) {
    |suffix| <= |s| && s[|s| - |suffix|..] == suffix
  }

  predicate Compressible(mediaType: string) {
    || "text/" <= mediaType
    || mediaType == "application/json"
    || ("application/" <= mediaType && EndsWith(mediaType, "+json"))
    || mediaType == "application/javascript"
    || mediaType == "image/svg+xml"
  }

  predicate Streaming(headers: Headers) {
    MediaType(headers.contentType) == "text/event-stream"
  }

  // ---- Small steps ----

  function Commit(t: Transport): Transport {
    if t.wire.Some? then t else t.(wire := Some(t.headers))
  }

  function Status(w: Writer): int {
    if w.status == 0 then w.transport.status else w.status
  }

  /** The response may be encoded at all. */
  predicate Eligible(w: Writer) {
    && w.transport.wire.None?
    && Status(w) >= 200 && Status(w) != 204 && Status(w) != 304 && Status(w) != 206
    && w.transport.headers.contentEncoding == ""
    && Compressible(MediaType(w.transport.headers.contentType))
  }

  predicate SmallLength(w: Writer) {
    var length := w.transport.headers.contentLength;
    length.Some? && 0 <= length.value < w.minBytes
  }

  function StartEncoder(w: Writer): Writer
    requires w.pool.Some?
  {
    var headers := w.transport.headers.(contentLength := None, contentEncoding := w.encoding);
    w.(encoder := Some(Sink([], w.pool.value)), decided := true, transport := Commit(w.transport.(headers := headers)))
  }

  function Decide(w: Writer, force: bool, size: nat): Writer {
    if w.decided then w
    else if !Eligible(w) then w.(decided := true)
    else if !Streaming(w.transport.headers) && SmallLength(w) then w.(decided := true)
    else if !Streaming(w.transport.headers) && size < w.minBytes then w.(decided := force)
    else if w.pool.None? then w.(decided := true)
    else StartEncoder(w)
  }

  /** Sends plaintext to the chosen target; the gin writer commits its headers with the first bytes. */
  function Deliver(w: Writer, data: seq<Byte>): (r: (Writer, nat)) {
    if w.encoder.Some? then
      var p := Push(w.encoder.value, data);
      (w.(encoder := Some(p.sink), fault := p.fault), p.n)
    else
      var p := Push(w.transport.sink, data);
      (w.(transport := Commit(w.transport).(sink := p.sink), fault := p.fault), p.n)
  }

  function Drain(w: Writer): Writer {
    if w.fault.Some? || w.buffer == [] then w else Deliver(w, w.buffer).0.(buffer := [])
  }

  // ---- Operations ----

  datatype Reply = Reply(after: Writer, n: nat, err: Option<Fault>)

  function Sniff(w: Writer, data: seq<Byte>, detected: string): Writer {
    if w.transport.headers.contentType == "" && data != [] then
      w.(transport := w.transport.(headers := w.transport.headers.(contentType := detected)))
    else w
  }

  /** Write up to the point where the encoding may be known. */
  function Prepare(w: Writer, data: seq<Byte>, detected: string): Writer {
    var marked := w.(written := true);
    if w.decided then marked else Decide(Sniff(marked, data, detected), false, |w.buffer| + |data|)
  }

  /** Write once the encoding is known: first the held-back bytes, then the new ones. */
  function Send(w: Writer, data: seq<Byte>): Reply {
    var drained := Drain(w);
    if drained.fault.Some? then Reply(drained, 0, drained.fault)
    else
      var (sent, n) := Deliver(drained, data);
      Reply(sent.(size := sent.size + n), n, sent.fault)
  }

  /** Write; `detected` is what content sniffing says about the data. */
  function Write(w: Writer, data: seq<Byte>, detected: string): Reply {
    if w.fault.Some? then Reply(w, 0, w.fault)
    else
      var known := Prepare(w, data, detected);
      if known.decided then Send(known, data)
      else Reply(known.(buffer := known.buffer + data, size := known.size + |data|), |data|, None)
  }

  function WriteHeaderNow(w: Writer): Writer {
    var drained := Drain(Decide(w.(written := true), true, |w.buffer|));
    drained.(transport := Commit(drained.transport))
  }

  function Flush(w: Writer): Reply {
    if w.fault.Some? then Reply(w, 0, w.fault)
    else
      var drained := Drain(Decide(w.(written := true), true, |w.buffer|));
      if drained.fault.Some? then Reply(drained, 0, drained.fault)
      else
        var flushed := if drained.encoder.Some? then Deliver(drained, []).0 else drained;
        if flushed.fault.Some? then Reply(flushed, 0, flushed.fault)
        else
          var p := Push(flushed.transport.sink, []);
          var after := flushed.(transport := Commit(flushed.transport).(sink := p.sink), fault := p.fault);
          Reply(after, 0, after.fault)
  }

  /** The end of the request: later writes fail instead of going out unencoded. */
  function Finish(w: Writer): Writer {
    var drained := Drain(Decide(w, true, |w.buffer|));
    if drained.encoder.None? then drained
    else
      var closed := Push(drained.encoder.value, []).sink;
      drained.(encoder := None, retired := Some(closed),
               fault := if drained.fault.None? then Some(ClosedPipe) else drained.fault)
  }

  /** WriteHeader: ignored once anything was written. */
  function SetStatus(w: Writer, code: int): Writer {
    if w.written || w.transport.wire.Some? then w
    else
      var transport := if code > 0 then w.transport.(status := code) else w.transport;
      w.(transport := transport, status := transport.status)
  }

  /** The handler edits the header map. */
  function SetHeaders(w: Writer, headers: Headers): Writer {
    w.(transport := w.transport.(headers := headers))
  }

  /** Somebody holding the unwrapped writer commits the headers. */
  function CommitBelow(w: Writer): Writer {
    w.(transport := Commit(w.transport))
  }
}
