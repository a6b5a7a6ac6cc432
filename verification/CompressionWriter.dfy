/** The response compression writer as the object the handlers write to, updated in place. */
module CompressionWriter {
  import opened Options
  import Spec = CompressionSpec

  /** A pooled encoder, taken as an ideal sink of plaintext. */
  class Encoder {
    var received: seq<Spec.Byte>
    var plan: seq<Spec.Outcome>

    constructor (plan: seq<Spec.Outcome>)
      ensures Value() == Spec.Sink([], plan)
    {
      this.received, this.plan := [], plan;
    }

    function Value(): Spec.Sink
      reads this
    {
      Spec.Sink(received, plan)
    }

    method Write(data: seq<Spec.Byte>) returns (n: nat, fault: Option<Spec.Fault>)
      modifies this
      ensures Spec.Push(old(Value()), data) == Spec.Pushed(Value(), n, fault)
    {
      var p := Spec.Push(Value(), data);
      received, plan, n, fault := p.sink.received, p.sink.plan, p.n, p.fault;
    }
  }

  /** The embedded gin writer. */
  class Transport {
    var received: seq<Spec.Byte>
    var plan: seq<Spec.Outcome>
    var headers: Spec.Headers
    var wire: Option<Spec.Headers>
    var status: int

    constructor (plan: seq<Spec.Outcome>, headers: Spec.Headers, status: int)
      ensures Value() == Spec.Transport(Spec.Sink([], plan), headers, None, status)
    {
      this.received, this.plan, this.headers, this.wire, this.status := [], plan, headers, None, status;
    }

    function Value(): Spec.Transport
      reads this
    {
      Spec.Transport(Spec.Sink(received, plan), headers, wire, status)
    }

    method WriteHeaderNow()
      modifies this
      ensures Value() == Spec.Commit(old(Value()))
    {
      if wire.None? {
        wire := Some(headers);
      }
    }

    method Write(data: seq<Spec.Byte>) returns (n: nat, fault: Option<Spec.Fault>)
      modifies this
      ensures var p := Spec.Push(old(Value()).sink, data);
        Value() == Spec.Commit(old(Value())).(sink := p.sink) && n == p.n && fault == p.fault
    {
      WriteHeaderNow();
      var p := Spec.Push(Value().sink, data);
      received, plan, n, fault := p.sink.received, p.sink.plan, p.n, p.fault;
    }
  }

  class ResponseWriter {
    const encoding: string
    const minBytes: int
    const transport: Transport
    var pool: Option<seq<Spec.Outcome>>
    var buffer: seq<Spec.Byte>
    var compressor: Encoder?
    var decided: bool
    var writeErr: Option<Spec.Fault>
    var written: bool
    var size: nat
    var status: int
    ghost var retired: Option<Spec.Sink>

    constructor (encoding: string, minBytes: int, pool: Option<seq<Spec.Outcome>>, transport: Transport)
      ensures Value() == Spec.Start(encoding, minBytes, pool, transport.Value())
      ensures this.transport == transport && compressor == null
    {
      this.encoding, this.minBytes, this.pool, this.transport := encoding, minBytes, pool, transport;
      this.buffer, this.compressor, this.decided, this.writeErr := [], null, false, None;
      this.written, this.size, this.status, this.retired := false, 0, 0, None;
    }

    ghost function Repr(): set<object>
      reads this
    {
      {this, transport} + (if compressor == null then {} else {compressor})
    }

    ghost function Value(): Spec.Writer
      reads this, Repr()
    {
      Spec.Writer(encoding, minBytes, pool, transport.Value(),
                  if compressor == null then None else Some(compressor.Value()), retired,
                  buffer, decided, writeErr, written, size, status)
    }

    method StartCompressor()
      requires pool.Some?
      modifies this, transport
      ensures Value() == Spec.StartEncoder(old(Value()))
      ensures compressor != null && fresh(compressor)
    {
      compressor := new Encoder(pool.value);
      decided := true;
      transport.headers := transport.headers.(contentLength := None);
      transport.headers := transport.headers.(contentEncoding := encoding);
      transport.WriteHeaderNow();
    }

    /** The response may be encoded at all. */
    method MayEncode(mediaType: string) returns (ok: bool)
      requires mediaType == Spec.MediaType(transport.headers.contentType)
      ensures ok == Spec.Eligible(Value())
    {
      var current := if status == 0 then transport.status else status;
      if transport.wire.Some? || current < 200 || current == 204 || current == 304 || current == 206 {
        return false;
      }
      ok := transport.headers.contentEncoding == "" && Spec.Compressible(mediaType);
    }

    method Decide(force: bool, bytes: nat)
      modifies this, transport
      ensures Value() == Spec.Decide(old(Value()), force, bytes)
      ensures compressor == old(compressor) || fresh(compressor)
    {
      if decided {
        return;
      }
      var mediaType := Spec.MediaType(transport.headers.contentType);
      var ok := MayEncode(mediaType);
      if !ok {
        decided := true;
        return;
      }
      if mediaType != "text/event-stream" {
        var length := transport.headers.contentLength;
        if length.Some? && 0 <= length.value < minBytes {
          decided := true;
          return;
        }
        if bytes < minBytes {
          decided := force;
          return;
        }
      }
      if pool.None? {
        decided := true;
        return;
      }
      StartCompressor();
    }

    method Deliver(data: seq<Spec.Byte>) returns (n: nat)
      modifies Repr()
      ensures compressor == old(compressor)
      ensures (Value(), n) == Spec.Deliver(old(Value()), data)
    {
      if compressor != null {
        n, writeErr := compressor.Write(data);
      } else {
        n, writeErr := transport.Write(data);
      }
    }

    method Drain()
      modifies Repr()
      ensures compressor == old(compressor)
      ensures Value() == Spec.Drain(old(Value()))
    {
      if writeErr.Some? || buffer == [] {
        return;
      }
      var _ := Deliver(buffer);
      buffer := [];
    }

    /** The first half of Write: sniff the content type and try to decide. */
    method Prepare(data: seq<Spec.Byte>, detected: string)
      modifies this, transport
      ensures compressor == old(compressor) || fresh(compressor)
      ensures Value() == Spec.Prepare(old(Value()), data, detected)
    {
      written := true;
      if !decided {
        if transport.headers.contentType == "" && data != [] {
          transport.headers := transport.headers.(contentType := detected);
        }
        Decide(false, |buffer| + |data|);
      }
    }

    /** The second half of Write, once the encoding is known. */
    method Send(data: seq<Spec.Byte>) returns (n: nat, err: Option<Spec.Fault>)
      modifies Repr()
      ensures compressor == old(compressor)
      ensures Spec.Reply(Value(), n, err) == Spec.Send(old(Value()), data)
    {
      Drain();
      if writeErr.Some? {
        return 0, writeErr;
      }
      n := Deliver(data);
      size := size + n;
      err := writeErr;
    }

    method Write(data: seq<Spec.Byte>, detected: string) returns (n: nat, err: Option<Spec.Fault>)
      modifies Repr()
      ensures compressor == old(compressor) || fresh(compressor)
      ensures Spec.Reply(Value(), n, err) == Spec.Write(old(Value()), data, detected)
    {
      if writeErr.Some? {
        return 0, writeErr;
      }
      Prepare(data, detected);
      if !decided {
        buffer := buffer + data;
        size := size + |data|;
        return |data|, None;
      }
      n, err := Send(data);
    }

    /** Forces the decision and sends what is held back. */
    method Settle()
      modifies Repr()
      ensures compressor == old(compressor) || fresh(compressor)
      ensures Value() == Spec.Drain(Spec.Decide(old(Value()), true, |old(buffer)|))
    {
      Decide(true, |buffer|);
      Drain();
    }

    method WriteHeaderNow()
      modifies Repr()
      ensures compressor == old(compressor) || fresh(compressor)
      ensures Value() == Spec.WriteHeaderNow(old(Value()))
    {
      written := true;
      Settle();
      transport.WriteHeaderNow();
    }

    method FlushError() returns (err: Option<Spec.Fault>)
      modifies Repr()
      ensures compressor == old(compressor) || fresh(compressor)
      ensures Spec.Reply(Value(), 0, err) == Spec.Flush(old(Value()))
    {
      if writeErr.Some? {
        return writeErr;
      }
      written := true;
      Settle();
      if writeErr.Some? {
        return writeErr;
      }
      if compressor != null {
        var _, errFlush := compressor.Write([]);
        if errFlush.Some? {
          writeErr := errFlush;
          return errFlush;
        }
      }
      var _, errTransport := transport.Write([]);
      writeErr := errTransport;
      return writeErr;
    }

    /** The caller's WriteHeader; it may be overwritten until anything is written. */
    method WriteHeader(code: int)
      modifies this, transport
      ensures compressor == old(compressor)
      ensures Value() == Spec.SetStatus(old(Value()), code)
    {
      if written || transport.wire.Some? {
        return;
      }
      if code > 0 {
        transport.status := code;
      }
      status := transport.status;
    }

    method Finish()
      modifies Repr()
      ensures compressor == null
      ensures Value() == Spec.Finish(old(Value()))
    {
      Settle();
      if compressor != null {
        var _, _ := compressor.Write([]);
        retired := Some(compressor.Value());
        compressor := null;
        if writeErr.None? {
          writeErr := Some(Spec.ClosedPipe);
        }
      }
    }
  }
}
