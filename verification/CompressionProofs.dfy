/** What the compression writer guarantees over every sequence of calls and every behaviour of the sinks. */
module CompressionProofs {
  import opened Options
  import opened CompressionSpec

  datatype Op =
    | DoWrite(data: seq<Byte>, detected: string)
    | DoWriteHeaderNow
    | DoFlush
    | DoFinish
    | DoSetStatus(code: int)
    | DoSetHeaders(headers: Headers)
    | DoCommitBelow

  function Apply(w: Writer, op: Op): Reply {
    match op
    case DoWrite(data, detected) => Write(w, data, detected)
    case DoWriteHeaderNow => Reply(WriteHeaderNow(w), 0, None)
    case DoFlush => Flush(w)
    case DoFinish => Reply(Finish(w), 0, None)
    case DoSetStatus(code) => Reply(SetStatus(w, code), 0, None)
    case DoSetHeaders(headers) => Reply(SetHeaders(w, headers), 0, None)
    case DoCommitBelow => Reply(CommitBelow(w), 0, None)
  }

  /** The bytes a call reports as written. */
  function Taken(w: Writer, op: Op): seq<Byte> {
    if op.DoWrite? && Apply(w, op).n <= |op.data| then op.data[..Apply(w, op).n] else []
  }

  function Run(w: Writer, ops: seq<Op>): Writer {
    if ops == [] then w else Apply(Run(w, ops[..|ops| - 1]), ops[|ops| - 1]).after
  }

  /** Everything callers were told had been written, in order. */
  function Accepted(w: Writer, ops: seq<Op>): seq<Byte> {
    if ops == [] then []
    else Accepted(w, ops[..|ops| - 1]) + Taken(Run(w, ops[..|ops| - 1]), ops[|ops| - 1])
  }

  predicate UsesEncoder(w: Writer) {
    w.encoder.Some? || w.retired.Some?
  }

  /** The plaintext that reached the chosen target. */
  function Delivered(w: Writer): seq<Byte> {
    if w.encoder.Some? then w.encoder.value.received
    else if w.retired.Some? then w.retired.value.received
    else w.transport.sink.received
  }

  predicate Fresh(w: Writer) {
    w == Start(w.encoding, w.minBytes, w.pool, w.transport) && w.transport.sink.received == []
  }

  /** Holds also between the decision and the drain that follows it. */
  predicate Mid(w: Writer, accepted: seq<Byte>) {
    && (!w.decided ==> w.fault.None? && !UsesEncoder(w) && w.transport.sink.received == [])
    && (w.fault.Some? ==> w.buffer == [])
    && !(w.encoder.Some? && w.retired.Some?)
    && (w.retired.Some? ==> w.fault.Some?)
    && (UsesEncoder(w) ==> w.transport.sink.received == [])
    && (w.fault.None? ==> Delivered(w) + w.buffer == accepted)
    && Delivered(w) <= accepted
    && w.size == |accepted|
  }

  /**
   Byte conservation: without a fault the delivered bytes and the buffer are the accepted bytes in order;
   after one the delivered bytes are still a prefix. Plaintext never reaches the transport beside an encoder.
   */
  predicate Inv(w: Writer, accepted: seq<Byte>) {
    Mid(w, accepted) && (w.decided ==> w.buffer == [])
  }

  lemma SniffAndDecideKeepMid(w: Writer, data: seq<Byte>, detected: string, force: bool, size: nat, accepted: seq<Byte>)
    requires Inv(w, accepted)
    ensures Mid(Decide(w, force, size), accepted)
    ensures Mid(Decide(Sniff(w, data, detected), force, size), accepted)
    ensures force ==> Decide(w, force, size).decided
  {
  }

  /** Draining sends the whole buffer or records a fault; either way the buffer is empty afterwards. */
  lemma DrainKeepsMid(w: Writer, accepted: seq<Byte>)
    requires Mid(w, accepted) && w.decided
    ensures Inv(Drain(w), accepted) && Drain(w).buffer == [] && Drain(w).decided
  {
    if w.fault.None? && w.buffer != [] {
      var (sent, n) := Deliver(w, w.buffer);
      assert Delivered(sent) == Delivered(w) + w.buffer[..n];
    }
  }

  lemma DeliverKeepsInv(w: Writer, data: seq<Byte>, accepted: seq<Byte>)
    requires Inv(w, accepted) && w.decided && w.fault.None?
    ensures Deliver(w, data).1 <= |data|
    ensures var (sent, n) := Deliver(w, data); Inv(sent.(size := sent.size + n), accepted + data[..n])
    ensures Deliver(w, data).0.fault.None? ==> Deliver(w, data).1 == |data|
  {
    var (sent, n) := Deliver(w, data);
    assert Delivered(sent) == Delivered(w) + data[..n];
  }

  /** The two ways a write can end, seen from the state its preparation left. */
  lemma WriteIs(w: Writer, data: seq<Byte>, detected: string, known: Writer)
    requires known == Prepare(w, data, detected) && w.fault.None?
    ensures known.decided ==> Write(w, data, detected) == Send(known, data)
    ensures !known.decided ==>
              Write(w, data, detected) == Reply(known.(buffer := known.buffer + data, size := known.size + |data|), |data|, None)
  {
  }

  /** Write never reports more than it was given, and reports all of it unless it fails. */
  lemma WriteKeepsInv(w: Writer, data: seq<Byte>, detected: string, accepted: seq<Byte>)
    requires Inv(w, accepted)
    ensures var r := Write(w, data, detected);
      && r.n <= |data|
      && Inv(r.after, accepted + data[..r.n])
      && r.err == r.after.fault
      && (r.err.None? ==> r.n == |data|)
  {
    assert accepted + data[..0] == accepted;
    if w.fault.None? {
      var known := Prepare(w, data, detected);
      PrepareKeepsMid(w, data, detected, accepted);
      WriteIs(w, data, detected, known);
      if known.decided {
        SendKeepsInv(known, data, accepted);
      } else {
        BufferingKeepsInv(known, data, accepted);
      }
    }
  }

  lemma PrepareKeepsMid(w: Writer, data: seq<Byte>, detected: string, accepted: seq<Byte>)
    requires Inv(w, accepted) && w.fault.None?
    ensures Mid(Prepare(w, data, detected), accepted) && Prepare(w, data, detected).fault.None?
  {
    SniffAndDecideKeepMid(w.(written := true), data, detected, false, |w.buffer| + |data|, accepted);
  }

  lemma SendKeepsInv(known: Writer, data: seq<Byte>, accepted: seq<Byte>)
    requires Mid(known, accepted) && known.decided
    ensures var r := Send(known, data);
      && r.n <= |data|
      && Inv(r.after, accepted + data[..r.n])
      && r.err == r.after.fault
      && (r.err.None? ==> r.n == |data|)
  {
    assert accepted + data[..0] == accepted;
    DrainKeepsMid(known, accepted);
    if Drain(known).fault.None? {
      DeliverKeepsInv(Drain(known), data, accepted);
    }
  }

  lemma BufferingKeepsInv(known: Writer, data: seq<Byte>, accepted: seq<Byte>)
    requires Mid(known, accepted) && !known.decided
    ensures Inv(known.(buffer := known.buffer + data, size := known.size + |data|), accepted + data)
  {
    assert Delivered(known) + (known.buffer + data) == (Delivered(known) + known.buffer) + data;
  }

  lemma ForcedDrainKeepsInv(w: Writer, accepted: seq<Byte>)
    requires Inv(w, accepted)
    ensures var drained := Drain(Decide(w, true, |w.buffer|)); Inv(drained, accepted) && drained.decided && drained.buffer == []
  {
    SniffAndDecideKeepMid(w, [], "", true, |w.buffer|, accepted);
    DrainKeepsMid(Decide(w, true, |w.buffer|), accepted);
  }

  lemma FlushKeepsInv(w: Writer, accepted: seq<Byte>)
    requires Inv(w, accepted)
    ensures Inv(Flush(w).after, accepted)
    ensures Flush(w).err == Flush(w).after.fault
  {
    if w.fault.None? {
      ForcedDrainKeepsInv(w.(written := true), accepted);
      var drained := Drain(Decide(w.(written := true), true, |w.buffer|));
      if drained.fault.None? && drained.encoder.Some? {
        DeliverKeepsInv(drained, [], accepted);
        assert accepted + [] == accepted;
      }
    }
  }

  lemma StepKeepsInv(w: Writer, op: Op, accepted: seq<Byte>)
    requires Inv(w, accepted)
    ensures Inv(Apply(w, op).after, accepted + Taken(w, op))
  {
    match op
    case DoWrite(data, detected) => WriteKeepsInv(w, data, detected, accepted);
    case _ =>
      assert accepted + Taken(w, op) == accepted;
      match op
      case DoWriteHeaderNow => ForcedDrainKeepsInv(w.(written := true), accepted);
      case DoFlush => FlushKeepsInv(w, accepted);
      case DoFinish => ForcedDrainKeepsInv(w, accepted);
      case _ =>
  }

  /** Conservation over every sequence of calls, with sinks that may fail at any moment. */
  lemma {:induction false} BytesAreConserved(w: Writer, ops: seq<Op>)
    requires Fresh(w)
    ensures Inv(Run(w, ops), Accepted(w, ops))
  {
    if ops != [] {
      var before := ops[..|ops| - 1];
      BytesAreConserved(w, before);
      StepKeepsInv(Run(w, before), ops[|ops| - 1], Accepted(w, before));
    }
  }

  /** After the first fault nothing more is accepted or delivered, and every write and flush returns that fault. */
  lemma FaultsAreFinal(w: Writer, op: Op, accepted: seq<Byte>)
    requires Inv(w, accepted) && w.fault.Some?
    ensures Apply(w, op).after.fault == w.fault
    ensures Taken(w, op) == [] && Delivered(Apply(w, op).after) == Delivered(w)
    ensures op.DoWrite? || op.DoFlush? ==> Apply(w, op).err == w.fault
  {
  }

  /** Finishing a run that has not failed delivers every accepted byte, unless the last drain fails. */
  lemma FinishDeliversAll(w: Writer, ops: seq<Op>)
    requires Fresh(w) && Run(w, ops).fault.None? && Finish(Run(w, ops)).fault != Some(SinkFault)
    ensures Delivered(Finish(Run(w, ops))) == Accepted(w, ops)
  {
    BytesAreConserved(w, ops);
    ForcedDrainKeepsInv(Run(w, ops), Accepted(w, ops));
    assert Drain(Decide(Run(w, ops), true, |Run(w, ops).buffer|)).fault != Some(ClosedPipe);
  }

  /** A flush that reports success has delivered everything accepted so far and committed the headers. */
  lemma FlushDeliversAll(w: Writer, ops: seq<Op>)
    requires Fresh(w) && Flush(Run(w, ops)).err.None?
    ensures Delivered(Flush(Run(w, ops)).after) == Accepted(w, ops)
    ensures Flush(Run(w, ops)).after.transport.wire.Some?
  {
    BytesAreConserved(w, ops);
    SuccessfulFlush(Run(w, ops), Accepted(w, ops));
  }

  lemma SuccessfulFlush(w: Writer, accepted: seq<Byte>)
    requires Inv(w, accepted) && Flush(w).err.None?
    ensures Delivered(Flush(w).after) == accepted && Flush(w).after.transport.wire.Some?
  {
    FlushKeepsInv(w, accepted);
    ForcedDrainKeepsInv(w.(written := true), accepted);
    assert Flush(w).after.buffer == [] && Delivered(Flush(w).after) + [] == Delivered(Flush(w).after);
  }

  // ---- The decision ----

  predicate OnlyWrites(ops: seq<Op>) {
    forall i :: 0 <= i < |ops| ==> ops[i].DoWrite?
  }

  /** All bytes the handler offered, in order. */
  function Offered(ops: seq<Op>): seq<Byte> {
    if ops == [] then []
    else Offered(ops[..|ops| - 1]) + (if ops[|ops| - 1].DoWrite? then ops[|ops| - 1].data else [])
  }

  /** Everything but the amount of data allows an encoder. */
  predicate CouldEncode(w: Writer) {
    Eligible(w) && w.pool.Some? && (Streaming(w.transport.headers) || !SmallLength(w))
  }

  /** The decision as a function of the headers and the total size alone. */
  predicate ShouldEncode(w: Writer, total: nat) {
    CouldEncode(w) && (Streaming(w.transport.headers) || total >= w.minBytes)
  }

  /** Where a writer that has seen only writes stands. */
  ghost predicate OnCourse(w: Writer, now: Writer, total: nat) {
    if now.decided then
      if UsesEncoder(now) then ShouldEncode(w, total) else !CouldEncode(w)
    else
      && |now.buffer| == total && now.fault.None? && !UsesEncoder(now)
      && now.transport == w.transport && now.pool == w.pool && now.minBytes == w.minBytes && now.status == w.status
  }

  lemma DecideOnCourse(w: Writer, now: Writer, force: bool, total: nat)
    requires OnCourse(w, now.(buffer := []), 0) && !now.decided
    ensures var d := Decide(now, force, total); d.decided ==> (UsesEncoder(d) <==> ShouldEncode(w, total))
    ensures var d := Decide(now, force, total); d.decided && !force && !UsesEncoder(d) ==> !CouldEncode(w)
    ensures !Decide(now, force, total).decided ==> Decide(now, force, total) == now
    ensures force ==> Decide(now, force, total).decided
  {
  }

  /** Once made, the decision stands: draining and delivering leave it alone. */
  lemma DecisionStands(w: Writer, op: Op)
    requires w.decided && !(w.encoder.Some? && w.retired.Some?)
    ensures Apply(w, op).after.decided && (UsesEncoder(Apply(w, op).after) <==> UsesEncoder(w))
  {
  }

  /** The writer as its first write finds it, with the content type sniffed if the handler set none. */
  function Sniffed(w: Writer, ops: seq<Op>): Writer {
    if ops != [] && ops[0].DoWrite? then Sniff(w, ops[0].data, ops[0].detected) else w
  }

  /** Without a content type nothing is compressible, so a writer that still waits has one. */
  lemma WaitingIsTyped(w: Writer, data: seq<Byte>, detected: string)
    requires !w.decided && w.fault.None?
    ensures var after := Write(w, data, detected).after; !after.decided ==> after.transport.headers.contentType != ""
  {
    var known := Prepare(w, data, detected);
    WriteIs(w, data, detected, known);
    if known.decided {
      DecidedStays(known, data);
    } else {
      assert MediaType("") == "";
    }
  }

  lemma DecidedStays(known: Writer, data: seq<Byte>)
    requires known.decided
    ensures Send(known, data).after.decided
  {
    assert Drain(known).decided;
  }

  lemma WriteOnCourse(w: Writer, now: Writer, op: Op, total: nat)
    requires OnCourse(w, now, total) && op.DoWrite? && (!now.decided ==> Sniff(now, op.data, op.detected) == now)
    requires !(now.encoder.Some? && now.retired.Some?)
    ensures OnCourse(w, Apply(now, op).after, total + |op.data|)
  {
    if now.decided {
      DecisionStands(now, op);
    } else {
      UndecidedOnCourse(w, now.(written := true), now, op.data, op.detected, total);
    }
  }

  /** A write that finds the decision open: `marked` is the writer it decides about. */
  lemma UndecidedOnCourse(w: Writer, marked: Writer, now: Writer, data: seq<Byte>, detected: string, total: nat)
    requires OnCourse(w, marked, total) && !marked.decided && !now.decided && now.fault.None? && !UsesEncoder(now) && |now.buffer| == total
    requires marked == Sniff(now.(written := true), data, detected)
    ensures OnCourse(w, Write(now, data, detected).after, total + |data|)
  {
    DecideOnCourse(w, marked, false, total + |data|);
    var known := Prepare(now, data, detected);
    if known.decided {
      assert UsesEncoder(Drain(known)) <==> UsesEncoder(known);
      assert UsesEncoder(Deliver(Drain(known), data).0) <==> UsesEncoder(known);
    }
  }

  lemma {:induction false} WritesStayOnCourse(w: Writer, ops: seq<Op>)
    requires Fresh(w) && OnlyWrites(ops) && ops != []
    ensures OnCourse(Sniffed(w, ops), Run(w, ops), |Offered(ops)|)
    ensures !Run(w, ops).decided ==> Run(w, ops).transport.headers.contentType != ""
  {
    var before, op := ops[..|ops| - 1], ops[|ops| - 1];
    BytesAreConserved(w, before);
    if before == [] {
      assert Run(w, before) == w && Offered(before) == [];
      UndecidedOnCourse(Sniffed(w, ops), Sniff(w.(written := true), op.data, op.detected), w, op.data, op.detected, 0);
      WaitingIsTyped(w, op.data, op.detected);
    } else {
      WritesStayOnCourse(w, before);
      assert Sniffed(w, before) == Sniffed(w, ops);
      WriteOnCourse(Sniffed(w, ops), Run(w, before), op, |Offered(before)|);
      if Run(w, before).decided {
        DecisionStands(Run(w, before), op);
      } else {
        WaitingIsTyped(Run(w, before), op.data, op.detected);
      }
    }
  }

  /**
   Whatever the chunks and the sinks, the encoder is used exactly when the headers allow it and the total
   is large enough; of the chunks only the first can matter, as the one a missing content type is read from.
   */
  lemma DecisionIgnoresChunking(w: Writer, ops: seq<Op>)
    requires Fresh(w) && OnlyWrites(ops)
    ensures UsesEncoder(Finish(Run(w, ops))) <==> ShouldEncode(Sniffed(w, ops), |Offered(ops)|)
  {
    if ops != [] { WritesStayOnCourse(w, ops); }
    BytesAreConserved(w, ops);
    FinishDecides(Sniffed(w, ops), Run(w, ops), |Offered(ops)|);
  }

  lemma FinishDecides(w: Writer, now: Writer, total: nat)
    requires OnCourse(w, now, total) && !(now.encoder.Some? && now.retired.Some?)
    ensures UsesEncoder(Finish(now)) <==> ShouldEncode(w, total)
  {
    if now.decided {
      assert UsesEncoder(Finish(now)) <==> UsesEncoder(now);
    } else {
      DecideOnCourse(w, now, true, |now.buffer|);
      var known := Decide(now, true, |now.buffer|);
      assert UsesEncoder(Drain(known)) <==> UsesEncoder(known);
    }
  }

  /** Two ways of cutting the same body give the same decision, unless a missing content type is sniffed differently. */
  lemma SameBodySameDecision(w: Writer, ops: seq<Op>, others: seq<Op>)
    requires Fresh(w) && OnlyWrites(ops) && OnlyWrites(others) && Offered(ops) == Offered(others)
    requires Sniffed(w, ops).transport.headers.contentType == Sniffed(w, others).transport.headers.contentType
    ensures UsesEncoder(Finish(Run(w, ops))) <==> UsesEncoder(Finish(Run(w, others)))
  {
    DecisionIgnoresChunking(w, ops);
    DecisionIgnoresChunking(w, others);
  }

  /** A first write without data, before any content type is set, settles that the body is not encoded. */
  lemma EmptyFirstWriteForgoesEncoding(w: Writer, ops: seq<Op>)
    requires Fresh(w) && OnlyWrites(ops) && ops != [] && ops[0].data == [] && w.transport.headers.contentType == ""
    ensures !UsesEncoder(Finish(Run(w, ops)))
  {
    DecisionIgnoresChunking(w, ops);
    assert MediaType("") == "";
  }

  // ---- Headers ----

  /** Every content encoding the handler ever set itself. */
  function Chosen(w: Writer, ops: seq<Op>): set<string> {
    if ops == [] then {w.transport.headers.contentEncoding} + (if w.transport.wire.Some? then {w.transport.wire.value.contentEncoding} else {})
    else Chosen(w, ops[..|ops| - 1]) + Announced(ops[|ops| - 1])
  }

  function Announced(op: Op): set<string> {
    if op.DoSetHeaders? then {op.headers.contentEncoding} else {}
  }

  /** An encoded body is announced as such and without a length; otherwise the encoding on the wire is the handler's own. */
  predicate HonestHeaders(allowed: set<string>, w: Writer) {
    if UsesEncoder(w) then
      w.decided && w.transport.wire.Some? && w.transport.wire.value.contentEncoding == w.encoding && w.transport.wire.value.contentLength.None?
    else
      && w.transport.headers.contentEncoding in allowed
      && (w.transport.wire.Some? ==> w.transport.wire.value.contentEncoding in allowed)
  }

  lemma DecideKeepsHonest(allowed: set<string>, w: Writer, data: seq<Byte>, detected: string, force: bool, size: nat)
    requires HonestHeaders(allowed, w)
    ensures HonestHeaders(allowed, Decide(Sniff(w, data, detected), force, size)) && HonestHeaders(allowed, Decide(w, force, size))
  {
  }

  lemma DeliverKeepsHonest(allowed: set<string>, w: Writer, data: seq<Byte>)
    requires HonestHeaders(allowed, w) && !(w.encoder.Some? && w.retired.Some?)
    ensures HonestHeaders(allowed, Deliver(w, data).0) && HonestHeaders(allowed, Drain(w))
  {
  }

  /** After the decision: draining, then one more delivery. */
  lemma SendKeepsHonest(allowed: set<string>, known: Writer, data: seq<Byte>, accepted: seq<Byte>)
    requires HonestHeaders(allowed, known) && Mid(known, accepted) && known.decided
    ensures HonestHeaders(allowed, Drain(known)) && Drain(known).encoding == known.encoding
    ensures HonestHeaders(allowed, Deliver(Drain(known), data).0) && Deliver(Drain(known), data).0.encoding == known.encoding
    ensures HonestHeaders(allowed, Send(known, data).after) && Send(known, data).after.encoding == known.encoding
  {
    DeliverKeepsHonest(allowed, known, []);
    DrainKeepsMid(known, accepted);
    DeliverKeepsHonest(allowed, Drain(known), data);
  }

  lemma PrepareKeepsHonest(allowed: set<string>, w: Writer, data: seq<Byte>, detected: string, accepted: seq<Byte>)
    requires HonestHeaders(allowed, w) && Inv(w, accepted)
    ensures var known := Prepare(w, data, detected);
      HonestHeaders(allowed, known) && Mid(known, accepted) && known.encoding == w.encoding
  {
    DecideKeepsHonest(allowed, w.(written := true), data, detected, false, |w.buffer| + |data|);
    SniffAndDecideKeepMid(w.(written := true), data, detected, false, |w.buffer| + |data|, accepted);
  }

  lemma WriteKeepsHonest(allowed: set<string>, w: Writer, data: seq<Byte>, detected: string, accepted: seq<Byte>)
    requires HonestHeaders(allowed, w) && Inv(w, accepted) && w.fault.None?
    ensures HonestHeaders(allowed, Write(w, data, detected).after) && Write(w, data, detected).after.encoding == w.encoding
  {
    var known := Prepare(w, data, detected);
    PrepareKeepsHonest(allowed, w, data, detected, accepted);
    WriteIs(w, data, detected, known);
    if known.decided {
      SendKeepsHonest(allowed, known, data, accepted);
    } else {
      assert HonestHeaders(allowed, known.(buffer := known.buffer + data, size := known.size + |data|));
    }
  }

  lemma FlushKeepsHonest(allowed: set<string>, w: Writer, accepted: seq<Byte>)
    requires HonestHeaders(allowed, w) && Inv(w, accepted)
    ensures HonestHeaders(allowed, Flush(w).after) && Flush(w).after.encoding == w.encoding
  {
    var marked := w.(written := true);
    var known := Decide(marked, true, |w.buffer|);
    DecideKeepsHonest(allowed, marked, [], "", true, |w.buffer|);
    SniffAndDecideKeepMid(marked, [], "", true, |w.buffer|, accepted);
    assert known.encoding == w.encoding;
    SendKeepsHonest(allowed, known, [], accepted);
  }

  lemma StepKeepsHonest(allowed: set<string>, w: Writer, op: Op, accepted: seq<Byte>)
    requires HonestHeaders(allowed, w) && Inv(w, accepted)
    ensures HonestHeaders(allowed + Announced(op), Apply(w, op).after) && Apply(w, op).after.encoding == w.encoding
  {
    match op
    case DoWrite(data, detected) => if w.fault.None? { WriteKeepsHonest(allowed, w, data, detected, accepted); }
    case DoFlush => FlushKeepsHonest(allowed, w, accepted);
    case DoWriteHeaderNow => HonestDrain(allowed, w.(written := true), accepted);
    case DoFinish => HonestDrain(allowed, w, accepted);
    case _ =>
  }

  lemma HonestDrain(allowed: set<string>, w: Writer, accepted: seq<Byte>)
    requires HonestHeaders(allowed, w) && Inv(w, accepted)
    ensures HonestHeaders(allowed, Drain(Decide(w, true, |w.buffer|)))
    ensures Inv(Drain(Decide(w, true, |w.buffer|)), accepted)
  {
    DecideKeepsHonest(allowed, w, [], "", true, |w.buffer|);
    SniffAndDecideKeepMid(w, [], "", true, |w.buffer|, accepted);
    DeliverKeepsHonest(allowed, Decide(w, true, |w.buffer|), []);
    ForcedDrainKeepsInv(w, accepted);
  }

  lemma {:induction false} RunKeepsHonest(w: Writer, ops: seq<Op>)
    requires Fresh(w)
    ensures HonestHeaders(Chosen(w, ops), Run(w, ops)) && Run(w, ops).encoding == w.encoding
  {
    if ops != [] {
      var before := ops[..|ops| - 1];
      RunKeepsHonest(w, before);
      BytesAreConserved(w, before);
      StepKeepsHonest(Chosen(w, before), Run(w, before), ops[|ops| - 1], Accepted(w, before));
    }
  }

  /**
   A body that went through the encoder is announced with its encoding, without a stale length and with
   no raw bytes beside it; any other body carries only an encoding the handler set. So unless the handler
   announces the same encoding itself, the client is told of it exactly when the body is encoded.
   */
  lemma EncodingHeaderIsHonest(w: Writer, ops: seq<Op>)
    requires Fresh(w)
    ensures var s := Run(w, ops);
      && (UsesEncoder(s) ==>
            && s.transport.wire.Some? && s.transport.wire.value.contentEncoding == w.encoding
            && s.transport.wire.value.contentLength.None? && s.transport.sink.received == [])
      && (s.transport.wire.Some? && !UsesEncoder(s) ==> s.transport.wire.value.contentEncoding in Chosen(w, ops))
      && (s.transport.wire.Some? && w.encoding !in Chosen(w, ops) ==>
            (s.transport.wire.value.contentEncoding == w.encoding <==> UsesEncoder(s)))
  {
    RunKeepsHonest(w, ops);
    BytesAreConserved(w, ops);
  }
}
