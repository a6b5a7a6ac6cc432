/** The protocol over buffered streams: readers that consume a connection piece by piece, writers that append to one. */
module RespStream {
  import opened Options
  import opened RespSpec

  /** How a search for the delimiter ended. */
  datatype Slice = Found | Full | Ended

  /** A buffered reader of `size` bytes over a connection; `rest` is everything not yet consumed. */
  class Reader {
    const size: nat
    const end: End
    var rest: Bytes

    constructor (size: nat, data: Bytes, end: End)
      requires size > 0
      ensures this.size == size && this.rest == data && this.end == end
    {
      this.size, this.rest, this.end := size, data, end;
    }

    method ReadByte() returns (r: Result<char>)
      modifies this
      ensures old(rest) == [] ==> r == Err(Io(end)) && rest == []
      ensures old(rest) != [] ==> r == Ok(old(rest)[0]) && rest == old(rest)[1..]
    {
      if rest == [] {
        return Err(Io(end));
      }
      r, rest := Ok(rest[0]), rest[1..];
    }

    /** The next bytes up to a line feed, or a whole buffer without one, or all that is left. */
    method ReadSlice() returns (fragment: Bytes, slice: Slice)
      requires size > 0
      modifies this
      ensures fragment + rest == old(rest)
      ensures slice.Found? ==> fragment != [] && fragment[|fragment| - 1] == '\n' && '\n' !in fragment[..|fragment| - 1]
      ensures slice.Full? ==> |fragment| == size && '\n' !in fragment
      ensures slice.Ended? ==> rest == [] && '\n' !in fragment
      ensures |fragment| <= size
    {
      var i := 0;
      while i < |rest| && i < size && rest[i] != '\n'
        invariant i <= |rest| && i <= size && '\n' !in rest[..i]
      {
        i := i + 1;
      }
      // A full buffer at the very end may or may not have seen the end yet.
      var endSeen: bool := *;
      endSeen := i == |rest| && (i < size || endSeen);
      slice := if i < |rest| && i < size then Found else if endSeen then Ended else Full;
      var n := if slice.Found? then i + 1 else i;
      fragment, rest := rest[..n], rest[n..];
      assert slice.Found? ==> fragment[..i] == old(rest)[..i];
    }

    method ReadFull(n: nat) returns (r: Result<Bytes>)
      modifies this
      ensures var spec := Exactly(old(rest), n, end);
        if spec.Ok? then r == Ok(spec.value.value) && rest == spec.value.rest else r == Err(spec.failure)
    {
      if |rest| < n {
        r := Err(if end.Eof? && rest != [] then UnexpectedEof else Io(end));
        rest := [];
      } else {
        r, rest := Ok(rest[..n]), rest[n..];
      }
    }
  }

  /** The byte budget of one command, passed by reference. */
  class Budget {
    var left: int

    constructor (left: int)
      ensures this.left == left
    {
      this.left := left;
    }
  }

  ghost function Left(budget: Budget?): Option<int>
    reads budget
  {
    if budget == null then None else Some(budget.left)
  }

  /** Accumulates fragments; the outcome does not depend on how the buffer cuts the line. */
  method ReadLine(reader: Reader) returns (r: Result<Bytes>)
    requires reader.size > 0
    modifies reader
    ensures var spec := Line(old(reader.rest), reader.end);
      if spec.Ok? then r == Ok(spec.value.value) && reader.rest == spec.value.rest else r == Err(spec.failure)
  {
    var buf := [];
    ghost var start := reader.rest;
    while true
      invariant buf + reader.rest == start && '\n' !in buf && |buf| <= MAX_LINE + 2
      decreases |reader.rest|
    {
      var fragment, slice := reader.ReadSlice();
      assert start == buf + fragment + reader.rest;
      if slice.Found? {
        FoundLine(buf, fragment, reader.rest);
      } else {
        NoLineFeed(buf + fragment, reader.rest);
      }
      if |buf| + |fragment| > MAX_LINE + 2 {
        return Err(Protocol);
      }
      if slice.Found? {
        var line := buf + fragment;
        line := TrimReturn(line[..|line| - 1]);
        if |line| > MAX_LINE {
          return Err(Protocol);
        }
        return Ok(line);
      }
      if slice.Ended? {
        assert start == buf + fragment;
        return Err(Io(reader.end));
      }
      buf := buf + fragment;
    }
  }

  /** The line is what was gathered, without its line feed, and the rest is what follows. */
  lemma FoundLine(buf: Bytes, fragment: Bytes, rest: Bytes)
    requires fragment != [] && fragment[|fragment| - 1] == '\n' && '\n' !in fragment[..|fragment| - 1] && '\n' !in buf
    ensures var s, i := buf + fragment + rest, |buf| + |fragment| - 1;
      LineEnd(s) == i && (buf + fragment)[..i] == s[..i] && rest == s[i + 1..]
  {
    var before := buf + fragment[..|fragment| - 1];
    FirstLineFeed(before, rest);
    assert buf + fragment + rest == before + "\n" + rest;
  }

  lemma {:induction false} FirstLineFeed(before: Bytes, after: Bytes)
    requires '\n' !in before
    ensures LineEnd(before + "\n" + after) == |before|
  {
    if before != [] {
      FirstLineFeed(before[1..], after);
      assert (before + "\n" + after)[1..] == before[1..] + "\n" + after;
    }
  }

  lemma {:induction false} NoLineFeed(before: Bytes, after: Bytes)
    requires '\n' !in before
    ensures LineEnd(before + after) >= |before|
  {
    if before != [] {
      NoLineFeed(before[1..], after);
      assert (before + after)[1..] == before[1..] + after;
    }
  }

  /** ReadBulkString after its length line. */
  method ReadBulkBody(reader: Reader, length: Option<int>, budget: Budget?) returns (r: Result<Bytes>)
    modifies reader, budget
    ensures var spec := BulkBody(length, old(reader.rest), reader.end, old(Left(budget)));
      if spec.Ok? then r == Ok(spec.value.value) && reader.rest == spec.value.rest && Left(budget) == spec.value.budget
      else r == Err(spec.failure)
  {
    if length.None? {
      return Err(Protocol);
    }
    if length.value < -1 {
      return Err(Protocol);
    }
    if length.value < 0 {
      return Ok([]);
    }
    if length.value > MAX_BULK || (budget != null && length.value > budget.left) {
      return Err(TooLarge);
    }
    var data := reader.ReadFull(length.value + 2);
    if data.Err? {
      return Err(data.failure);
    }
    if data.value[length.value] != '\r' || data.value[length.value + 1] != '\n' {
      assert data.value[length.value..][0] != '\r' || data.value[length.value..][1] != '\n';
      return Err(Protocol);
    }
    assert data.value[length.value..] == "\r\n";
    if budget != null {
      budget.left := budget.left - length.value;
    }
    return Ok(data.value[..length.value]);
  }

  method ReadBulkString(reader: Reader, budget: Budget?) returns (r: Result<Bytes>)
    requires reader.size > 0
    modifies reader, budget
    ensures var spec := Bulk(old(reader.rest), reader.end, old(Left(budget)));
      if spec.Ok? then r == Ok(spec.value.value) && reader.rest == spec.value.rest && Left(budget) == spec.value.budget
      else r == Err(spec.failure)
  {
    var line := ReadLine(reader);
    if line.Err? {
      return Err(line.failure);
    }
    r := ReadBulkBody(reader, Atoi(line.value), budget);
  }

  method ReadString(reader: Reader, budget: Budget?) returns (r: Result<Bytes>)
    requires reader.size > 0
    modifies reader, budget
    ensures var spec := String(old(reader.rest), reader.end, old(Left(budget)));
      if spec.Ok? then r == Ok(spec.value.value) && reader.rest == spec.value.rest && Left(budget) == spec.value.budget
      else r == Err(spec.failure)
  {
    var prefix := reader.ReadByte();
    if prefix.Err? {
      return Err(prefix.failure);
    }
    if prefix.value == '$' {
      r := ReadBulkString(reader, budget);
    } else if prefix.value == '+' || prefix.value == ':' {
      r := ReadLine(reader);
      if r.Err? {
        return;
      }
      if budget != null {
        if |r.value| > budget.left {
          return Err(Protocol);
        }
        budget.left := budget.left - |r.value|;
      }
    } else {
      return Err(Protocol);
    }
  }

  ghost function Behind(args: seq<Bytes>, others: Result<Parsed<seq<Bytes>>>): Result<Parsed<seq<Bytes>>> {
    if others.Err? then others else Ok(Parsed(args + others.value.value, others.value.rest))
  }

  method ReadArray(reader: Reader) returns (r: Result<seq<Bytes>>)
    requires reader.size > 0
    modifies reader
    ensures var spec := Array(old(reader.rest), reader.end);
      if spec.Ok? then r == Ok(spec.value.value) && reader.rest == spec.value.rest else r == Err(spec.failure)
  {
    var prefix := reader.ReadByte();
    if prefix.Err? {
      return Err(prefix.failure);
    }
    if prefix.value != '*' {
      return Err(Protocol);
    }
    var line := ReadLine(reader);
    if line.Err? {
      return Err(line.failure);
    }
    var count := Atoi(line.value);
    if count.None? || count.value < 0 || count.value > MAX_ARRAY {
      return Err(Protocol);
    }
    r := ReadMany(reader, count.value, StringParser(reader.end));
  }

  /** `parse` is the specification of ReadString on this connection. */
  ghost predicate Agrees(parse: Parser, end: End) {
    forall s, b :: AgreesAt(parse, end, s, b)
  }

  ghost predicate AgreesAt(parse: Parser, end: End, s: Bytes, budget: Option<int>) {
    parse(s, budget) == String(s, end, budget)
  }

  lemma Agree(parse: Parser, end: End, s: Bytes, budget: Option<int>)
    requires Agrees(parse, end)
    ensures parse(s, budget) == String(s, end, budget)
  {
    assert AgreesAt(parse, end, s, budget);
  }

  method ReadNext(reader: Reader, budget: Budget, ghost parse: Parser, ghost spec: Result<Item>) returns (r: Result<Bytes>)
    requires reader.size > 0 && Agrees(parse, reader.end) && spec == parse(reader.rest, Some(budget.left))
    modifies reader, budget
    ensures
      if spec.Ok? then r == Ok(spec.value.value) && reader.rest == spec.value.rest && Some(budget.left) == spec.value.budget
      else r == Err(spec.failure)
  {
    Agree(parse, reader.end, reader.rest, Left(budget));
    r := ReadString(reader, budget);
  }

  /** The loop of ReadArray. */
  method ReadMany(reader: Reader, count: nat, ghost parse: Parser) returns (r: Result<seq<Bytes>>)
    requires reader.size > 0 && Agrees(parse, reader.end)
    modifies reader
    ensures var spec := Repeat(parse, old(reader.rest), count, Some(MAX_FRAME));
      if spec.Ok? then r == Ok(spec.value.value) && reader.rest == spec.value.rest else r == Err(spec.failure)
  {
    var args := [];
    var remaining := new Budget(MAX_FRAME);
    ghost var whole := Repeat(parse, reader.rest, count, Some(MAX_FRAME));
    assert whole.Ok? ==> [] + whole.value.value == whole.value.value;
    for i := 0 to count
      invariant whole == Behind(args, Repeat(parse, reader.rest, count - i, Some(remaining.left)))
    {
      ghost var more: nat := count - i - 1;
      ghost var first := parse(reader.rest, Some(remaining.left));
      OneMore(parse, reader.rest, more, Some(remaining.left), args);
      assert count - i == more + 1;
      var value := ReadNext(reader, remaining, parse, first);
      if value.Err? {
        return Err(value.failure);
      }
      args := args + [value.value];
    }
    assert args + [] == args;
    return Ok(args);
  }

  /** One round of the loop, seen from the whole list. */
  lemma OneMore(parse: Parser, s: Bytes, count: nat, budget: Option<int>, args: seq<Bytes>)
    ensures var first := parse(s, budget);
      Behind(args, Repeat(parse, s, count + 1, budget))
      == if first.Err? then Err(first.failure)
         else Behind(args + [first.value.value], Repeat(parse, first.value.rest, count, first.value.budget))
  {
    var first := parse(s, budget);
    if first.Ok? {
      var others := Repeat(parse, first.value.rest, count, first.value.budget);
      if others.Ok? {
        assert args + ([first.value.value] + others.value.value) == args + [first.value.value] + others.value.value;
      }
    }
  }

  // ---- Writers ----

  /** What a buffered writer took, and how many more bytes it will take before its connection fails for good. */
  datatype Wire = Wire(sent: Bytes, room: nat, broken: bool)

  /** One write: whole, or cut off where the connection fails; nothing after a failure. */
  function Push(w: Wire, data: Bytes): Wire {
    if w.broken then w
    else if |data| <= w.room then Wire(w.sent + data, w.room - |data|, false)
    else Wire(w.sent + data[..w.room], 0, true)
  }

  /** Writing in two parts, the second only if the first succeeds, is writing the whole. */
  lemma PushParts(w: Wire, a: Bytes, b: Bytes)
    ensures Push(w, a).broken ==> Push(w, a + b) == Push(w, a)
    ensures Push(Push(w, a), b) == Push(w, a + b)
  {
    if !w.broken && |a| > w.room {
      assert (a + b)[..w.room] == a[..w.room];
    } else if !w.broken && |a + b| > w.room {
      assert (a + b)[..w.room] == a + b[..w.room - |a|];
      assert w.sent + a + b[..w.room - |a|] == w.sent + (a + b[..w.room - |a|]);
    } else if !w.broken {
      assert w.sent + a + b == w.sent + (a + b);
    }
  }

  class Writer {
    var sent: Bytes
    var room: nat
    var broken: bool

    constructor (room: nat)
      ensures Value() == Wire([], room, false)
    {
      sent, this.room, broken := [], room, false;
    }

    function Value(): Wire
      reads this
    {
      Wire(sent, room, broken)
    }

    method Write(data: Bytes) returns (o: Outcome)
      modifies this
      ensures Value() == Push(old(Value()), data) && o == if broken then Failed else Written
    {
      if broken {
        return Failed;
      }
      if |data| > room {
        sent, room, broken := sent + data[..room], 0, true;
        return Failed;
      }
      sent, room := sent + data, room - |data|;
      return Written;
    }
  }

  datatype Outcome = Written | Failed | NoWriter

  /** What every frame writer promises: the frame as far as the connection takes it, and success only for all of it. */
  twostate predicate Puts(writer: Writer?, frame: Bytes, o: Outcome)
    reads writer
  {
    if writer == null then o == NoWriter
    else writer.Value() == Push(old(writer.Value()), frame) && o == if writer.broken then Failed else Written
  }

  method WriteSimpleString(writer: Writer?, value: Bytes) returns (o: Outcome)
    modifies writer
    ensures Puts(writer, LineFrame('+', value), o)
  {
    if writer == null {
      return NoWriter;
    }
    assert "+" + value + "\r\n" == LineFrame('+', value);
    o := writer.Write("+" + value + "\r\n");
  }

  method WriteBulkString(writer: Writer?, payload: Option<Bytes>) returns (o: Outcome)
    modifies writer
    ensures Puts(writer, BulkFrame(payload), o)
  {
    if writer == null {
      return NoWriter;
    }
    if payload.None? {
      o := writer.Write("$-1\r\n");
      return;
    }
    ghost var header := NumberFrame('$', |payload.value|);
    ghost var before := writer.Value();
    assert "$" + Itoa(|payload.value|) + "\r\n" == header;
    PushParts(before, header, payload.value + "\r\n");
    PushParts(Push(before, header), payload.value, "\r\n");
    o := writer.Write("$" + Itoa(|payload.value|) + "\r\n");
    if o != Written {
      return;
    }
    o := writer.Write(payload.value);
    if o != Written {
      return;
    }
    o := writer.Write("\r\n");
  }

  method WriteNumber(writer: Writer?, mark: char, n: int) returns (o: Outcome)
    modifies writer
    ensures Puts(writer, NumberFrame(mark, n), o)
  {
    if writer == null {
      return NoWriter;
    }
    assert [mark] + Itoa(n) + "\r\n" == NumberFrame(mark, n);
    o := writer.Write([mark] + Itoa(n) + "\r\n");
  }

  method WriteArrayOfBulkStrings(writer: Writer?, items: seq<Option<Bytes>>) returns (o: Outcome)
    modifies writer
    ensures Puts(writer, ArrayFrame(items), o)
  {
    if writer == null {
      return NoWriter;
    }
    ghost var whole := Push(writer.Value(), ArrayFrame(items));
    PushParts(writer.Value(), NumberFrame('*', |items|), BulkFrames(items));
    o := WriteNumber(writer, '*', |items|);
    assert items[0..] == items;
    for i := 0 to |items|
      invariant Push(writer.Value(), BulkFrames(items[i..])) == whole
      invariant o == if writer.broken then Failed else Written
    {
      if o != Written {
        return;
      }
      NextFrame(items, i);
      PushParts(writer.Value(), BulkFrame(items[i]), BulkFrames(items[i + 1..]));
      o := WriteBulkString(writer, items[i]);
    }
    PushNothing(writer.Value(), items[|items|..]);
  }

  lemma NextFrame(items: seq<Option<Bytes>>, i: nat)
    requires i < |items|
    ensures BulkFrames(items[i..]) == BulkFrame(items[i]) + BulkFrames(items[i + 1..])
  {
    assert items[i..][0] == items[i] && items[i..][1..] == items[i + 1..];
  }

  lemma PushNothing(w: Wire, items: seq<Option<Bytes>>)
    requires items == []
    ensures Push(w, BulkFrames(items)) == w
  {
    assert w.sent + [] == w.sent;
  }

  /** Four writes in a row, each only after the one before succeeded. */
  lemma PushFour(w: Wire, a: Bytes, b: Bytes, c: Bytes, d: Bytes)
    ensures var whole := Push(w, a + (b + (c + d)));
            && (Push(w, a).broken ==> whole == Push(w, a))
            && (Push(Push(w, a), b).broken ==> whole == Push(Push(w, a), b))
            && (Push(Push(Push(w, a), b), c).broken ==> whole == Push(Push(Push(w, a), b), c))
            && whole == Push(Push(Push(Push(w, a), b), c), d)
  {
    PushParts(w, a, b + (c + d));
    PushParts(Push(w, a), b, c + d);
    PushParts(Push(Push(w, a), b), c, d);
  }

  /** The answer to subscribe or unsubscribe. */
  method WriteSubscription(writer: Writer?, kind: Bytes, channel: Bytes, count: int) returns (o: Outcome)
    modifies writer
    ensures Puts(writer, SubscriptionFrame(kind, channel, count), o)
  {
    if writer != null {
      PushFour(writer.Value(), NumberFrame('*', 3), BulkFrame(Some(kind)), BulkFrame(Some(channel)), NumberFrame(':', count));
    }
    o := WriteNumber(writer, '*', 3);
    if o != Written {
      return;
    }
    o := WriteBulkString(writer, Some(kind));
    if o != Written {
      return;
    }
    o := WriteBulkString(writer, Some(channel));
    if o != Written {
      return;
    }
    o := WriteNumber(writer, ':', count);
  }

  /** A published message: its three fields as one array. */
  method WriteMessage(writer: Writer?, channel: Bytes, payload: Option<Bytes>) returns (o: Outcome)
    modifies writer
    ensures Puts(writer, ArrayFrame([Some("message"), Some(channel), payload]), o)
  {
    ThreeFrames(Some("message"), Some(channel), payload);
    if writer != null {
      PushFour(writer.Value(), NumberFrame('*', 3), BulkFrame(Some("message")), BulkFrame(Some(channel)), BulkFrame(payload));
    }
    o := WriteNumber(writer, '*', 3);
    if o != Written {
      return;
    }
    o := WriteBulkString(writer, Some("message"));
    if o != Written {
      return;
    }
    o := WriteBulkString(writer, Some(channel));
    if o != Written {
      return;
    }
    o := WriteBulkString(writer, payload);
  }

  lemma ThreeFrames(a: Option<Bytes>, b: Option<Bytes>, c: Option<Bytes>)
    ensures BulkFrames([a, b, c]) == BulkFrame(a) + (BulkFrame(b) + BulkFrame(c))
  {
    assert [a, b, c][1..] == [b, c] && [b, c][1..] == [c] && [c][1..] == [];
    assert BulkFrames([c]) == BulkFrame(c) + [] == BulkFrame(c);
    assert BulkFrames([b, c]) == BulkFrame(b) + BulkFrame(c);
  }

  method WritePong(writer: Writer?, payload: Option<Bytes>) returns (o: Outcome)
    modifies writer
    ensures Puts(writer, ArrayFrame([Some("pong"), payload]), o)
  {
    TwoFrames(Some("pong"), payload);
    if writer != null {
      PushParts(writer.Value(), NumberFrame('*', 2), BulkFrame(Some("pong")) + BulkFrame(payload));
      PushParts(Push(writer.Value(), NumberFrame('*', 2)), BulkFrame(Some("pong")), BulkFrame(payload));
    }
    o := WriteNumber(writer, '*', 2);
    if o != Written {
      return;
    }
    o := WriteBulkString(writer, Some("pong"));
    if o != Written {
      return;
    }
    o := WriteBulkString(writer, payload);
  }

  lemma TwoFrames(a: Option<Bytes>, b: Option<Bytes>)
    ensures BulkFrames([a, b]) == BulkFrame(a) + BulkFrame(b)
  {
    assert [a, b][1..] == [b] && [b][1..] == [];
    assert BulkFrames([b]) == BulkFrame(b) + [] == BulkFrame(b);
  }
}
