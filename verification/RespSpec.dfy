/**
 The Redis serialization protocol frames of the usage queue, as functions on byte strings: what the
 writers print and what the readers accept. A `char` stands for one byte.
 */
module RespSpec {
  import opened Options

  type Bytes = string

  const MAX_ARRAY := 1024
  const MAX_BULK := 0x1_0000
  const MAX_FRAME := 0x1_0000
  const MAX_LINE := 0x1_0000

  /** How the connection ends after the last byte. */
  datatype End = Eof | Broken(code: nat)

  datatype Failure = Io(end: End) | UnexpectedEof | Protocol | TooLarge

  datatype Result<+T> = Ok(value: T) | Err(failure: Failure)

  // ---- Decimal numbers ----

  predicate IsDigit(c: char) {
    '0' <= c <= '9'
  }

  predicate AllDigits(s: Bytes) {
    forall i :: 0 <= i < |s| ==> IsDigit(s[i])
  }

  function DigitsValue(s: Bytes): nat
    requires AllDigits(s)
  {
    if s == [] then 0 else 10 * DigitsValue(s[..|s| - 1]) + (s[|s| - 1] as int - '0' as int)
  }

  predicate IsInt64(n: int) {
    -0x8000_0000_0000_0000 <= n <= 0x7fff_ffff_ffff_ffff
  }

  /** strconv.Atoi: one optional sign, at least one digit, no more than 64 bits. */
  function Atoi(s: Bytes): Option<int> {
    var negative := s != [] && s[0] == '-';
    var digits := if s != [] && (s[0] == '-' || s[0] == '+') then s[1..] else s;
    if digits == [] || !AllDigits(digits) then None
    else
      var value: int := DigitsValue(digits);
      var n := if negative then -value else value;
      if IsInt64(n) then Some(n) else None
  }

  function Digits(n: nat): Bytes {
    var last := [('0' as int + n % 10) as char];
    if n < 10 then last else Digits(n / 10) + last
  }

  function Itoa(n: int): Bytes {
    if n < 0 then "-" + Digits(-n) else Digits(n)
  }

  // ---- Reading ----

  /** The place of the first line feed, or the length when there is none. */
  function LineEnd(s: Bytes): (i: nat)
    ensures i <= |s|
    ensures forall j :: 0 <= j < i ==> s[j] != '\n'
    ensures i < |s| ==> s[i] == '\n'
  {
    if s == [] || s[0] == '\n' then 0 else 1 + LineEnd(s[1..])
  }

  function TrimReturn(s: Bytes): Bytes {
    if s != [] && s[|s| - 1] == '\r' then s[..|s| - 1] else s
  }

  datatype Parsed<+T> = Parsed(value: T, rest: Bytes)

  /** One line, read whole. */
  function Line(s: Bytes, end: End): Result<Parsed<Bytes>> {
    var i := LineEnd(s);
    if (if i < |s| then i + 1 else i) > MAX_LINE + 2 then Err(Protocol)
    else if i == |s| then Err(Io(end))
    else if |TrimReturn(s[..i])| > MAX_LINE then Err(Protocol)
    else Ok(Parsed(TrimReturn(s[..i]), s[i + 1..]))
  }

  function Exactly(s: Bytes, n: nat, end: End): Result<Parsed<Bytes>> {
    if |s| >= n then Ok(Parsed(s[..n], s[n..]))
    else Err(if end.Eof? && s != [] then UnexpectedEof else Io(end))
  }

  predicate Exceeds(length: int, budget: Option<int>) {
    budget.Some? && length > budget.value
  }

  function Spend(budget: Option<int>, length: int): Option<int> {
    if budget.Some? then Some(budget.value - length) else None
  }

  datatype Item = Item(value: Bytes, rest: Bytes, budget: Option<int>)

  /** The part of a bulk string after its length line. */
  function BulkBody(length: Option<int>, s: Bytes, end: End, budget: Option<int>): Result<Item> {
    if length.None? || length.value < -1 then Err(Protocol)
    else if length.value < 0 then Ok(Item([], s, budget))
    else if length.value > MAX_BULK || Exceeds(length.value, budget) then Err(TooLarge)
    else
      var n: nat := length.value;
      var data := Exactly(s, n + 2, end);
      if data.Err? then Err(data.failure)
      else if data.value.value[n..] != "\r\n" then Err(Protocol)
      else Ok(Item(data.value.value[..n], data.value.rest, Spend(budget, n)))
  }

  /** The part of a bulk string after its dollar sign. */
  function Bulk(s: Bytes, end: End, budget: Option<int>): Result<Item> {
    var line := Line(s, end);
    if line.Err? then Err(line.failure) else BulkBody(Atoi(line.value.value), line.value.rest, end, budget)
  }

  /** The part of a simple string or an integer after its mark. */
  function Simple(s: Bytes, end: End, budget: Option<int>): Result<Item> {
    var line := Line(s, end);
    if line.Err? then Err(line.failure)
    else if Exceeds(|line.value.value|, budget) then Err(Protocol)
    else Ok(Item(line.value.value, line.value.rest, Spend(budget, |line.value.value|)))
  }

  function String(s: Bytes, end: End, budget: Option<int>): Result<Item> {
    if s == [] then Err(Io(end))
    else if s[0] == '$' then Bulk(s[1..], end, budget)
    else if s[0] == '+' || s[0] == ':' then Simple(s[1..], end, budget)
    else Err(Protocol)
  }

  type Parser = (Bytes, Option<int>) -> Result<Item>

  function StringParser(end: End): Parser {
    (s: Bytes, budget: Option<int>) => String(s, end, budget)
  }

  /** `count` values in a row under one shared budget. */
  function Repeat(parse: Parser, s: Bytes, count: nat, budget: Option<int>): Result<Parsed<seq<Bytes>>>
    decreases count
  {
    if count == 0 then Ok(Parsed([], s))
    else
      var first := parse(s, budget);
      if first.Err? then Err(first.failure)
      else
        var others := Repeat(parse, first.value.rest, count - 1, first.value.budget);
        if others.Err? then others else Ok(Parsed([first.value.value] + others.value.value, others.value.rest))
  }

  /** The part of an array after its count line. */
  function ArrayBody(count: Option<int>, s: Bytes, end: End): Result<Parsed<seq<Bytes>>> {
    if count.None? || count.value < 0 || count.value > MAX_ARRAY then Err(Protocol)
    else Repeat(StringParser(end), s, count.value, Some(MAX_FRAME))
  }

  function Array(s: Bytes, end: End): Result<Parsed<seq<Bytes>>> {
    if s == [] then Err(Io(end))
    else if s[0] != '*' then Err(Protocol)
    else
      var line := Line(s[1..], end);
      if line.Err? then Err(line.failure) else ArrayBody(Atoi(line.value.value), line.value.rest, end)
  }

  // ---- Writing ----

  function NumberFrame(mark: char, n: int): Bytes {
    [mark] + (Itoa(n) + "\r\n")
  }

  /** A nil payload has its own frame. */
  function BulkFrame(payload: Option<Bytes>): Bytes {
    if payload.None? then "$-1\r\n" else NumberFrame('$', |payload.value|) + (payload.value + "\r\n")
  }

  function BulkFrames(items: seq<Option<Bytes>>): Bytes {
    if items == [] then [] else BulkFrame(items[0]) + BulkFrames(items[1..])
  }

  function ArrayFrame(items: seq<Option<Bytes>>): Bytes {
    NumberFrame('*', |items|) + BulkFrames(items)
  }

  function LineFrame(mark: char, text: Bytes): Bytes {
    [mark] + (text + "\r\n")
  }

  /** The three-part frames that answer subscribe and unsubscribe. */
  function SubscriptionFrame(kind: Bytes, channel: Bytes, count: int): Bytes {
    NumberFrame('*', 3) + (BulkFrame(Some(kind)) + (BulkFrame(Some(channel)) + NumberFrame(':', count)))
  }
}
