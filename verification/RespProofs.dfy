/** Round trips, limits and self-delimitation of the frames. */
module RespProofs {
  import opened Options
  import opened RespSpec

  // ---- Numbers ----

  lemma {:induction false} DigitsParse(n: nat)
    ensures Digits(n) != [] && AllDigits(Digits(n)) && DigitsValue(Digits(n)) == n
  {
    var last := ('0' as int + n % 10) as char;
    if n >= 10 {
      DigitsParse(n / 10);
      assert Digits(n)[..|Digits(n)| - 1] == Digits(n / 10);
    } else {
      assert Digits(n)[..|Digits(n)| - 1] == [];
    }
  }

  lemma ThreeDigitsLess(n: nat)
    ensures |Digits(n)| <= 3 + |Digits(n / 1000)|
  {
    assert n / 10 / 10 / 10 == n / 1000;
    assert |Digits(n)| <= 1 + |Digits(n / 10)| && |Digits(n / 10)| <= 1 + |Digits(n / 10 / 10)|;
    assert |Digits(n / 10 / 10)| <= 1 + |Digits(n / 10 / 10 / 10)|;
  }

  lemma DigitsAreFew(n: nat)
    requires n <= 0x8000_0000_0000_0000
    ensures |Digits(n)| <= 22
  {
    var n1 := n / 1000;
    var n2 := n1 / 1000;
    var n3 := n2 / 1000;
    var n4 := n3 / 1000;
    var n5 := n4 / 1000;
    var n6 := n5 / 1000;
    ThreeDigitsLess(n);
    ThreeDigitsLess(n1);
    ThreeDigitsLess(n2);
    ThreeDigitsLess(n3);
    ThreeDigitsLess(n4);
    ThreeDigitsLess(n5);
    assert n6 < 10;
  }

  /** Printing a 64-bit number and parsing it gives it back; its text is one short line. */
  lemma ItoaParses(n: int)
    requires IsInt64(n)
    ensures Atoi(Itoa(n)) == Some(n)
    ensures |Itoa(n)| <= 23 && '\n' !in Itoa(n)
  {
    var m := if n < 0 then -n else n;
    DigitsParse(m);
    DigitsAreFew(m);
    SignThenDigits(Digits(m), n < 0);
  }

  /** A sign, if any, and digits parse as the number they spell. */
  lemma SignThenDigits(digits: Bytes, negative: bool)
    requires digits != [] && AllDigits(digits)
    ensures var text := if negative then "-" + digits else digits;
            var value: int := DigitsValue(digits);
            var n := if negative then -value else value;
            Atoi(text) == (if IsInt64(n) then Some(n) else None) && '\n' !in text
  {
    assert IsDigit(digits[0]) && ("-" + digits)[1..] == digits;
    assert forall i :: 0 <= i < |digits| ==> digits[i] != '\n';
  }

  // ---- Lines ----

  lemma {:induction false} LineEndIs(s: Bytes, i: nat)
    requires i < |s| && s[i] == '\n' && forall j :: 0 <= j < i ==> s[j] != '\n'
    ensures LineEnd(s) == i
  {
    if i > 0 {
      LineEndIs(s[1..], i - 1);
    }
  }

  /** A printed line reads back exactly when it holds no line feed and is not too long. */
  lemma LineRoundTrip(text: Bytes, rest: Bytes, end: End)
    ensures Line(text + "\r\n" + rest, end) == Ok(Parsed(text, rest)) <==> '\n' !in text && |text| <= MAX_LINE
  {
    var s := text + "\r\n" + rest;
    if '\n' in text {
      var i := LineEnd(text);
      assert i < |text| by {
        var k :| 0 <= k < |text| && text[k] == '\n';
      }
      LineEndIs(s, i);
      assert |TrimReturn(s[..i])| < |text|;
    } else {
      LineEndIs(s, |text| + 1);
      assert s[..|text| + 1] == text + "\r";
      assert TrimReturn(text + "\r") == text;
      assert s[|text| + 2..] == rest;
    }
  }

  lemma NumberLine(n: int, rest: Bytes, end: End)
    requires IsInt64(n)
    ensures Line(Itoa(n) + "\r\n" + rest, end) == Ok(Parsed(Itoa(n), rest))
  {
    ItoaParses(n);
    LineRoundTrip(Itoa(n), rest, end);
  }

  // ---- Items ----

  function ValueOf(payload: Option<Bytes>): Bytes {
    if payload.Some? then payload.value else []
  }

  function Values(items: seq<Option<Bytes>>): seq<Bytes> {
    seq(|items|, i requires 0 <= i < |items| => ValueOf(items[i]))
  }

  function Total(values: seq<Bytes>): nat {
    if values == [] then 0 else |values[0]| + Total(values[1..])
  }

  /** Data and its closing line feed, after the length line. */
  lemma BodyRoundTrip(data: Bytes, rest: Bytes, end: End, budget: int)
    requires budget <= MAX_FRAME
    ensures BulkBody(Some(|data|), data + "\r\n" + rest, end, Some(budget))
         == if |data| > budget then Err(TooLarge) else Ok(Item(data, rest, Some(budget - |data|)))
  {
    var s := data + "\r\n" + rest;
    assert s[..|data| + 2] == data + "\r\n" && s[|data| + 2..] == rest;
    assert (data + "\r\n")[|data|..] == "\r\n" && (data + "\r\n")[..|data|] == data;
  }

  lemma NumberThenBulk(n: int, body: Bytes, end: End, budget: Option<int>)
    requires IsInt64(n)
    ensures String(NumberFrame('$', n) + body, end, budget) == BulkBody(Some(n), body, end, budget)
  {
    assert (NumberFrame('$', n) + body)[1..] == Itoa(n) + "\r\n" + body;
    NumberLine(n, body, end);
    ItoaParses(n);
  }

  /** One bulk frame reads back as its payload, whatever bytes that holds; a nil one reads as empty. */
  lemma BulkRoundTrip(payload: Option<Bytes>, rest: Bytes, end: End, budget: int)
    requires budget <= MAX_FRAME && |ValueOf(payload)| <= 0x7fff_ffff_ffff_ffff
    ensures String(BulkFrame(payload) + rest, end, Some(budget))
         == if payload.None? then Ok(Item([], rest, Some(budget)))
            else if |payload.value| > budget then Err(TooLarge)
            else Ok(Item(payload.value, rest, Some(budget - |payload.value|)))
  {
    if payload.None? {
      assert Itoa(-1) == "-1" by { assert Digits(1) == "1"; }
      assert BulkFrame(payload) == NumberFrame('$', -1);
      NumberThenBulk(-1, rest, end, Some(budget));
    } else {
      var body := payload.value + "\r\n" + rest;
      assert BulkFrame(payload) + rest == NumberFrame('$', |payload.value|) + body;
      NumberThenBulk(|payload.value|, body, end, Some(budget));
      BodyRoundTrip(payload.value, rest, end, budget);
    }
  }

  /** A printed integer reads back as its text, as far as the budget allows. */
  lemma IntegerRoundTrip(n: int, rest: Bytes, end: End, budget: int)
    requires IsInt64(n)
    ensures String(NumberFrame(':', n) + rest, end, Some(budget))
         == if |Itoa(n)| > budget then Err(Protocol) else Ok(Item(Itoa(n), rest, Some(budget - |Itoa(n)|)))
  {
    assert (NumberFrame(':', n) + rest)[1..] == Itoa(n) + "\r\n" + rest;
    NumberLine(n, rest, end);
  }

  lemma ValuesCons(items: seq<Option<Bytes>>)
    requires items != []
    ensures Values(items) == [ValueOf(items[0])] + Values(items[1..])
    ensures Total(Values(items)) == |ValueOf(items[0])| + Total(Values(items[1..]))
  {
    assert Values(items)[1..] == Values(items[1..]);
  }

  /** The parser reads this payload's frame, in front of any bytes, as far as the budget allows. */
  ghost predicate ReadsBulk(parse: Parser, payload: Option<Bytes>, rest: Bytes, budget: int) {
    parse(BulkFrame(payload) + rest, Some(budget))
    == if payload.None? then Ok(Item([], rest, Some(budget)))
       else if |payload.value| > budget then Err(TooLarge)
       else Ok(Item(payload.value, rest, Some(budget - |payload.value|)))
  }

  /** The parser reads every payload's frame. */
  ghost predicate ReadsAll(parse: Parser, items: seq<Option<Bytes>>) {
    forall i, t, b :: 0 <= i < |items| && b <= MAX_FRAME ==> ReadsBulk(parse, items[i], t, b)
  }

  lemma ReadsOthers(parse: Parser, items: seq<Option<Bytes>>)
    requires items != [] && ReadsAll(parse, items)
    ensures ReadsAll(parse, items[1..])
  {
    forall i, t, b | 0 <= i < |items[1..]| && b <= MAX_FRAME
      ensures ReadsBulk(parse, items[1..][i], t, b)
    {
      assert ReadsBulk(parse, items[i + 1], t, b);
    }
  }

  lemma ReadsFirst(parse: Parser, items: seq<Option<Bytes>>, rest: Bytes, budget: int)
    requires items != [] && ReadsAll(parse, items) && 0 <= budget <= MAX_FRAME
    ensures parse(BulkFrames(items) + rest, Some(budget))
         == if |ValueOf(items[0])| > budget then Err(TooLarge)
            else Ok(Item(ValueOf(items[0]), BulkFrames(items[1..]) + rest, Some(budget - |ValueOf(items[0])|)))
  {
    assert BulkFrames(items) + rest == BulkFrame(items[0]) + (BulkFrames(items[1..]) + rest);
    assert ReadsBulk(parse, items[0], BulkFrames(items[1..]) + rest, budget);
  }

  lemma {:induction false} RepeatRoundTrip(parse: Parser, items: seq<Option<Bytes>>, rest: Bytes, budget: int)
    requires 0 <= budget <= MAX_FRAME && ReadsAll(parse, items)
    ensures Repeat(parse, BulkFrames(items) + rest, |items|, Some(budget))
         == if Total(Values(items)) <= budget then Ok(Parsed(Values(items), rest)) else Err(TooLarge)
    decreases |items|
  {
    if items == [] {
      assert BulkFrames(items) + rest == rest;
    } else {
      var first := ValueOf(items[0]);
      ReadsFirst(parse, items, rest, budget);
      ReadsOthers(parse, items);
      ValuesCons(items);
      if |first| <= budget {
        RepeatRoundTrip(parse, items[1..], rest, budget - |first|);
      }
      RepeatStep(parse, BulkFrames(items) + rest, BulkFrames(items[1..]) + rest, first, Values(items[1..]), |items| - 1, rest, budget);
    }
  }

  /** One value is read, and the others are read in what it leaves of the budget. */
  lemma RepeatStep(parse: Parser, s: Bytes, t: Bytes, value: Bytes, others: seq<Bytes>, count: nat, rest: Bytes, budget: int)
    requires parse(s, Some(budget)) == if |value| > budget then Err(TooLarge) else Ok(Item(value, t, Some(budget - |value|)))
    requires |value| <= budget ==>
               Repeat(parse, t, count, Some(budget - |value|))
               == if Total(others) <= budget - |value| then Ok(Parsed(others, rest)) else Err(TooLarge)
    ensures Repeat(parse, s, count + 1, Some(budget))
         == if |value| + Total(others) <= budget then Ok(Parsed([value] + others, rest)) else Err(TooLarge)
  {
  }

  lemma ArrayHeader(n: nat, body: Bytes, end: End)
    requires n <= 0x7fff_ffff_ffff_ffff
    ensures Array(NumberFrame('*', n) + body, end) == if n <= MAX_ARRAY then Repeat(StringParser(end), body, n, Some(MAX_FRAME)) else Err(Protocol)
  {
    assert (NumberFrame('*', n) + body)[1..] == Itoa(n) + "\r\n" + body;
    NumberLine(n, body, end);
    ItoaParses(n);
  }

  predicate Addressable(items: seq<Option<Bytes>>) {
    |items| <= 0x7fff_ffff_ffff_ffff && forall i :: 0 <= i < |items| ==> |ValueOf(items[i])| <= 0x7fff_ffff_ffff_ffff
  }

  lemma BulkReads(payload: Option<Bytes>, rest: Bytes, end: End, budget: int)
    requires budget <= MAX_FRAME && |ValueOf(payload)| <= 0x7fff_ffff_ffff_ffff
    ensures ReadsBulk(StringParser(end), payload, rest, budget)
  {
    BulkRoundTrip(payload, rest, end, budget);
  }

  lemma AllReadBack(items: seq<Option<Bytes>>, end: End)
    requires Addressable(items)
    ensures ReadsAll(StringParser(end), items)
  {
    forall i, t, b | 0 <= i < |items| && b <= MAX_FRAME
      ensures ReadsBulk(StringParser(end), items[i], t, b)
    {
      BulkReads(items[i], t, end, b);
    }
  }

  /**
   Reading back a written array gives exactly the items and leaves exactly the bytes after it when both
   limits hold, and an error when one does not.
   */
  lemma ArrayRoundTrip(items: seq<Option<Bytes>>, rest: Bytes, end: End)
    requires Addressable(items)
    ensures Array(ArrayFrame(items) + rest, end)
         == if |items| > MAX_ARRAY then Err(Protocol)
            else if Total(Values(items)) > MAX_FRAME then Err(TooLarge)
            else Ok(Parsed(Values(items), rest))
  {
    assert ArrayFrame(items) + rest == NumberFrame('*', |items|) + (BulkFrames(items) + rest);
    ArrayHeader(|items|, BulkFrames(items) + rest, end);
    if |items| <= MAX_ARRAY {
      AllReadBack(items, end);
      RepeatRoundTrip(StringParser(end), items, rest, MAX_FRAME);
    }
  }

  /** Frames delimit themselves: where one ends and what it says never depends on what follows. */
  lemma FramesAreSelfDelimiting(items: seq<Option<Bytes>>, others: seq<Option<Bytes>>, rest: Bytes, otherRest: Bytes)
    requires |items| <= MAX_ARRAY && |others| <= MAX_ARRAY
    requires Total(Values(items)) <= MAX_FRAME && Total(Values(others)) <= MAX_FRAME
    requires ArrayFrame(items) + rest == ArrayFrame(others) + otherRest
    ensures Values(items) == Values(others) && rest == otherRest
  {
    EachWithinTotal(items);
    EachWithinTotal(others);
    ArrayRoundTrip(items, rest, Eof);
    ArrayRoundTrip(others, otherRest, Eof);
  }

  lemma {:induction false} EachWithinTotal(items: seq<Option<Bytes>>)
    ensures forall i :: 0 <= i < |items| ==> |ValueOf(items[i])| <= Total(Values(items))
  {
    if items != [] {
      EachWithinTotal(items[1..]);
      assert Values(items)[1..] == Values(items[1..]);
      forall i | 0 <= i < |items|
        ensures |ValueOf(items[i])| <= Total(Values(items))
      {
        assert i > 0 ==> items[i] == items[1..][i - 1];
      }
    }
  }

  /**
   The subscribe and unsubscribe answers read back as their three fields; beyond the budget the text
   fields and the count are refused with the error of their kind.
   */
  lemma SubscriptionRoundTrip(kind: Bytes, channel: Bytes, count: int, rest: Bytes, end: End)
    requires IsInt64(count) && Addressable([Some(kind), Some(channel)])
    ensures Array(SubscriptionFrame(kind, channel, count) + rest, end)
         == if |kind| + |channel| > MAX_FRAME then Err(TooLarge)
            else if |kind| + |channel| + |Itoa(count)| > MAX_FRAME then Err(Protocol)
            else Ok(Parsed([kind, channel, Itoa(count)], rest))
  {
    SubscriptionParts(kind, channel, count, rest);
    TwoAddressable(kind, channel);
    var third := NumberFrame(':', count) + rest;
    var second := BulkFrame(Some(channel)) + third;
    var first := BulkFrame(Some(kind)) + second;
    ArrayHeader(3, first, end);
    var left := MAX_FRAME - |kind|;
    var last := left - |channel|;
    var spare := last - |Itoa(count)|;
    ParsesBulk(first, kind, second, end, MAX_FRAME, left);
    ParsesBulk(second, channel, third, end, left, last);
    ParsesInteger(third, count, rest, end, last, spare);
    ThreeValues(StringParser(end), first, second, third, rest, kind, channel, Itoa(count), MAX_FRAME, left, last, spare);
  }

  lemma ParsesBulk(s: Bytes, data: Bytes, rest: Bytes, end: End, budget: int, left: int)
    requires s == BulkFrame(Some(data)) + rest && budget <= MAX_FRAME && |data| <= 0x7fff_ffff_ffff_ffff && left == budget - |data|
    ensures StringParser(end)(s, Some(budget)) == if left < 0 then Err(TooLarge) else Ok(Item(data, rest, Some(left)))
  {
    BulkRoundTrip(Some(data), rest, end, budget);
  }

  lemma ParsesInteger(s: Bytes, n: int, rest: Bytes, end: End, budget: int, left: int)
    requires s == NumberFrame(':', n) + rest && IsInt64(n) && left == budget - |Itoa(n)|
    ensures StringParser(end)(s, Some(budget)) == if left < 0 then Err(Protocol) else Ok(Item(Itoa(n), rest, Some(left)))
  {
    IntegerRoundTrip(n, rest, end, budget);
  }

  lemma SubscriptionParts(kind: Bytes, channel: Bytes, count: int, rest: Bytes)
    ensures SubscriptionFrame(kind, channel, count) + rest
         == NumberFrame('*', 3) + (BulkFrame(Some(kind)) + (BulkFrame(Some(channel)) + (NumberFrame(':', count) + rest)))
  {
    FourParts(NumberFrame('*', 3), BulkFrame(Some(kind)), BulkFrame(Some(channel)), NumberFrame(':', count), rest);
  }

  lemma FourParts(a: Bytes, b: Bytes, c: Bytes, d: Bytes, e: Bytes)
    ensures (a + (b + (c + d))) + e == a + (b + (c + (d + e)))
  {
  }

  lemma TwoAddressable(a: Bytes, b: Bytes)
    requires Addressable([Some(a), Some(b)])
    ensures |a| <= 0x7fff_ffff_ffff_ffff && |b| <= 0x7fff_ffff_ffff_ffff
  {
    var items := [Some(a), Some(b)];
    assert ValueOf(items[0]) == a && ValueOf(items[1]) == b;
  }

  lemma ThreeValues(parse: Parser, s: Bytes, t: Bytes, u: Bytes, rest: Bytes, a: Bytes, b: Bytes, c: Bytes,
                    budget: int, left: int, last: int, spare: int)
    requires left >= last >= spare
    requires parse(s, Some(budget)) == if left < 0 then Err(TooLarge) else Ok(Item(a, t, Some(left)))
    requires parse(t, Some(left)) == if last < 0 then Err(TooLarge) else Ok(Item(b, u, Some(last)))
    requires parse(u, Some(last)) == if spare < 0 then Err(Protocol) else Ok(Item(c, rest, Some(spare)))
    ensures Repeat(parse, s, 3, Some(budget))
         == if last < 0 then Err(TooLarge) else if spare < 0 then Err(Protocol) else Ok(Parsed([a, b, c], rest))
  {
    assert [c] + [] == [c] && [b] + [c] == [b, c] && [a] + [b, c] == [a, b, c];
    assert Repeat(parse, u, 1, Some(last)) == if spare < 0 then Err(Protocol) else Ok(Parsed([c], rest));
    assert Repeat(parse, t, 2, Some(left))
        == if last < 0 then Err(TooLarge) else if spare < 0 then Err(Protocol) else Ok(Parsed([b, c], rest));
  }

  // ---- Every accepted command ----

  lemma {:induction false} RepeatWithinBudget(parse: Parser, s: Bytes, count: nat, budget: nat)
    requires forall t, b: nat, item :: parse(t, Some(b)) == Ok(item) ==> item.budget.Some? && 0 <= item.budget.value <= b - |item.value|
    requires Repeat(parse, s, count, Some(budget)).Ok?
    ensures |Repeat(parse, s, count, Some(budget)).value.value| == count
    ensures Total(Repeat(parse, s, count, Some(budget)).value.value) <= budget
    decreases count
  {
    if count > 0 {
      var first := parse(s, Some(budget)).value;
      assert parse(s, Some(budget)) == Ok(first);
      RepeatWithinBudget(parse, first.rest, count - 1, first.budget.value);
      var args := Repeat(parse, s, count, Some(budget)).value.value;
      assert args[1..] == Repeat(parse, first.rest, count - 1, first.budget).value.value;
    }
  }

  lemma StringsSpend(end: End)
    ensures forall t, b: nat, item :: StringParser(end)(t, Some(b)) == Ok(item) ==> item.budget.Some? && 0 <= item.budget.value <= b - |item.value|
  {
    forall t, b: nat, item | StringParser(end)(t, Some(b)) == Ok(item)
      ensures item.budget.Some? && 0 <= item.budget.value <= b - |item.value|
    {
      StringSpends(t, end, b, item);
    }
  }

  lemma StringSpends(s: Bytes, end: End, budget: nat, item: Item)
    requires String(s, end, Some(budget)) == Ok(item)
    ensures item.budget.Some? && 0 <= item.budget.value <= budget - |item.value|
  {
    if s[0] == '$' {
      var line := Line(s[1..], end).value;
      BodySpends(Atoi(line.value), line.rest, end, budget, item);
    }
  }

  lemma BodySpends(length: Option<int>, s: Bytes, end: End, budget: nat, item: Item)
    requires BulkBody(length, s, end, Some(budget)) == Ok(item)
    ensures item.budget.Some? && 0 <= item.budget.value <= budget - |item.value|
  {
  }

  /** Whatever bytes arrive, an accepted command has at most 1024 arguments of at most 64 KiB together. */
  lemma AcceptedArraysAreBounded(s: Bytes, end: End)
    requires Array(s, end).Ok?
    ensures |Array(s, end).value.value| <= MAX_ARRAY && Total(Array(s, end).value.value) <= MAX_FRAME
  {
    var header := Line(s[1..], end).value;
    StringsSpend(end);
    RepeatWithinBudget(StringParser(end), header.rest, Atoi(header.value).value, MAX_FRAME);
  }

  /** More bytes behind an accepted line stay unread behind it. */
  lemma LineIsLocal(s: Bytes, more: Bytes, end: End, later: End, text: Bytes, rest: Bytes)
    requires Line(s, end) == Ok(Parsed(text, rest))
    ensures Line(s + more, later) == Ok(Parsed(text, rest + more)) && |rest| < |s|
  {
    var i := LineEnd(s);
    LineEndIs(s + more, i);
    assert (s + more)[..i] == s[..i] && (s + more)[i + 1..] == s[i + 1..] + more;
  }

  lemma BodyIsLocal(length: Option<int>, s: Bytes, more: Bytes, end: End, later: End, budget: Option<int>, item: Item)
    requires BulkBody(length, s, end, budget) == Ok(item)
    ensures BulkBody(length, s + more, later, budget) == Ok(item.(rest := item.rest + more)) && |item.rest| <= |s|
  {
    if length.value >= 0 {
      var n := length.value + 2;
      assert (s + more)[..n] == s[..n] && (s + more)[n..] == s[n..] + more;
    }
  }

  lemma StringIsLocal(s: Bytes, more: Bytes, end: End, later: End, budget: Option<int>, item: Item)
    requires String(s, end, budget) == Ok(item)
    ensures String(s + more, later, budget) == Ok(item.(rest := item.rest + more)) && |item.rest| < |s|
  {
    assert (s + more)[1..] == s[1..] + more;
    var line := Line(s[1..], end).value;
    LineIsLocal(s[1..], more, end, later, line.value, line.rest);
    if s[0] == '$' {
      BodyIsLocal(Atoi(line.value), line.rest, more, end, later, budget, item);
    }
  }

  /** What `parse` accepts, `resume` accepts with more bytes behind it. */
  ghost predicate Resumes(parse: Parser, resume: Parser, more: Bytes, s: Bytes, budget: Option<int>) {
    parse(s, budget).Ok? ==>
      var item := parse(s, budget).value;
      resume(s + more, budget) == Ok(item.(rest := item.rest + more)) && |item.rest| <= |s|
  }

  lemma {:induction false} RepeatIsLocal(parse: Parser, resume: Parser, s: Bytes, more: Bytes, count: nat, budget: Option<int>,
                                         args: seq<Bytes>, rest: Bytes)
    requires forall t, b :: Resumes(parse, resume, more, t, b)
    requires Repeat(parse, s, count, budget) == Ok(Parsed(args, rest))
    ensures Repeat(resume, s + more, count, budget) == Ok(Parsed(args, rest + more)) && |rest| <= |s|
    decreases count
  {
    if count > 0 {
      assert Resumes(parse, resume, more, s, budget);
      var first := parse(s, budget).value;
      var others := Repeat(parse, first.rest, count - 1, first.budget).value;
      RepeatIsLocal(parse, resume, first.rest, more, count - 1, first.budget, others.value, others.rest);
    }
  }

  /**
   Pipelining: an accepted command is the same whatever arrives after it, the bytes after it stay
   unread, and reading it makes progress.
   */
  lemma AcceptedArraysAreLocal(s: Bytes, more: Bytes, end: End, later: End, args: seq<Bytes>, rest: Bytes)
    requires Array(s, end) == Ok(Parsed(args, rest))
    ensures Array(s + more, later) == Ok(Parsed(args, rest + more)) && |rest| < |s|
  {
    assert (s + more)[1..] == s[1..] + more;
    var header := Line(s[1..], end).value;
    LineIsLocal(s[1..], more, end, later, header.value, header.rest);
    forall t, b
      ensures Resumes(StringParser(end), StringParser(later), more, t, b)
    {
      if String(t, end, b).Ok? {
        StringIsLocal(t, more, end, later, b, String(t, end, b).value);
      }
    }
    RepeatIsLocal(StringParser(end), StringParser(later), header.rest, more, Atoi(header.value).value, Some(MAX_FRAME), args, rest);
  }
}
