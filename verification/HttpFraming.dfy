/** What HttpResponse::appendToBuffer prints, and an independent reader that frames
    responses by Content-Length (src/http/HttpResponse.cpp; section 6 of RFC 9112). */
module HttpFraming {
  import opened Strings
  import opened Decimal
  import H = HttpParsing

  /** The scratch buffer of appendToBuffer; snprintf leaves room for the terminator. */
  const SCRATCH: nat := 32

  datatype Response = Response(status: nat, message: string, close: bool,
                               headers: map<string, string>, body: string)

  function Cut(s: string): string {
    if |s| < SCRATCH then s else s[..SCRATCH - 1]
  }

  const CONTENT_LENGTH := "Content-Length"
  const CONNECTION := "Connection"
  const KEEP_ALIVE := "Keep-Alive"

  function StatusStart(status: nat): string {
    Cut("HTTP/1.1 " + PrintNat(status) + " ")
  }

  function LengthLine(n: nat): string {
    Cut(CONTENT_LENGTH + ": " + PrintNat(n) + "\r\n")
  }

  function FieldLine(name: string, value: string): string {
    name + ": " + value + "\r\n"
  }

  function FieldLines(headers: map<string, string>, order: seq<string>): string
    requires forall k :: k in order ==> k in headers
  {
    if order == [] then ""
    else FieldLine(order[0], headers[order[0]]) + FieldLines(headers, order[1..])
  }

  lemma {:induction false} FieldLinesSnoc(headers: map<string, string>, order: seq<string>, key: string)
    requires key in headers && forall k :: k in order ==> k in headers
    ensures FieldLines(headers, order + [key]) == FieldLines(headers, order) + FieldLine(key, headers[key])
    decreases |order|
  {
    if order == [] {
      assert FieldLines(headers, [key]) == FieldLine(key, headers[key]) + FieldLines(headers, []);
    } else {
      assert (order + [key])[1..] == order[1..] + [key];
      FieldLinesSnoc(headers, order[1..], key);
    }
  }

  function Framing(r: Response): string {
    if r.close then FieldLine(CONNECTION, "close")
    else LengthLine(|r.body|) + FieldLine(CONNECTION, KEEP_ALIVE)
  }

  function StatusLine(r: Response): string {
    StatusStart(r.status) + r.message
  }

  /** Everything behind the status line. */
  function Tail(r: Response, order: seq<string>): string
    requires forall k :: k in order ==> k in r.headers
  {
    Framing(r) + FieldLines(r.headers, order) + "\r\n" + r.body
  }

  function Serialize(r: Response, order: seq<string>): string
    requires forall k :: k in order ==> k in r.headers
  {
    StatusLine(r) + "\r\n" + Tail(r, order)
  }

  /** The literals appendToBuffer writes. */
  lemma FramingText(r: Response)
    ensures Framing(r) == if r.close then "Connection: close\r\n"
                          else Cut("Content-Length: " + PrintNat(|r.body|) + "\r\n")
                               + "Connection: Keep-Alive\r\n"
  {
    assert CONTENT_LENGTH + ": " == "Content-Length: ";
    assert FieldLine(CONNECTION, "close") == "Connection: close\r\n";
    assert FieldLine(CONNECTION, KEEP_ALIVE) == "Connection: Keep-Alive\r\n";
  }

  /** Printing piece by piece behind what is there appends the whole text. */
  lemma SerializePieces(before: string, r: Response, order: seq<string>)
    requires forall k :: k in order ==> k in r.headers
    ensures before + (StatusLine(r) + "\r\n") + Framing(r) + FieldLines(r.headers, order) + "\r\n" + r.body
            == before + Serialize(r, order)
  {
    var head := StatusLine(r) + "\r\n";
    Regroup5(before + head, Framing(r), FieldLines(r.headers, order), "\r\n", r.body);
    Regroup3(before, head, Tail(r, order));
  }

  // ----- the reader -----

  type Field = (string, string)

  datatype Message = Message(status: nat, reason: string, fields: seq<Field>, body: string)

  function LowerChar(c: char): char {
    if 'A' <= c <= 'Z' then c - 'A' + 'a' else c
  }

  function Lower(s: string): string {
    seq(|s|, i requires 0 <= i < |s| => LowerChar(s[i]))
  }

  /** name ":" SP value. */
  function ReadField(line: string): Option<Field> {
    var colon := H.Find(line, ':');
    if colon + 1 < |line| && line[colon + 1] == ' '
    then Some((line[..colon], line[colon + 2..]))
    else None
  }

  /** The field lines up to the blank line, and what follows it. */
  function ReadFields(s: string): Option<(seq<Field>, string)>
    decreases |s|
  {
    match FirstCRLF(s)
    case None => None
    case Some(k) =>
      if k == 0 then Some(([], s[2..]))
      else
        match ReadField(s[..k])
        case None => None
        case Some(f) =>
          match ReadFields(s[k + 2..])
          case None => None
          case Some((fs, rest)) => Some(([f] + fs, rest))
  }

  function ReadStatusLine(line: string): Option<(nat, string)> {
    if |line| < 9 || line[..9] != "HTTP/1.1 " then None
    else
      var tail := line[9..];
      var space := H.Find(tail, ' ');
      if space < |tail| && IsNumeral(tail[..space])
      then Some((NatValue(tail[..space]), tail[space + 1..]))
      else None
  }

  /** The values of all fields with this name, in any letter case. */
  function ValuesOf(fields: seq<Field>, name: string): seq<string> {
    if fields == [] then []
    else (if Lower(fields[0].0) == name then [fields[0].1] else []) + ValuesOf(fields[1..], name)
  }

  /** The body length of section 6.3 of RFC 9112: exactly one Content-Length, no
      Transfer-Encoding. */
  function BodyLength(fields: seq<Field>): Option<nat> {
    var lengths := ValuesOf(fields, "content-length");
    if |lengths| == 1 && IsNumeral(lengths[0]) && ValuesOf(fields, "transfer-encoding") == []
    then Some(NatValue(lengths[0]))
    else None
  }

  /** The status line and the fields, and what follows the blank line. */
  datatype Head = Head(status: nat, reason: string, fields: seq<Field>, rest: string)

  function ReadHead(s: string): Option<Head> {
    match FirstCRLF(s)
    case None => None
    case Some(k) =>
      match ReadStatusLine(s[..k])
      case None => None
      case Some((status, reason)) =>
        match ReadFields(s[k + 2..])
        case None => None
        case Some((fields, rest)) => Some(Head(status, reason, fields, rest))
  }

  function ReadMessage(s: string): Option<(Message, string)> {
    match ReadHead(s)
    case None => None
    case Some(Head(status, reason, fields, rest)) =>
      match BodyLength(fields)
      case None => None
      case Some(n) =>
        if n <= |rest| then Some((Message(status, reason, fields, rest[..n]), rest[n..])) else None
  }

  lemma ReadFieldsShrinks(s: string)
    requires ReadFields(s).Some?
    ensures |ReadFields(s).value.1| < |s|
    decreases |s|
  {
  }

  /** Splits a stream that consists of whole messages. */
  function ReadAll(s: string): Option<seq<Message>>
    decreases |s|
  {
    if s == "" then Some([])
    else
      match ReadMessage(s)
      case None => None
      case Some((m, rest)) =>
        ReadFieldsShrinks(s[FirstCRLF(s).value + 2..]);
        match ReadAll(rest)
        case None => None
        case Some(ms) => Some([m] + ms)
  }

  // ----- what is printed can be framed -----

  /** A response whose texts respect the delimiters. */
  ghost predicate Printable(r: Response) {
    && r.status < 0x8000_0000 && NoCRLF(r.message)
    && (forall k :: k in r.headers ==> ':' !in k && NoCRLF(k) && NoCRLF(r.headers[k]))
  }

  /** A keep-alive response whose texts respect the delimiters and whose body length fits
      the scratch buffer. */
  ghost predicate Framable(r: Response) {
    && Printable(r) && !r.close && |r.body| < 10_000_000_000_000
    && (forall k :: k in r.headers ==>
          Lower(k) != "content-length" && Lower(k) != "transfer-encoding")
  }

  function FieldsOf(headers: map<string, string>, order: seq<string>): seq<Field>
    requires forall k :: k in order ==> k in headers
  {
    if order == [] then [] else [(order[0], headers[order[0]])] + FieldsOf(headers, order[1..])
  }

  /** What a reader should see. */
  function MessageOf(r: Response, order: seq<string>): Message
    requires forall k :: k in order ==> k in r.headers
  {
    Message(r.status, r.message,
            [(CONTENT_LENGTH, PrintNat(|r.body|)), (CONNECTION, KEEP_ALIVE)] + FieldsOf(r.headers, order),
            r.body)
  }

  lemma PrintNatLength(n: nat, k: nat)
    requires k > 0
    ensures |PrintNat(n)| <= k <==> n < Pow10(k)
  {
    DigitCount(n, k);
    Pow10Positive(k);
  }

  /** The Content-Length line survives the 32-byte scratch buffer if and only if the body
      is shorter than 10^13 bytes. */
  lemma LengthLineWholeIff(n: nat)
    ensures LengthLine(n) == FieldLine(CONTENT_LENGTH, PrintNat(n)) <==> n < 10_000_000_000_000
  {
    Pow10Thirteen();
    PrintNatLength(n, 13);
    assert CONTENT_LENGTH + ": " + PrintNat(n) + "\r\n" == FieldLine(CONTENT_LENGTH, PrintNat(n));
  }

  lemma StatusStartWhole(status: nat)
    requires status < 0x8000_0000
    ensures StatusStart(status) == "HTTP/1.1 " + PrintNat(status) + " "
  {
    Pow10Thirteen();
    PrintNatLength(status, 13);
  }

  lemma FieldRoundTrip(name: string, value: string)
    requires ':' !in name && NoCRLF(name) && NoCRLF(value)
    ensures var line := name + ": " + value;
            NoCRLF(line) && line != "" && ReadField(line) == Some((name, value))
  {
    var line := name + ": " + value;
    var tail := " " + value;
    assert line == name + [':'] + tail;
    H.FindFirst(name, ':', tail);
    assert line[|name| + 1] == ' ' && line[..|name|] == name && line[|name| + 2..] == value;
    assert tail == "" + [' '] + value;
    H.NoCRLFAround("", ' ', value);
    H.NoCRLFAround(name, ':', tail);
  }

  /** One printed field line is read off the front. */
  lemma FieldStep(name: string, value: string, s: string)
    requires ':' !in name && NoCRLF(name) && NoCRLF(value)
    ensures var more := ReadFields(s);
            ReadFields(FieldLine(name, value) + s)
            == if more.None? then None else Some(([(name, value)] + more.value.0, more.value.1))
  {
    var line := name + ": " + value;
    var bytes := FieldLine(name, value) + s;
    FieldRoundTrip(name, value);
    LineFound(line, s);
    assert bytes == line + "\r\n" + s;
    assert bytes[..|line|] == line && bytes[|line| + 2..] == s;
  }

  lemma BlankLine(s: string)
    ensures ReadFields("\r\n" + s) == Some(([], s))
  {
    LineFound("", s);
    assert "\r\n" + s == "" + "\r\n" + s;
    assert ("\r\n" + s)[2..] == s;
  }

  lemma {:induction false} FieldsRoundTrip(r: Response, order: seq<string>, s: string)
    requires Printable(r) && forall k :: k in order ==> k in r.headers
    ensures ReadFields(FieldLines(r.headers, order) + "\r\n" + s) == Some((FieldsOf(r.headers, order), s))
    decreases |order|
  {
    if order == [] {
      BlankLine(s);
      assert FieldLines(r.headers, order) + "\r\n" + s == "\r\n" + s;
    } else {
      var tail := FieldLines(r.headers, order[1..]) + "\r\n" + s;
      FieldsRoundTrip(r, order[1..], s);
      FieldStep(order[0], r.headers[order[0]], tail);
      Regroup(FieldLine(order[0], r.headers[order[0]]), FieldLines(r.headers, order[1..]), "\r\n", s);
    }
  }

  lemma {:induction false} OtherValues(r: Response, order: seq<string>, name: string)
    requires forall k :: k in order ==> k in r.headers && Lower(k) != name
    ensures ValuesOf(FieldsOf(r.headers, order), name) == []
    decreases |order|
  {
    if order != [] {
      OtherValues(r, order[1..], name);
    }
  }

  lemma ValuesOfCons(f: Field, fields: seq<Field>, name: string)
    ensures ValuesOf([f] + fields, name)
            == (if Lower(f.0) == name then [f.1] else []) + ValuesOf(fields, name)
  {
    assert ([f] + fields)[1..] == fields;
  }

  lemma OwnNames()
    ensures Lower(CONTENT_LENGTH) == "content-length" && Lower(CONNECTION) == "connection"
  {
  }

  lemma BodyLengthRoundTrip(r: Response, order: seq<string>)
    requires Framable(r) && forall k :: k in order ==> k in r.headers
    ensures BodyLength(MessageOf(r, order).fields) == Some(|r.body|)
  {
    var size := (CONTENT_LENGTH, PrintNat(|r.body|));
    var conn := (CONNECTION, KEEP_ALIVE);
    var own := FieldsOf(r.headers, order);
    var fields := MessageOf(r, order).fields;
    assert fields == [size] + ([conn] + own);
    OwnNames();
    OtherValues(r, order, "content-length");
    ValuesOfCons(conn, own, "content-length");
    ValuesOfCons(size, [conn] + own, "content-length");
    assert ValuesOf(fields, "content-length") == [size.1];
    OtherValues(r, order, "transfer-encoding");
    ValuesOfCons(conn, own, "transfer-encoding");
    ValuesOfCons(size, [conn] + own, "transfer-encoding");
    assert ValuesOf(fields, "transfer-encoding") == [];
    PrintNatRoundTrip(|r.body|);
  }

  lemma FramingLines(r: Response)
    requires Framable(r)
    ensures Framing(r) == FieldLine(CONTENT_LENGTH, PrintNat(|r.body|)) + FieldLine(CONNECTION, KEEP_ALIVE)
    ensures NoCRLF(PrintNat(|r.body|))
  {
    LengthLineWholeIff(|r.body|);
    PrintNatRoundTrip(|r.body|);
  }

  lemma TwoFieldSteps(f: Field, g: Field, tail: string, fields: seq<Field>, s: string)
    requires ':' !in f.0 && NoCRLF(f.0) && NoCRLF(f.1) && ':' !in g.0 && NoCRLF(g.0) && NoCRLF(g.1)
    requires ReadFields(tail) == Some((fields, s))
    ensures ReadFields(FieldLine(f.0, f.1) + FieldLine(g.0, g.1) + tail) == Some(([f, g] + fields, s))
  {
    FieldStep(g.0, g.1, tail);
    FieldStep(f.0, f.1, FieldLine(g.0, g.1) + tail);
    Regroup3(FieldLine(f.0, f.1), FieldLine(g.0, g.1), tail);
    assert [f] + ([g] + fields) == [f, g] + fields;
  }

  lemma OwnFieldsAreClean()
    ensures ':' !in CONTENT_LENGTH && NoCRLF(CONTENT_LENGTH)
    ensures ':' !in CONNECTION && NoCRLF(CONNECTION) && NoCRLF(KEEP_ALIVE)
  {
  }

  lemma {:induction false} AllFieldsRoundTrip(r: Response, order: seq<string>, s: string)
    requires Framable(r) && forall k :: k in order ==> k in r.headers
    ensures ReadFields(Framing(r) + FieldLines(r.headers, order) + "\r\n" + s)
            == Some((MessageOf(r, order).fields, s))
  {
    var tail := FieldLines(r.headers, order) + "\r\n" + s;
    FieldsRoundTrip(r, order, s);
    FramingLines(r);
    OwnFieldsAreClean();
    TwoFieldSteps((CONTENT_LENGTH, PrintNat(|r.body|)), (CONNECTION, KEEP_ALIVE), tail,
                  FieldsOf(r.headers, order), s);
    Regroup(Framing(r), FieldLines(r.headers, order), "\r\n", s);
  }

  lemma StatusLineRoundTrip(r: Response)
    requires Printable(r)
    ensures NoCRLF(StatusLine(r)) && ReadStatusLine(StatusLine(r)) == Some((r.status, r.message))
  {
    StatusStartWhole(r.status);
    PrintNatRoundTrip(r.status);
    var number := PrintNat(r.status);
    assert NoCRLF(number);
    assert StatusLine(r) == "HTTP/1.1" + [' '] + (number + [' '] + r.message);
    StatusLineIsRead(number, r.message);
    H.NoCRLFAround(number, ' ', r.message);
    H.NoCRLFAround("HTTP/1.1", ' ', number + [' '] + r.message);
  }

  lemma StatusLineIsRead(number: string, message: string)
    requires IsNumeral(number)
    ensures ReadStatusLine("HTTP/1.1" + [' '] + (number + [' '] + message)) == Some((NatValue(number), message))
  {
    var tail := number + [' '] + message;
    var line := "HTTP/1.1" + [' '] + tail;
    assert line[..9] == "HTTP/1.1 " && line[9..] == tail;
    H.FindFirst(number, ' ', message);
    assert tail[..|number|] == number && tail[|number| + 1..] == message;
  }

  lemma HeadFromParts(line: string, behind: string, status: nat, reason: string,
                      fields: seq<Field>, rest: string)
    requires NoCRLF(line) && ReadStatusLine(line) == Some((status, reason))
    requires ReadFields(behind) == Some((fields, rest))
    ensures ReadHead(line + "\r\n" + behind) == Some(Head(status, reason, fields, rest))
  {
    var bytes := line + "\r\n" + behind;
    LineFound(line, behind);
    assert bytes[..|line|] == line && bytes[|line| + 2..] == behind;
  }

  /** A close response has no Content-Length: its status, reason and fields, "Connection: close"
      first, are read back, and its body is the rest of the stream, of whatever length. */
  lemma CloseRoundTrip(r: Response, order: seq<string>)
    requires Printable(r) && r.close && forall k :: k in order ==> k in r.headers
    ensures ReadHead(Serialize(r, order))
            == Some(Head(r.status, r.message, [("Connection", "close")] + FieldsOf(r.headers, order), r.body))
  {
    var tail := FieldLines(r.headers, order) + "\r\n" + r.body;
    var behind := FieldLine(CONNECTION, "close") + tail;
    FieldsRoundTrip(r, order, r.body);
    OwnFieldsAreClean();
    CloseIsClean();
    FieldStep(CONNECTION, "close", tail);
    StatusLineRoundTrip(r);
    HeadFromParts(StatusLine(r), behind, r.status, r.message,
                  [(CONNECTION, "close")] + FieldsOf(r.headers, order), r.body);
    Regroup(FieldLine(CONNECTION, "close"), FieldLines(r.headers, order), "\r\n", r.body);
  }

  lemma CloseIsClean()
    ensures NoCRLF("close")
  {
  }

  /** ReadMessage from what its parts read. */
  lemma ReadFromParts(line: string, behind: string, status: nat, reason: string,
                      fields: seq<Field>, payload: string, n: nat)
    requires NoCRLF(line) && ReadStatusLine(line) == Some((status, reason))
    requires ReadFields(behind) == Some((fields, payload))
    requires BodyLength(fields) == Some(n) && n <= |payload|
    ensures ReadMessage(line + "\r\n" + behind)
            == Some((Message(status, reason, fields, payload[..n]), payload[n..]))
  {
    HeadFromParts(line, behind, status, reason, fields, payload);
  }

  /** A printed keep-alive response is framed exactly, whatever follows it on the stream
      and whatever the order of its headers. */
  lemma {:induction false} ResponseRoundTrip(r: Response, order: seq<string>, rest: string)
    requires Framable(r) && forall k :: k in order ==> k in r.headers
    ensures ReadMessage(Serialize(r, order) + rest) == Some((MessageOf(r, order), rest))
  {
    var behind := Framing(r) + FieldLines(r.headers, order) + "\r\n" + (r.body + rest);
    StatusLineRoundTrip(r);
    AllFieldsRoundTrip(r, order, r.body + rest);
    BodyLengthRoundTrip(r, order);
    ReadFromParts(StatusLine(r), behind, r.status, r.message,
                  MessageOf(r, order).fields, r.body + rest, |r.body|);
    RegroupTail(Framing(r), FieldLines(r.headers, order), "\r\n", r.body, rest);
    Regroup3(StatusLine(r) + "\r\n", Tail(r, order), rest);
    assert (r.body + rest)[..|r.body|] == r.body && (r.body + rest)[|r.body|..] == rest;
  }

  /** The byte stream of several responses, each with its own header order. */
  function Stream(rs: seq<Response>, orders: seq<seq<string>>): string
    requires |rs| == |orders|
    requires forall i :: 0 <= i < |rs| ==> forall k :: k in orders[i] ==> k in rs[i].headers
  {
    if rs == [] then "" else Serialize(rs[0], orders[0]) + Stream(rs[1..], orders[1..])
  }

  function Messages(rs: seq<Response>, orders: seq<seq<string>>): seq<Message>
    requires |rs| == |orders|
    requires forall i :: 0 <= i < |rs| ==> forall k :: k in orders[i] ==> k in rs[i].headers
  {
    if rs == [] then [] else [MessageOf(rs[0], orders[0])] + Messages(rs[1..], orders[1..])
  }

  /** Any concatenation of printed keep-alive responses is split back into exactly their
      status, reason, header fields and bodies. */
  lemma {:induction false} StreamRoundTrip(rs: seq<Response>, orders: seq<seq<string>>)
    requires |rs| == |orders|
    requires forall i :: 0 <= i < |rs| ==> Framable(rs[i])
    requires forall i :: 0 <= i < |rs| ==> forall k :: k in orders[i] ==> k in rs[i].headers
    ensures ReadAll(Stream(rs, orders)) == Some(Messages(rs, orders))
    decreases |rs|
  {
    if rs != [] {
      StreamRoundTrip(rs[1..], orders[1..]);
      ResponseRoundTrip(rs[0], orders[0], Stream(rs[1..], orders[1..]));
    }
  }

  /** Framing is unique: lists of responses that print the same stream are the same messages,
      as many, in the same order. */
  lemma {:induction false} StreamInjective(rs: seq<Response>, orders: seq<seq<string>>,
                                           ss: seq<Response>, orders2: seq<seq<string>>)
    requires |rs| == |orders| && |ss| == |orders2|
    requires forall i :: 0 <= i < |rs| ==> Framable(rs[i])
    requires forall i :: 0 <= i < |ss| ==> Framable(ss[i])
    requires forall i :: 0 <= i < |rs| ==> forall k :: k in orders[i] ==> k in rs[i].headers
    requires forall i :: 0 <= i < |ss| ==> forall k :: k in orders2[i] ==> k in ss[i].headers
    ensures Stream(rs, orders) == Stream(ss, orders2) ==> Messages(rs, orders) == Messages(ss, orders2)
  {
    StreamRoundTrip(rs, orders);
    StreamRoundTrip(ss, orders2);
  }
}
