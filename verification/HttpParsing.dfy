/** What the HTTP request parser does to a byte string, as functions
    (src/http/HttpContext.cpp, src/http/HttpRequest.h). */
module HttpParsing {
  import opened Strings

  datatype Method = Invalid | Get | Post | Head | Put | Delete
  datatype Version = UnknownVersion | Http10 | Http11

  datatype Request = Request(verb: Method, version: Version, path: string, query: string,
                             headers: map<string, string>, receiveTime: int)

  datatype ParseState = ExpectRequestLine | ExpectHeaders | ExpectBody | GotAll

  datatype Context = Context(state: ParseState, request: Request)

  /** A context, the unread bytes, and what parseRequest returned last. */
  datatype Parsed = Parsed(context: Context, rest: string, ok: bool)

  const EMPTY_REQUEST := Request(Invalid, UnknownVersion, "", "", map[], 0)
  const FRESH := Context(ExpectRequestLine, EMPTY_REQUEST)

  /** std::find on a byte range; |s| when c does not occur. */
  function Find(s: string, c: char): (i: nat)
    ensures i <= |s| && c !in s[..i]
    ensures i < |s| ==> s[i] == c
  {
    if s == "" then 0
    else if s[0] == c then 0
    else
      var i := Find(s[1..], c);
      assert s[..i + 1] == [s[0]] + s[1..][..i];
      i + 1
  }

  /** isspace in the "C" locale. */
  predicate IsSpace(c: char) {
    c == ' ' || c == '\t' || c == '\n' || c == '\U{0B}' || c == '\U{0C}' || c == '\r'
  }

  function TrimLeft(s: string): string {
    if s != "" && IsSpace(s[0]) then TrimLeft(s[1..]) else s
  }

  function TrimRight(s: string): string {
    if s != "" && IsSpace(s[|s| - 1]) then TrimRight(s[..|s| - 1]) else s
  }

  function MethodOf(s: string): Method {
    if s == "GET" then Get
    else if s == "POST" then Post
    else if s == "HEAD" then Head
    else if s == "PUT" then Put
    else if s == "DELETE" then Delete
    else Invalid
  }

  function MethodString(m: Method): string {
    match m
    case Get => "GET"
    case Post => "POST"
    case Head => "HEAD"
    case Put => "PUT"
    case Delete => "DELETE"
    case Invalid => "UNKNOWN"
  }

  function SetTarget(r: Request, target: string): Request {
    var question := Find(target, '?');
    if question < |target|
    then r.(path := target[..question], query := target[question..])
    else r.(path := target)
  }

  const HTTP1 := "HTTP/1."

  function SetVersion(r: Request, version: string): (bool, Request) {
    if |version| == 8 && version[..7] == HTTP1 && version[7] == '1' then (true, r.(version := Http11))
    else if |version| == 8 && version[..7] == HTTP1 && version[7] == '0' then (true, r.(version := Http10))
    else (false, r)
  }

  /** processRequestLine: success, and the request with the fields set so far. */
  function RequestLine(r: Request, line: string): (bool, Request) {
    var space := Find(line, ' ');
    if space == |line| then (false, r)
    else
      var r := r.(verb := MethodOf(line[..space]));
      var rest := line[space + 1..];
      var second := Find(rest, ' ');
      if r.verb == Invalid || second == |rest| then (false, r)
      else SetVersion(SetTarget(r, rest[..second]), rest[second + 1..])
  }

  function AddHeader(r: Request, line: string, colon: nat): Request
    requires colon < |line|
  {
    r.(headers := r.headers[line[..colon] := TrimRight(TrimLeft(line[colon + 1..]))])
  }

  /** parseRequest on all unread bytes. In kGotAll (and kExpectBody, never entered) the
      source would spin; here such a context is left as it is. */
  function Parse(c: Context, bytes: string, now: int): Parsed
    decreases |bytes|
  {
    var crlf := FirstCRLF(bytes);
    if c.state in {GotAll, ExpectBody} || crlf.None? then Parsed(c, bytes, true)
    else
      var line, rest := bytes[..crlf.value], bytes[crlf.value + 2..];
      if c.state == ExpectRequestLine then
        var (ok, r) := RequestLine(c.request, line);
        if ok then Parse(Context(ExpectHeaders, r.(receiveTime := now)), rest, now)
        else Parsed(c.(request := r), bytes, false)
      else
        var colon := Find(line, ':');
        if colon < |line|
        then Parse(c.(request := AddHeader(c.request, line, colon)), rest, now)
        else Parsed(c.(state := GotAll), rest, true)
  }

  /** One turn of the loop on a terminated request line. */
  lemma RequestLineTurn(c: Context, bytes: string, k: nat, now: int, ok: bool, r: Request)
    requires c.state == ExpectRequestLine && FirstCRLF(bytes) == Some(k)
    requires (ok, r) == RequestLine(c.request, bytes[..k])
    ensures Parse(c, bytes, now)
            == if ok then Parse(Context(ExpectHeaders, r.(receiveTime := now)), bytes[k + 2..], now)
               else Parsed(Context(ExpectRequestLine, r), bytes, false)
  {
  }

  /** One turn of the loop on a terminated header line. */
  lemma HeaderTurn(c: Context, bytes: string, k: nat, now: int)
    requires c.state == ExpectHeaders && FirstCRLF(bytes) == Some(k)
    ensures var line := bytes[..k];
            var colon := Find(line, ':');
            Parse(c, bytes, now)
            == if colon < k then Parse(c.(request := AddHeader(c.request, line, colon)), bytes[k + 2..], now)
               else Parsed(c.(state := GotAll), bytes[k + 2..], true)
  {
  }

  /** The same, from what the turn left behind. */
  lemma HeaderTurnLeaves(c: Context, bytes: string, k: nat, now: int, hasMore: bool, d: Context)
    requires c.state == ExpectHeaders && FirstCRLF(bytes) == Some(k)
    requires hasMore == (Find(bytes[..k], ':') < k)
    requires d == if hasMore then c.(request := AddHeader(c.request, bytes[..k], Find(bytes[..k], ':')))
                  else c.(state := GotAll)
    ensures Parse(c, bytes, now)
            == if hasMore then Parse(d, bytes[k + 2..], now) else Parsed(d, bytes[k + 2..], true)
  {
    HeaderTurn(c, bytes, k, now);
  }

  // ----- incremental parsing -----

  /** Bytes arrive behind the unread ones; a finished context is not parsed again. */
  function Feed(p: Parsed, chunk: string, now: int): Parsed {
    if p.context.state == GotAll then Parsed(p.context, p.rest + chunk, true)
    else Parse(p.context, p.rest + chunk, now)
  }

  function FeedAll(p: Parsed, chunks: seq<string>, times: seq<int>): Parsed
    requires |times| == |chunks|
    decreases |chunks|
  {
    if chunks == [] then p else FeedAll(Feed(p, chunks[0], times[0]), chunks[1..], times[1..])
  }

  function Untimed(c: Context): Context {
    c.(request := c.request.(receiveTime := 0))
  }

  /** Everything but the receive time. */
  function UntimedParsed(p: Parsed): Parsed {
    p.(context := Untimed(p.context))
  }

  lemma RequestLineUntimed(r: Request, line: string, t: int)
    ensures RequestLine(r.(receiveTime := t), line).0 == RequestLine(r, line).0
    ensures RequestLine(r.(receiveTime := t), line).1 == RequestLine(r, line).1.(receiveTime := t)
  {
  }

  /** The receive time has no influence on anything else. */
  lemma {:induction false} ParseUntimed(c: Context, bytes: string, now: int)
    ensures UntimedParsed(Parse(c, bytes, now)) == UntimedParsed(Parse(Untimed(c), bytes, 0))
    decreases |bytes|
  {
    var crlf := FirstCRLF(bytes);
    if c.state !in {GotAll, ExpectBody} && crlf.Some? {
      var line, rest := bytes[..crlf.value], bytes[crlf.value + 2..];
      if c.state == ExpectRequestLine {
        RequestLineUntimed(c.request, line, 0);
        var (ok, r) := RequestLine(c.request, line);
        if ok {
          ParseUntimed(Context(ExpectHeaders, r.(receiveTime := now)), rest, now);
        }
      } else {
        var colon := Find(line, ':');
        if colon < |line| {
          ParseUntimed(c.(request := AddHeader(c.request, line, colon)), rest, now);
        }
      }
    }
  }

  /** Parsing the same request line again on top of its own result changes nothing. */
  lemma RequestLineIdempotent(r: Request, line: string)
    ensures RequestLine(RequestLine(r, line).1, line) == RequestLine(r, line)
  {
  }

  /** More bytes do not change the first line. */
  lemma SameLine(a: string, b: string, k: nat)
    requires FirstCRLF(a) == Some(k)
    ensures FirstCRLF(a + b) == Some(k)
    ensures (a + b)[..k] == a[..k] && (a + b)[k + 2..] == a[k + 2..] + b
  {
    FirstCRLFMore(a, b);
  }

  /** Parsing a and then b in the same context is parsing a ++ b. */
  lemma {:induction false} ParseMore(c: Context, a: string, b: string, now: int)
    ensures Feed(Parse(c, a, now), b, now) == if c.state == GotAll then Parsed(c, a + b, true)
                                              else Parse(c, a + b, now)
    decreases |a|
  {
    var crlf := FirstCRLF(a);
    if c.state !in {GotAll, ExpectBody} && crlf.Some? {
      var k := crlf.value;
      SameLine(a, b, k);
      if c.state == ExpectRequestLine {
        var (ok, r) := RequestLine(c.request, a[..k]);
        RequestLineTurn(c, a, k, now, ok, r);
        RequestLineTurn(c, a + b, k, now, ok, r);
        if ok {
          ParseMore(Context(ExpectHeaders, r.(receiveTime := now)), a[k + 2..], b, now);
        } else {
          RequestLineIdempotent(c.request, a[..k]);
          RequestLineTurn(c.(request := r), a + b, k, now, ok, r);
        }
      } else {
        var colon := Find(a[..k], ':');
        HeaderTurn(c, a, k, now);
        HeaderTurn(c, a + b, k, now);
        if colon < k {
          ParseMore(c.(request := AddHeader(c.request, a[..k], colon)), a[k + 2..], b, now);
        }
      }
    }
  }

  lemma ParseNeverExpectsBody(c: Context, bytes: string, now: int)
    requires c.state != ExpectBody
    ensures Parse(c, bytes, now).context.state != ExpectBody
    decreases |bytes|
  {
  }

  /** A result that parsing again without new bytes would not change. */
  ghost predicate Settled(p: Parsed) {
    p.context.state != ExpectBody && Feed(p, "", 0) == p
  }

  lemma FeedTwice(p: Parsed, a: string, b: string)
    ensures Feed(Feed(p, a, 0), b, 0) == Feed(p, a + b, 0)
  {
    if p.context.state != GotAll {
      ParseMore(p.context, p.rest + a, b, 0);
    }
    assert p.rest + a + b == p.rest + (a + b);
  }

  lemma FeedSettles(p: Parsed, a: string)
    requires p.context.state != ExpectBody
    ensures Settled(Feed(p, a, 0))
  {
    FeedTwice(p, a, "");
    assert a + "" == a;
    ParseNeverExpectsBody(p.context, p.rest + a, 0);
  }

  lemma {:induction false} FeedAllIsFeed(p: Parsed, chunks: seq<string>)
    requires Settled(p)
    ensures FeedAll(p, chunks, seq(|chunks|, _ => 0)) == Feed(p, Flatten(chunks), 0)
    decreases |chunks|
  {
    if chunks != [] {
      FeedSettles(p, chunks[0]);
      assert seq(|chunks|, _ => 0)[1..] == seq(|chunks| - 1, _ => 0);
      FeedAllIsFeed(Feed(p, chunks[0], 0), chunks[1..]);
      FeedTwice(p, chunks[0], Flatten(chunks[1..]));
    }
  }

  lemma FeedUntimed(p: Parsed, chunk: string, now: int)
    ensures UntimedParsed(Feed(p, chunk, now)) == UntimedParsed(Feed(UntimedParsed(p), chunk, 0))
  {
    if p.context.state != GotAll {
      ParseUntimed(p.context, p.rest + chunk, now);
    }
  }

  lemma {:induction false} FeedAllUntimed(p: Parsed, q: Parsed, chunks: seq<string>, times: seq<int>)
    requires |times| == |chunks| && UntimedParsed(p) == UntimedParsed(q)
    ensures UntimedParsed(FeedAll(p, chunks, times))
            == UntimedParsed(FeedAll(q, chunks, seq(|chunks|, _ => 0)))
    decreases |chunks|
  {
    if chunks != [] {
      FeedUntimed(p, chunks[0], times[0]);
      FeedUntimed(q, chunks[0], 0);
      assert seq(|chunks|, _ => 0)[1..] == seq(|chunks| - 1, _ => 0);
      FeedAllUntimed(Feed(p, chunks[0], times[0]), Feed(q, chunks[0], 0), chunks[1..], times[1..]);
    }
  }

  /** Incremental parsing: however the input is cut into chunks (inside a CRLF, inside a
      failing request line), feeding them to one context gives the same state, request,
      leftover bytes and verdict as feeding everything at once, but for the receive time.
      The context may be in the middle of a request: see FedIsSettled. */
  lemma {:induction false} CuttingDoesNotMatter(p: Parsed, chunks: seq<string>, times: seq<int>, now: int)
    requires |times| == |chunks| && Settled(UntimedParsed(p))
    ensures UntimedParsed(FeedAll(p, chunks, times)) == UntimedParsed(Feed(p, Flatten(chunks), now))
  {
    var q := UntimedParsed(p);
    FeedAllUntimed(p, q, chunks, times);
    FeedAllIsFeed(q, chunks);
    FeedUntimed(p, Flatten(chunks), now);
    FeedUntimed(q, Flatten(chunks), 0);
  }

  lemma FreshIsSettled()
    ensures Settled(UntimedParsed(Parsed(FRESH, "", true)))
  {
    assert "" + "" == "";
  }

  lemma UntimedFeed(p: Parsed, a: string)
    requires UntimedParsed(p) == p
    ensures UntimedParsed(Feed(p, a, 0)) == Feed(p, a, 0)
  {
    if p.context.state != GotAll {
      ParseKeepsUntimed(p.context, p.rest + a);
    }
  }

  lemma {:induction false} ParseKeepsUntimed(c: Context, bytes: string)
    requires c.request.receiveTime == 0
    ensures Parse(c, bytes, 0).context.request.receiveTime == 0
    decreases |bytes|
  {
    var crlf := FirstCRLF(bytes);
    if c.state !in {GotAll, ExpectBody} && crlf.Some? {
      var line, rest := bytes[..crlf.value], bytes[crlf.value + 2..];
      if c.state == ExpectRequestLine {
        RequestLineUntimed(c.request, line, 0);
        var (ok, r) := RequestLine(c.request, line);
        if ok {
          ParseKeepsUntimed(Context(ExpectHeaders, r.(receiveTime := 0)), rest);
        }
      } else {
        var colon := Find(line, ':');
        if colon < |line| {
          ParseKeepsUntimed(c.(request := AddHeader(c.request, line, colon)), rest);
        }
      }
    }
  }

  /** Whatever a settled context has been fed leaves it settled. */
  lemma FedIsSettled(p: Parsed, chunk: string, now: int)
    requires Settled(UntimedParsed(p))
    ensures Settled(UntimedParsed(Feed(p, chunk, now)))
  {
    var q := UntimedParsed(p);
    FeedUntimed(p, chunk, now);
    UntimedFeed(q, chunk);
    FeedSettles(q, chunk);
  }

  /** The same for a new context. */
  lemma {:induction false} ChunkingDoesNotMatter(chunks: seq<string>, times: seq<int>, now: int)
    requires |times| == |chunks|
    ensures UntimedParsed(FeedAll(Parsed(FRESH, "", true), chunks, times))
            == UntimedParsed(Feed(Parsed(FRESH, "", true), Flatten(chunks), now))
  {
    FreshIsSettled();
    CuttingDoesNotMatter(Parsed(FRESH, "", true), chunks, times, now);
  }

  // ----- round trip -----

  function VersionString(v: Version): string {
    match v
    case Http11 => "HTTP/1.1"
    case Http10 => "HTTP/1.0"
    case UnknownVersion => "HTTP/?.?"
  }

  function HeaderLine(field: string, value: string): string {
    field + ": " + value
  }

  function PrintHeaders(headers: map<string, string>, order: seq<string>): string
    requires forall k :: k in order ==> k in headers
  {
    if order == [] then "\r\n"
    else HeaderLine(order[0], headers[order[0]]) + "\r\n" + PrintHeaders(headers, order[1..])
  }

  function PrintRequestLine(r: Request): string {
    MethodString(r.verb) + " " + (r.path + r.query) + " " + VersionString(r.version)
  }

  /** The message format of RFC 9112, sections 2.1, 3 and 5, with the header fields in the
      given order. */
  function Print(r: Request, order: seq<string>): string
    requires forall k :: k in order ==> k in r.headers
  {
    PrintRequestLine(r) + "\r\n" + PrintHeaders(r.headers, order)
  }

  /** The delimiters do not occur where the grammar forbids them. */
  ghost predicate PrintableTarget(r: Request) {
    && r.verb != Invalid && r.version != UnknownVersion
    && ' ' !in r.path && '?' !in r.path && NoCRLF(r.path)
    && ' ' !in r.query && NoCRLF(r.query)
    && (r.query != "" ==> r.query[0] == '?')
  }

  ghost predicate PrintableHeader(field: string, value: string) {
    && ':' !in field && NoCRLF(field) && NoCRLF(value)
    && (value != "" ==> !IsSpace(value[0]) && !IsSpace(value[|value| - 1]))
  }

  /** `order` lists the header fields, each once. */
  ghost predicate Lists(order: seq<string>, headers: map<string, string>) {
    && (forall i, j :: 0 <= i < j < |order| ==> order[i] != order[j])
    && (forall k :: k in order <==> k in headers)
  }

  lemma {:induction false} FindFirst(a: string, c: char, b: string)
    requires c !in a
    ensures Find(a + [c] + b, c) == |a|
  {
    if a != "" {
      assert (a + [c] + b)[1..] == a[1..] + [c] + b;
      FindFirst(a[1..], c, b);
    }
  }

  lemma {:induction false} FindNone(a: string, c: char)
    requires c !in a
    ensures Find(a, c) == |a|
  {
    if a != "" {
      FindNone(a[1..], c);
    }
  }

  lemma NoCRLFAround(a: string, c: char, b: string)
    requires NoCRLF(a) && NoCRLF(b) && c != '\r' && c != '\n'
    ensures NoCRLF(a + [c] + b)
  {
    var s := a + [c] + b;
    forall k | 0 <= k < |s| ensures !CRLFAt(s, k) {
      assert k + 1 < |a| && CRLFAt(s, k) ==> CRLFAt(a, k);
      assert k > |a| && CRLFAt(s, k) ==> CRLFAt(b, k - |a| - 1);
    }
  }

  lemma RequestLineHasNoCRLF(r: Request)
    requires PrintableTarget(r)
    ensures NoCRLF(PrintRequestLine(r))
  {
    var target := r.path + r.query;
    if r.query != "" {
      assert r.query == [r.query[0]] + r.query[1..];
      assert forall k :: CRLFAt(r.query[1..], k) ==> CRLFAt(r.query, k + 1);
      NoCRLFAround(r.path, '?', r.query[1..]);
      assert target == r.path + ['?'] + r.query[1..];
    } else {
      assert target == r.path;
    }
    NoCRLFAround(MethodString(r.verb), ' ', target);
    NoCRLFAround(MethodString(r.verb) + [' '] + target, ' ', VersionString(r.version));
  }

  lemma SetTargetOfPrinted(r: Request, base: Request)
    requires PrintableTarget(r) && base.query == ""
    ensures SetTarget(base, r.path + r.query) == base.(path := r.path, query := r.query)
  {
    var target := r.path + r.query;
    if r.query == "" {
      assert target == r.path;
      FindNone(r.path, '?');
    } else {
      assert target == r.path + ['?'] + r.query[1..];
      FindFirst(r.path, '?', r.query[1..]);
    }
  }

  lemma MethodRoundTrip(m: Method)
    requires m != Invalid
    ensures MethodOf(MethodString(m)) == m && ' ' !in MethodString(m)
  {
  }

  lemma VersionRoundTrip(r: Request, v: Version)
    requires v != UnknownVersion
    ensures SetVersion(r, VersionString(v)) == (true, r.(version := v))
  {
    assert VersionString(v)[..7] == HTTP1;
  }

  lemma RequestLineRoundTrip(r: Request)
    requires PrintableTarget(r)
    ensures RequestLine(EMPTY_REQUEST, PrintRequestLine(r))
            == (true, EMPTY_REQUEST.(verb := r.verb, version := r.version,
                                     path := r.path, query := r.query))
  {
    var m, target, v := MethodString(r.verb), r.path + r.query, VersionString(r.version);
    var line := PrintRequestLine(r);
    MethodRoundTrip(r.verb);
    var tail := target + " " + v;
    assert line == m + [' '] + tail;
    FindFirst(m, ' ', tail);
    assert line[..|m|] == m && line[|m| + 1..] == tail;
    FindFirst(target, ' ', v);
    assert tail == target + [' '] + v;
    assert tail[..|target|] == target && tail[|target| + 1..] == v;
    var base := EMPTY_REQUEST.(verb := r.verb);
    SetTargetOfPrinted(r, base);
    VersionRoundTrip(base.(path := r.path, query := r.query), r.version);
  }

  lemma TrimTrimmed(value: string)
    requires value != "" ==> !IsSpace(value[0]) && !IsSpace(value[|value| - 1])
    ensures TrimRight(TrimLeft(" " + value)) == value
  {
    assert (" " + value)[1..] == value;
  }

  lemma HeaderRoundTrip(r: Request, field: string, value: string)
    requires PrintableHeader(field, value)
    ensures var line := HeaderLine(field, value);
            && Find(line, ':') == |field| && |field| < |line| && NoCRLF(line)
            && AddHeader(r, line, |field|) == r.(headers := r.headers[field := value])
  {
    var line := HeaderLine(field, value);
    var tail := " " + value;
    assert line == field + [':'] + tail;
    FindFirst(field, ':', tail);
    assert line[..|field|] == field && line[|field| + 1..] == tail;
    TrimTrimmed(value);
    assert tail == "" + [' '] + value;
    NoCRLFAround("", ' ', value);
    NoCRLFAround(field, ':', tail);
  }

  /** One header line is consumed and stored. */
  lemma HeaderStep(r: Request, field: string, value: string, others: string, now: int)
    requires PrintableHeader(field, value)
    ensures Parse(Context(ExpectHeaders, r), HeaderLine(field, value) + "\r\n" + others, now)
            == Parse(Context(ExpectHeaders, r.(headers := r.headers[field := value])), others, now)
  {
    var line := HeaderLine(field, value);
    var bytes := line + "\r\n" + others;
    HeaderRoundTrip(r, field, value);
    LineFound(line, others);
    assert bytes[..|line|] == line && bytes[|line| + 2..] == others;
  }

  /** The blank line ends the request. */
  lemma BlankLineStep(r: Request, rest: string, now: int)
    ensures Parse(Context(ExpectHeaders, r), "\r\n" + rest, now)
            == Parsed(Context(GotAll, r), rest, true)
  {
    var bytes := "\r\n" + rest;
    LineFound("", rest);
    assert bytes == "" + "\r\n" + rest;
    assert bytes[..0] == "" && bytes[2..] == rest;
  }

  function Listed(headers: map<string, string>, order: seq<string>): map<string, string>
    requires forall k :: k in order ==> k in headers
  {
    map k | k in order :: headers[k]
  }

  lemma ListedStep(base: map<string, string>, headers: map<string, string>, order: seq<string>)
    requires order != [] && forall k :: k in order ==> k in headers
    ensures base[order[0] := headers[order[0]]] + Listed(headers, order[1..])
            == base + Listed(headers, order)
  {
    assert forall k :: k in order <==> k == order[0] || k in order[1..];
  }

  /** Header lines in any order are all read back, the blank line ends the request, and the
      bytes behind it stay unread. */
  lemma {:induction false} HeadersRoundTrip(r: Request, headers: map<string, string>,
                                            order: seq<string>, rest: string, now: int)
    requires forall k :: k in order ==> k in headers && PrintableHeader(k, headers[k])
    ensures Parse(Context(ExpectHeaders, r), PrintHeaders(headers, order) + rest, now)
            == Parsed(Context(GotAll, r.(headers := r.headers + Listed(headers, order))),
                      rest, true)
    decreases |order|
  {
    if order == [] {
      BlankLineStep(r, rest, now);
      assert r.headers + Listed(headers, order) == r.headers;
    } else {
      var field, value := order[0], headers[order[0]];
      var others := PrintHeaders(headers, order[1..]) + rest;
      assert PrintHeaders(headers, order) + rest
             == HeaderLine(field, value) + "\r\n" + others;
      HeaderStep(r, field, value, others, now);
      var r1 := r.(headers := r.headers[field := value]);
      HeadersRoundTrip(r1, headers, order[1..], rest, now);
      ListedStep(r.headers, headers, order);
    }
  }

  lemma RequestLineStep(r: Request, others: string, now: int)
    requires PrintableTarget(r)
    ensures Parse(FRESH, PrintRequestLine(r) + "\r\n" + others, now)
            == Parse(Context(ExpectHeaders, r.(headers := map[], receiveTime := now)), others, now)
  {
    var line := PrintRequestLine(r);
    var bytes := line + "\r\n" + others;
    RequestLineHasNoCRLF(r);
    LineFound(line, others);
    assert bytes[..|line|] == line && bytes[|line| + 2..] == others;
    RequestLineRoundTrip(r);
  }

  /** All header lines of a request, read into a request that has none yet. */
  lemma AllHeadersRoundTrip(r: Request, order: seq<string>, rest: string, now: int)
    requires Lists(order, r.headers)
    requires forall k :: k in r.headers ==> PrintableHeader(k, r.headers[k])
    ensures Parse(Context(ExpectHeaders, r.(headers := map[], receiveTime := now)),
                  PrintHeaders(r.headers, order) + rest, now)
            == Parsed(Context(GotAll, r.(receiveTime := now)), rest, true)
  {
    var r1 := r.(headers := map[], receiveTime := now);
    HeadersRoundTrip(r1, r.headers, order, rest, now);
    assert r1.headers + Listed(r.headers, order) == r.headers;
  }

  lemma PrintedInTwo(r: Request, order: seq<string>, rest: string)
    requires PrintableTarget(r) && Lists(order, r.headers)
    ensures Print(r, order) + rest == PrintRequestLine(r) + "\r\n" + (PrintHeaders(r.headers, order) + rest)
  {
    Regroup3(PrintRequestLine(r) + "\r\n", PrintHeaders(r.headers, order), rest);
  }

  /** Round trip: a printed request followed by anything is parsed to exactly that request,
      leaving exactly what followed, whatever the order of its header lines. */
  lemma {:induction false} RequestRoundTrip(r: Request, order: seq<string>, rest: string, now: int)
    requires PrintableTarget(r) && Lists(order, r.headers)
    requires forall k :: k in r.headers ==> PrintableHeader(k, r.headers[k])
    ensures Parse(FRESH, Print(r, order) + rest, now)
            == Parsed(Context(GotAll, r.(receiveTime := now)), rest, true)
  {
    var others := PrintHeaders(r.headers, order) + rest;
    PrintedInTwo(r, order, rest);
    RequestLineStep(r, others, now);
    AllHeadersRoundTrip(r, order, rest, now);
  }

  /** Pipelined requests: each parse takes exactly its own request off the front. */
  lemma {:induction false} PipelinedRoundTrip(r: Request, order: seq<string>, s: Request, order2: seq<string>, now: int)
    requires PrintableTarget(r) && Lists(order, r.headers)
    requires PrintableTarget(s) && Lists(order2, s.headers)
    requires forall k :: k in r.headers ==> PrintableHeader(k, r.headers[k])
    requires forall k :: k in s.headers ==> PrintableHeader(k, s.headers[k])
    ensures var first := Parse(FRESH, Print(r, order) + Print(s, order2), now);
            && first.context == Context(GotAll, r.(receiveTime := now))
            && Parse(FRESH, first.rest, now) == Parsed(Context(GotAll, s.(receiveTime := now)), "", true)
  {
    RequestRoundTrip(r, order, Print(s, order2), now);
    RequestRoundTrip(s, order2, "", now);
    assert Print(s, order2) + "" == Print(s, order2);
  }
}
