/** Which request lines and header lines the parser accepts, and what it takes from them
    (src/http/HttpContext.cpp, src/http/HttpRequest.h). */
module HttpLines {
  import opened Strings
  import opened HttpParsing

  // ----- request lines -----

  /** A method, a target and a version, one space apart. */
  predicate IsRequestLine(line: string, m: string, t: string, v: string) {
    && line == m + [' '] + (t + [' '] + v)
    && ' ' !in m && ' ' !in t
    && m in {"GET", "POST", "HEAD", "PUT", "DELETE"}
    && v in {"HTTP/1.0", "HTTP/1.1"}
  }

  ghost predicate Acceptable(line: string) {
    exists m, t, v :: IsRequestLine(line, m, t, v)
  }

  /** A text cut at the first occurrence of c. */
  lemma CutAt(s: string, c: char)
    requires c in s
    ensures var i := Find(s, c); i < |s| && s == s[..i] + [c] + s[i + 1..] && c !in s[..i]
  {
    assert s[..|s|] == s;
  }

  /** And put together again. */
  lemma Cuts(m: string, c: char, rest: string)
    requires c !in m
    ensures var s := m + [c] + rest;
            Find(s, c) == |m| && s[..|m|] == m && s[|m| + 1..] == rest
  {
    FindFirst(m, c, rest);
  }

  lemma VersionIff(r: Request, v: string)
    ensures SetVersion(r, v).0 <==> v in {"HTTP/1.0", "HTTP/1.1"}
    ensures SetVersion(r, v).0 ==> SetVersion(r, v).1 == r.(version := if v == "HTTP/1.1" then Http11 else Http10)
  {
    assert "HTTP/1.0"[..7] == HTTP1 && "HTTP/1.1"[..7] == HTTP1;
    assert "HTTP/1.0" == HTTP1 + ['0'] && "HTTP/1.1" == HTTP1 + ['1'];
    if |v| == 8 {
      assert v == v[..7] + [v[7]];
    }
  }

  lemma MethodIff(m: string)
    ensures MethodOf(m) != Invalid <==> m in {"GET", "POST", "HEAD", "PUT", "DELETE"}
  {
  }

  /** What follows from acceptance, with the three parts. */
  lemma {:induction false} Parts(r: Request, line: string) returns (m: string, t: string, v: string)
    requires RequestLine(r, line).0
    ensures IsRequestLine(line, m, t, v)
  {
    var space := Find(line, ' ');
    CutAt(line, ' ');
    var rest := line[space + 1..];
    CutAt(rest, ' ');
    m, t, v := line[..space], rest[..Find(rest, ' ')], rest[Find(rest, ' ') + 1..];
    VersionIff(SetTarget(r.(verb := MethodOf(m)), t), v);
    MethodIff(m);
  }

  lemma {:induction false} Spaces(m: string, t: string, v: string)
    ensures m + [' '] + (t + [' '] + v) == m + " " + t + " " + v
  {
  }

  /** What the accepted parts are stored as: the verb by its name, the target cut at its first
      question mark, the version by its name; a target without one leaves the query alone. */
  ghost predicate Stored(r: Request, m: string, t: string, v: string, d: Request) {
    && d.headers == r.headers && d.receiveTime == r.receiveTime
    && d.verb == (if m == "GET" then Get else if m == "POST" then Post else if m == "HEAD" then Head
                  else if m == "PUT" then Put else Delete)
    && d.version == (if v == "HTTP/1.1" then Http11 else Http10)
    && '?' !in d.path
    && (if '?' in t then d.query != "" && d.query[0] == '?' && t == d.path + d.query
        else d.path == t && d.query == r.query)
  }

  lemma TargetStored(r: Request, t: string)
    ensures var d := SetTarget(r, t);
            && d == r.(path := d.path, query := d.query) && '?' !in d.path
            && (if '?' in t then d.query != "" && d.query[0] == '?' && t == d.path + d.query
                else d.path == t && d.query == r.query)
  {
    var q := Find(t, '?');
    assert t == t[..q] + t[q..];
    if q == |t| {
      assert t[..q] == t;
    }
  }

  lemma TakenApart(r: Request, m: string, t: string, v: string)
    requires ' ' !in m && ' ' !in t && MethodOf(m) != Invalid
    ensures RequestLine(r, m + [' '] + (t + [' '] + v))
            == SetVersion(SetTarget(r.(verb := MethodOf(m)), t), v)
  {
    Cuts(m, ' ', t + [' '] + v);
    Cuts(t, ' ', v);
  }

  lemma Accepted(r: Request, line: string, m: string, t: string, v: string)
    requires IsRequestLine(line, m, t, v)
    ensures RequestLine(r, line).0 && Stored(r, m, t, v, RequestLine(r, line).1)
  {
    MethodIff(m);
    TakenApart(r, m, t, v);
    var named := r.(verb := MethodOf(m));
    TargetStored(named, t);
    VersionIff(SetTarget(named, t), v);
  }

  /** A request line is accepted if and only if it is a known method, a target without spaces
      and one of the two versions, each one space apart. */
  lemma AcceptedIff(r: Request, line: string)
    ensures RequestLine(r, line).0 <==>
            exists m, t, v ::
              && line == m + " " + t + " " + v && ' ' !in m && ' ' !in t
              && m in {"GET", "POST", "HEAD", "PUT", "DELETE"} && v in {"HTTP/1.0", "HTTP/1.1"}
  {
    if RequestLine(r, line).0 {
      var m, t, v := Parts(r, line);
      Spaces(m, t, v);
    }
    if m, t, v :|
      && line == m + " " + t + " " + v && ' ' !in m && ' ' !in t
      && m in {"GET", "POST", "HEAD", "PUT", "DELETE"} && v in {"HTTP/1.0", "HTTP/1.1"} {
      Spaces(m, t, v);
      Accepted(r, line, m, t, v);
    }
  }

  // ----- header lines -----

  predicate IsBlank(c: char) {
    c in {' ', '\t', '\n', '\U{0B}', '\U{0C}', '\r'}
  }

  predicate Blank(s: string) {
    forall c :: c in s ==> IsBlank(c)
  }

  /** No white space at either end. */
  predicate Trimmed(s: string) {
    s != "" ==> !IsBlank(s[0]) && !IsBlank(s[|s| - 1])
  }

  lemma {:induction false} LeftTrimmed(s: string) returns (a: string)
    ensures s == a + TrimLeft(s) && Blank(a)
    ensures TrimLeft(s) != "" ==> !IsBlank(TrimLeft(s)[0])
    decreases |s|
  {
    if s != "" && IsSpace(s[0]) {
      var b := LeftTrimmed(s[1..]);
      a := [s[0]] + b;
      assert s == [s[0]] + s[1..];
    } else {
      a := "";
    }
  }

  lemma {:induction false} RightTrimmed(s: string) returns (b: string)
    ensures s == TrimRight(s) + b && Blank(b) && TrimRight(s) <= s
    ensures TrimRight(s) != "" ==> !IsBlank(TrimRight(s)[|TrimRight(s)| - 1])
    decreases |s|
  {
    if s != "" && IsSpace(s[|s| - 1]) {
      var front := s[..|s| - 1];
      var a := RightTrimmed(front);
      b := a + [s[|s| - 1]];
      assert s == front + [s[|s| - 1]];
    } else {
      b := "";
    }
  }

  /** A header line is a field name, a colon, and a value between white space. */
  predicate IsHeaderLine(line: string, field: string, a: string, value: string, b: string) {
    && line == field + [':'] + (a + (value + b))
    && ':' !in field && Blank(a) && Blank(b) && Trimmed(value)
  }

  /** What is stored of a header line: the text in front of the first colon, and the text behind
      it without the white space at its ends. */
  lemma {:induction false} HeaderIsTrimmed(r: Request, line: string)
    returns (field: string, a: string, value: string, b: string)
    requires ':' in line
    ensures IsHeaderLine(line, field, a, value, b)
    ensures Find(line, ':') < |line|
    ensures AddHeader(r, line, Find(line, ':')) == r.(headers := r.headers[field := value])
  {
    CutAt(line, ':');
    var colon := Find(line, ':');
    field := line[..colon];
    a, value, b := TextIsTrimmed(line[colon + 1..]);
  }

  lemma {:induction false} TextIsTrimmed(text: string) returns (a: string, value: string, b: string)
    ensures text == a + (value + b) && Blank(a) && Blank(b) && Trimmed(value)
    ensures value == TrimRight(TrimLeft(text))
  {
    a := LeftTrimmed(text);
    b := RightTrimmed(TrimLeft(text));
    value := TrimRight(TrimLeft(text));
    assert value != "" ==> value[0] == TrimLeft(text)[0];
  }

  // ----- whole parses -----

  /** The first terminated line of these bytes. */
  ghost predicate FirstLine(bytes: string, line: string) {
    line + "\r\n" <= bytes && forall j :: j < |line| ==> !CRLFAt(bytes, j)
  }

  lemma FirstLineIs(bytes: string, line: string)
    requires FirstLine(bytes, line)
    ensures FirstCRLF(bytes) == Some(|line|) && bytes[..|line|] == line
  {
    assert bytes[|line|] == (line + "\r\n")[|line|] == '\r';
    assert bytes[|line| + 1] == (line + "\r\n")[|line| + 1] == '\n';
    FirstCRLFUnique(bytes, |line|);
  }

  lemma FirstLineOf(bytes: string, k: nat)
    requires FirstCRLF(bytes) == Some(k)
    ensures FirstLine(bytes, bytes[..k])
  {
    assert bytes[..k + 2] == bytes[..k] + "\r\n";
  }

  /** Header lines are never refused. */
  lemma {:induction false} HeadersNeverFail(c: Context, bytes: string, now: int)
    requires c.state != ExpectRequestLine
    ensures Parse(c, bytes, now).ok
    decreases |bytes|
  {
    var crlf := FirstCRLF(bytes);
    if c.state == ExpectHeaders && crlf.Some? {
      var line := bytes[..crlf.value];
      var colon := Find(line, ':');
      if colon < |line| {
        HeadersNeverFail(c.(request := AddHeader(c.request, line, colon)), bytes[crlf.value + 2..], now);
      }
    }
  }

  /** parseRequest fails if and only if it expects a request line and the first terminated line
      is not one; and then it consumes nothing and still expects it. */
  lemma {:induction false} RefusedIff(c: Context, bytes: string, now: int)
    ensures !Parse(c, bytes, now).ok <==>
            c.state == ExpectRequestLine && exists line :: FirstLine(bytes, line) && !Acceptable(line)
    ensures !Parse(c, bytes, now).ok ==>
              Parse(c, bytes, now).rest == bytes && Parse(c, bytes, now).context.state == ExpectRequestLine
  {
    OnlyFirstLine(bytes);
    if c.state != ExpectRequestLine {
      HeadersNeverFail(c, bytes, now);
    } else if FirstCRLF(bytes).Some? {
      RefusedFirst(c, bytes, FirstCRLF(bytes).value, now);
    }
  }

  lemma OnlyFirstLine(bytes: string)
    ensures FirstCRLF(bytes).None? ==> forall line :: !FirstLine(bytes, line)
    ensures FirstCRLF(bytes).Some? ==>
              FirstLine(bytes, bytes[..FirstCRLF(bytes).value])
              && forall line :: FirstLine(bytes, line) ==> line == bytes[..FirstCRLF(bytes).value]
  {
    if FirstCRLF(bytes).Some? {
      FirstLineOf(bytes, FirstCRLF(bytes).value);
    }
    forall line | FirstLine(bytes, line)
      ensures FirstCRLF(bytes).Some? && line == bytes[..FirstCRLF(bytes).value] {
      FirstLineIs(bytes, line);
    }
  }

  lemma RefusedFirst(c: Context, bytes: string, k: nat, now: int)
    requires c.state == ExpectRequestLine && FirstCRLF(bytes) == Some(k)
    ensures Parse(c, bytes, now).ok <==> Acceptable(bytes[..k])
    ensures !Parse(c, bytes, now).ok ==>
              Parse(c, bytes, now).rest == bytes && Parse(c, bytes, now).context.state == ExpectRequestLine
  {
    var (ok, r) := RequestLine(c.request, bytes[..k]);
    RequestLineTurn(c, bytes, k, now, ok, r);
    if ok {
      var m, t, v := Parts(c.request, bytes[..k]);
      HeadersNeverFail(Context(ExpectHeaders, r.(receiveTime := now)), bytes[k + 2..], now);
    } else if Acceptable(bytes[..k]) {
      var m, t, v :| IsRequestLine(bytes[..k], m, t, v);
      Accepted(c.request, bytes[..k], m, t, v);
    }
  }

  /** A line without a colon ends the request, and what is behind it stays unread. */
  lemma {:induction false} LineWithoutColonEnds(r: Request, bytes: string, k: nat, now: int)
    requires FirstCRLF(bytes) == Some(k) && ':' !in bytes[..k]
    ensures Parse(Context(ExpectHeaders, r), bytes, now) == Parsed(Context(GotAll, r), bytes[k + 2..], true)
  {
    HeaderTurn(Context(ExpectHeaders, r), bytes, k, now);
    assert Find(bytes[..k], ':') == k;
  }

  lemma {:induction false} HeaderLineAt(r: Request, bytes: string, k: nat, now: int, d: Request)
    requires FirstCRLF(bytes) == Some(k) && Find(bytes[..k], ':') < k
    requires d == AddHeader(r, bytes[..k], Find(bytes[..k], ':'))
    ensures Parse(Context(ExpectHeaders, r), bytes, now) == Parse(Context(ExpectHeaders, d), bytes[k + 2..], now)
  {
    var c := Context(ExpectHeaders, r);
    HeaderTurnLeaves(c, bytes, k, now, true, c.(request := d));
  }

  /** A header line with a colon is stored: the text in front of its first colon, and the text
      behind it without the white space at its ends; and parsing goes on behind the line. */
  lemma {:induction false} HeaderLineMeans(r: Request, bytes: string, k: nat, now: int)
    returns (field: string, a: string, value: string, b: string)
    requires FirstCRLF(bytes) == Some(k) && ':' in bytes[..k]
    ensures IsHeaderLine(bytes[..k], field, a, value, b)
    ensures Parse(Context(ExpectHeaders, r), bytes, now)
            == Parse(Context(ExpectHeaders, r.(headers := r.headers[field := value])), bytes[k + 2..], now)
  {
    field, a, value, b := HeaderIsTrimmed(r, bytes[..k]);
    HeaderLineAt(r, bytes, k, now, r.(headers := r.headers[field := value]));
  }

  /** An accepted request line is stored, with the time, and parsing goes on behind it. */
  lemma {:induction false} RequestLineMeans(r: Request, bytes: string, k: nat,
                                            m: string, t: string, v: string, now: int)
    returns (d: Request)
    requires FirstCRLF(bytes) == Some(k) && IsRequestLine(bytes[..k], m, t, v)
    ensures Stored(r, m, t, v, d)
    ensures Parse(Context(ExpectRequestLine, r), bytes, now)
            == Parse(Context(ExpectHeaders, d.(receiveTime := now)), bytes[k + 2..], now)
  {
    Accepted(r, bytes[..k], m, t, v);
    d := RequestLine(r, bytes[..k]).1;
    RequestLineTurn(Context(ExpectRequestLine, r), bytes, k, now, true, d);
  }
}
