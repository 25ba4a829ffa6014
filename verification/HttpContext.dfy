/** The request object and the incremental parser over a network buffer
    (src/http/HttpRequest.h, src/http/HttpContext.{h,cpp}), proved to compute the functions
    of HttpParsing. */
module HttpContexts {
  import opened Strings
  import opened NetBuffer
  import H = HttpParsing

  class HttpRequest {
    var verb: H.Method
    var version: H.Version
    var headers: map<string, string>
    var path: string
    var query: string
    var receiveTime: int

    ghost function View(): H.Request
      reads this
    {
      H.Request(verb, version, path, query, headers, receiveTime)
    }

    constructor ()
      ensures View() == H.EMPTY_REQUEST
    {
      verb, version, headers, path, query, receiveTime := H.Invalid, H.UnknownVersion, map[], "", "", 0;
    }

    method SetMethod(m: string) returns (valid: bool)
      modifies this`verb
      ensures verb == H.MethodOf(m) && valid == (verb != H.Invalid)
    {
      if m == "GET" {
        verb := H.Get;
      } else if m == "POST" {
        verb := H.Post;
      } else if m == "HEAD" {
        verb := H.Head;
      } else if m == "PUT" {
        verb := H.Put;
      } else if m == "DELETE" {
        verb := H.Delete;
      } else {
        verb := H.Invalid;
      }
      return verb != H.Invalid;
    }

    /** `colon` is the offset of the first colon of the header line. */
    method AddHeader(line: string, colon: nat)
      requires colon < |line|
      modifies this`headers
      ensures View() == H.AddHeader(old(View()), line, colon)
    {
      var field := line[..colon];
      var start := colon + 1;
      while start < |line| && H.IsSpace(line[start])
        invariant colon < start <= |line|
        invariant H.TrimLeft(line[start..]) == H.TrimLeft(line[colon + 1..])
      {
        assert line[start..][1..] == line[start + 1..];
        start := start + 1;
      }
      var value := line[start..];
      while value != "" && H.IsSpace(value[|value| - 1])
        invariant H.TrimRight(value) == H.TrimRight(line[start..])
        decreases |value|
      {
        value := value[..|value| - 1];
      }
      headers := headers[field := value];
    }

    function GetHeader(field: string): string
      reads this
    {
      if field in headers then headers[field] else ""
    }

    /** Exchanges everything but the body and the receive time. */
    method Swap(that: HttpRequest)
      modifies this, that
      ensures View() == old(that.View()).(receiveTime := old(receiveTime))
      ensures that.View() == old(View()).(receiveTime := old(that.receiveTime))
    {
      verb, that.verb := that.verb, verb;
      version, that.version := that.version, version;
      headers, that.headers := that.headers, headers;
      path, that.path := that.path, path;
      query, that.query := that.query, query;
    }
  }

  class HttpContext {
    var state: H.ParseState
    const request: HttpRequest

    ghost function View(): H.Context
      reads this, request
    {
      H.Context(state, request.View())
    }

    constructor ()
      ensures View() == H.FRESH && fresh(request)
    {
      state := H.ExpectRequestLine;
      request := new HttpRequest();
    }

    predicate GotAll()
      reads this
    {
      state == H.GotAll
    }

    method ProcessRequestLine(line: string) returns (succeed: bool)
      modifies request
      ensures (succeed, request.View()) == H.RequestLine(old(request.View()), line)
    {
      succeed := false;
      var space := H.Find(line, ' ');
      if space != |line| {
        var valid := request.SetMethod(line[..space]);
        if valid {
          var start := line[space + 1..];
          var second := H.Find(start, ' ');
          if second != |start| {
            var target := start[..second];
            var question := H.Find(target, '?');
            if question != second {
              request.path := target[..question];
              request.query := target[question..];
            } else {
              request.path := target;
              assert target == start[..second];
            }
            succeed := SetVersion(start[second + 1..]);
          }
        }
      }
    }

    /** The last part of the request line; its text is kept only if it is a known version. */
    method SetVersion(version: string) returns (succeed: bool)
      modifies request`version
      ensures (succeed, request.View()) == H.SetVersion(old(request.View()), version)
    {
      succeed := |version| == 8 && version[..7] == H.HTTP1;
      if succeed {
        if version[7] == '1' {
          request.version := H.Http11;
        } else if version[7] == '0' {
          request.version := H.Http10;
        } else {
          succeed := false;
        }
      }
    }

    /** What one turn of the parse loop owes: the turn either settles the outcome or leaves
        it to parsing what remains. */
    ghost predicate TurnDone(before: H.Parsed, buf: Buffer, ok: bool, hasMore: bool, now: int)
      requires buf.Valid()
      reads this, request, buf, buf.buffer
    {
      before == if hasMore then H.Parse(View(), buf.Contents(), now)
                else H.Parsed(View(), buf.Contents(), ok)
    }

    method AcceptRequestLine(buf: Buffer, crlf: nat, now: int)
      requires buf.Valid() && crlf + 2 <= |buf.Contents()|
      modifies this`state, request`receiveTime, buf
      ensures buf.Valid() && buf.buffer == old(buf.buffer)
      ensures View() == H.Context(H.ExpectHeaders, old(request.View()).(receiveTime := now))
      ensures buf.Contents() == old(buf.Contents())[crlf + 2..]
    {
      request.receiveTime := now;
      buf.RetrieveUntil(crlf + 2);
      state := H.ExpectHeaders;
    }

    /** The kExpectRequestLine branch, with the CRLF found. */
    method TakeRequestLine(buf: Buffer, crlf: nat, now: int) returns (ok: bool)
      requires buf.Valid() && state == H.ExpectRequestLine
      requires FirstCRLF(buf.Contents()) == Some(crlf)
      modifies this`state, request, buf
      ensures buf.Valid() && buf.buffer == old(buf.buffer)
      ensures TurnDone(old(H.Parse(View(), buf.Contents(), now)), buf, ok, ok, now)
      ensures ok ==> state == H.ExpectHeaders && |buf.Contents()| < |old(buf.Contents())|
      ensures !ok ==> state == H.ExpectRequestLine
    {
      var line := buf.buffer[buf.readerIndex..buf.readerIndex + crlf];
      ghost var c, bytes := View(), buf.Contents();
      assert line == bytes[..crlf];
      ok := ProcessRequestLine(line);
      H.RequestLineTurn(c, bytes, crlf, now, ok, request.View());
      if ok {
        AcceptRequestLine(buf, crlf, now);
      }
    }

    /** The kExpectHeaders branch, with the CRLF found. */
    method TakeHeader(buf: Buffer, crlf: nat, ghost now: int) returns (hasMore: bool)
      requires buf.Valid() && state == H.ExpectHeaders
      requires FirstCRLF(buf.Contents()) == Some(crlf)
      modifies this`state, request, buf
      ensures buf.Valid() && buf.buffer == old(buf.buffer)
      ensures TurnDone(old(H.Parse(View(), buf.Contents(), now)), buf, true, hasMore, now)
      ensures |buf.Contents()| < |old(buf.Contents())|
      ensures state == if hasMore then H.ExpectHeaders else H.GotAll
    {
      var line := buf.buffer[buf.readerIndex..buf.readerIndex + crlf];
      ghost var c, bytes := View(), buf.Contents();
      assert line == bytes[..crlf];
      hasMore := AcceptHeader(buf, crlf, line);
      H.HeaderTurnLeaves(c, bytes, crlf, now, hasMore, View());
    }

    method AcceptHeader(buf: Buffer, crlf: nat, line: string) returns (hasMore: bool)
      requires buf.Valid() && crlf + 2 <= |buf.Contents()|
      modifies this`state, request`headers, buf
      ensures buf.Valid() && buf.buffer == old(buf.buffer)
      ensures hasMore == (H.Find(line, ':') < |line|)
      ensures View() == if hasMore
                        then old(View()).(request := H.AddHeader(old(request.View()), line, H.Find(line, ':')))
                        else old(View()).(state := H.GotAll)
      ensures buf.Contents() == old(buf.Contents())[crlf + 2..]
    {
      hasMore := StoreHeader(line);
      buf.RetrieveUntil(crlf + 2);
    }

    /** A line without a colon ends the headers. */
    method StoreHeader(line: string) returns (hasMore: bool)
      modifies this`state, request`headers
      ensures hasMore == (H.Find(line, ':') < |line|)
      ensures state == if hasMore then old(state) else H.GotAll
      ensures request.View() == if hasMore then H.AddHeader(old(request.View()), line, H.Find(line, ':'))
                                else old(request.View())
    {
      var colon := H.Find(line, ':');
      hasMore := colon != |line|;
      if hasMore {
        request.AddHeader(line, colon);
      } else {
        state := H.GotAll;
      }
    }

    /** One call consumes lines until the request is complete, a line is missing or the
        request line is bad. Not called once complete: the loop would not end. */
    method ParseRequest(buf: Buffer, now: int) returns (ok: bool)
      requires buf.Valid() && state !in {H.GotAll, H.ExpectBody}
      modifies this`state, request, buf
      ensures buf.Valid() && buf.buffer == old(buf.buffer)
      ensures H.Parsed(View(), buf.Contents(), ok) == H.Parse(old(View()), old(buf.Contents()), now)
      ensures state != H.ExpectBody
    {
      ok := true;
      var hasMore := true;
      ghost var goal := H.Parse(View(), buf.Contents(), now);
      while hasMore
        invariant buf.Valid() && buf.buffer == old(buf.buffer) && state != H.ExpectBody
        invariant hasMore ==> ok && state != H.GotAll
        invariant TurnDone(goal, buf, ok, hasMore, now)
        decreases hasMore, |buf.Contents()|
      {
        var crlf := buf.FindCRLF();
        assert crlf == FirstCRLF(buf.Contents());
        if crlf.None? {
          hasMore := false;
        } else if state == H.ExpectRequestLine {
          ok := TakeRequestLine(buf, crlf.value, now);
          hasMore := ok;
        } else {
          hasMore := TakeHeader(buf, crlf.value, now);
        }
      }
    }

    /** Back to the start; only the receive time survives. */
    method Reset()
      modifies this`state, request
      ensures View() == H.FRESH.(request := H.EMPTY_REQUEST.(receiveTime := old(request.receiveTime)))
    {
      state := H.ExpectRequestLine;
      var dummy := new HttpRequest();
      request.Swap(dummy);
    }
  }
}
