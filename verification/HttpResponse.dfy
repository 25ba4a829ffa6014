/** The response object of src/http/HttpResponse.{h,cpp}, printing into a network buffer. */
module HttpResponses {
  import opened Strings
  import opened NetBuffer
  import F = HttpFraming
  import opened Decimal

  class HttpResponse {
    var statusCode: nat
    var statusMessage: string
    var closeConnection: bool
    var headers: map<string, string>
    var body: string

    ghost function View(): F.Response
      reads this
    {
      F.Response(statusCode, statusMessage, closeConnection, headers, body)
    }

    constructor (close: bool)
      ensures View() == F.Response(0, "", close, map[], "")
    {
      statusCode, statusMessage, closeConnection, headers, body := 0, "", close, map[], "";
    }

    method AddHeader(key: string, value: string)
      modifies this`headers
      ensures View() == old(View()).(headers := old(headers)[key := value])
    {
      headers := headers[key := value];
    }

    method AppendStatusLine(output: Buffer)
      requires output.Valid()
      modifies output, output.buffer
      ensures output.Valid() && (output.buffer == old(output.buffer) || fresh(output.buffer))
      ensures output.Contents() == old(output.Contents()) + (F.StatusLine(View()) + "\r\n")
    {
      var text := F.Cut("HTTP/1.1 " + PrintNat(statusCode) + " ");
      Regroup(output.Contents(), text, statusMessage, "\r\n");
      output.Append(text);
      output.Append(statusMessage);
      output.Append("\r\n");
    }

    /** The fields that say how the body ends. */
    method AppendFraming(output: Buffer)
      requires output.Valid()
      modifies output, output.buffer
      ensures output.Valid() && (output.buffer == old(output.buffer) || fresh(output.buffer))
      ensures output.Contents() == old(output.Contents()) + F.Framing(View())
    {
      F.FramingText(View());
      if closeConnection {
        output.Append("Connection: close\r\n");
      } else {
        var text := F.Cut("Content-Length: " + PrintNat(|body|) + "\r\n");
        Regroup3(output.Contents(), text, "Connection: Keep-Alive\r\n");
        output.Append(text);
        output.Append("Connection: Keep-Alive\r\n");
      }
    }

    method AppendField(output: Buffer, key: string)
      requires output.Valid() && key in headers
      modifies output, output.buffer
      ensures output.Valid() && (output.buffer == old(output.buffer) || fresh(output.buffer))
      ensures output.Contents() == old(output.Contents()) + F.FieldLine(key, headers[key])
    {
      Regroup5(output.Contents(), key, ": ", headers[key], "\r\n");
      output.Append(key);
      output.Append(": ");
      output.Append(headers[key]);
      output.Append("\r\n");
    }

    /** `order` lists, once each, the headers that are not in `rest`. */
    ghost predicate Visited(order: seq<string>, rest: set<string>)
      reads this
    {
      && rest <= headers.Keys
      && (forall k :: k in order <==> k in headers && k !in rest)
      && (forall i, j :: 0 <= i < j < |order| ==> order[i] != order[j])
    }

    lemma VisitOne(order: seq<string>, rest: set<string>, key: string)
      requires Visited(order, rest) && key in rest
      ensures Visited(order + [key], rest - {key})
    {
    }

    /** One more header line behind those of `order`. */
    method AppendNext(output: Buffer, key: string, ghost before: string, ghost order: seq<string>)
      requires output.Valid() && key in headers && forall k :: k in order ==> k in headers
      requires output.Contents() == before + F.FieldLines(headers, order)
      modifies output, output.buffer
      ensures output.Valid() && (output.buffer == old(output.buffer) || fresh(output.buffer))
      ensures forall k :: k in order + [key] ==> k in headers
      ensures output.Contents() == before + F.FieldLines(headers, order + [key])
    {
      AppendField(output, key);
      F.FieldLinesSnoc(headers, order, key);
      Regroup3(before, F.FieldLines(headers, order), F.FieldLine(key, headers[key]));
    }

    method AppendFields(output: Buffer) returns (ghost order: seq<string>)
      requires output.Valid()
      modifies output, output.buffer
      ensures output.Valid() && (output.buffer == old(output.buffer) || fresh(output.buffer))
      ensures Visited(order, {})
      ensures output.Contents() == old(output.Contents()) + F.FieldLines(headers, order)
    {
      order := [];
      var rest := headers.Keys;
      ghost var before := output.Contents();
      while rest != {}
        invariant output.Valid() && (output.buffer == old(output.buffer) || fresh(output.buffer))
        invariant Visited(order, rest)
        invariant output.Contents() == before + F.FieldLines(headers, order)
        decreases |rest|
      {
        var key :| key in rest;
        AppendNext(output, key, before, order);
        VisitOne(order, rest, key);
        order := order + [key];
        rest := rest - {key};
      }
    }

    /** Prints the response behind what the buffer holds. The iteration order of the header
        map is arbitrary; `order` is the one taken, each header once. */
    method AppendToBuffer(output: Buffer) returns (ghost order: seq<string>)
      requires output.Valid()
      modifies output, output.buffer
      ensures output.Valid() && (output.buffer == old(output.buffer) || fresh(output.buffer))
      ensures forall k :: k in order <==> k in headers
      ensures forall i, j :: 0 <= i < j < |order| ==> order[i] != order[j]
      ensures output.Contents() == old(output.Contents()) + F.Serialize(View(), order)
    {
      ghost var before := output.Contents();
      AppendStatusLine(output);
      AppendFraming(output);
      order := AppendFields(output);
      output.Append("\r\n");
      output.Append(body);
      F.SerializePieces(before, View(), order);
    }
  }
}
