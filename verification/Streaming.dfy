/** handleHTTPRequest: relaying one upstream response through the tunnel, and what the
    request reports to the circuit breaker and to the response counter.

    Everything outside the client is an input: what each upstream read returns, whether the
    timeout fires first, which sends succeed. */
module Streaming {
  import opened Prelude

  type byte = x: int | 0 <= x < 256
  type Headers = map<string, seq<string>>

  /** `timeoutCause`: the error is, or comes with, the proxy request timeout. */
  datatype ReadError = NoError | EOF | Broken(timeoutCause: bool)

  /** One turn of the read loop: what Read returns, and whether the timeout context is done first. */
  datatype Read = Read(data: seq<byte>, error: ReadError, timeoutFirst: bool)

  datatype Response = Response(status: int, headers: Headers, isSSE: bool, turns: seq<Read>)

  datatype Upstream = DoFailed(timeoutCause: bool) | Responds(response: Response)

  /** What the checks before the upstream call find. */
  datatype Request = Request(id: string, verb: string, path: string, resolves: bool, builds: bool)

  /** A message handed to the connection; its body is a buffer of its own. */
  datatype Message = Message(id: string, status: int, headers: Headers, body: array<byte>, endStream: bool)

  /** The same by value. */
  datatype Packet = Packet(id: string, status: int, headers: Headers, body: seq<byte>, endStream: bool)

  datatype Record = Success | Failure

  datatype Result =
    | NoId | ProxyError | Completed | ChunkSendFailed | FinalSendFailed | TimedOut
    | ReadFailed(timeoutCause: bool)
    | StillReading   // the given turns are used up and the handler waits for the next

  ghost function Wire(m: Message): Packet
    reads m.body
  {
    Packet(m.id, m.status, m.headers, m.body[..], m.endStream)
  }

  /** The messages, read now, carry these packets: their buffers have not been disturbed. */
  ghost predicate Carry(sent: seq<Message>, packets: seq<Packet>)
    reads set i | 0 <= i < |sent| :: sent[i].body
  {
    |sent| == |packets| && forall k :: 0 <= k < |sent| ==> Wire(sent[k]) == packets[k]
  }

  // ---------------------------------------------------------------- what should be sent

  /** The non-empty pieces of the upstream body, in order. */
  function Pieces(turns: seq<Read>): seq<seq<byte>> {
    if turns == [] then []
    else
      var last := turns[|turns| - 1].data;
      Pieces(turns[..|turns| - 1]) + if last == [] then [] else [last]
  }

  /** Status and headers travel on the first message only. */
  function Heading(k: nat, id: string, response: Response, body: seq<byte>, endStream: bool): Packet {
    if k == 0 then Packet(id, response.status, response.headers, body, endStream)
    else Packet(id, 0, map[], body, endStream)
  }

  function DataPackets(id: string, response: Response, pieces: seq<seq<byte>>): (r: seq<Packet>)
    ensures |r| == |pieces|
  {
    seq(|pieces|, k requires 0 <= k < |pieces| => Heading(k, id, response, pieces[k], false))
  }

  /** One more turn adds its piece, unless the read was empty. */
  lemma DataSnoc(id: string, response: Response, n: nat)
    requires n < |response.turns|
    ensures var piece := response.turns[n].data;
            var data := DataPackets(id, response, Pieces(response.turns[..n]));
            DataPackets(id, response, Pieces(response.turns[..n + 1]))
            == if piece == [] then data else data + [Heading(|data|, id, response, piece, false)]
  {
    assert response.turns[..n + 1][..n] == response.turns[..n];
  }

  function Verdict(status: int): Record {
    if status < 200 || status >= 300 then Failure else Success
  }

  /** How a relay may end after `consumed` reads, what it has sent, recorded and counted. */
  ghost predicate Relayed(id: string, response: Response, sendOk: nat -> bool, result: Result, consumed: nat,
                          sent: seq<Packet>, records: seq<Record>, observed: seq<int>) {
    && consumed <= |response.turns|
    && (forall k :: 0 <= k < |sent| ==> sendOk(k))
    && (forall k :: 0 <= k < consumed ==> response.isSSE || !response.turns[k].timeoutFirst)
    && (forall k :: 0 <= k < consumed - 1 ==> response.turns[k].error.NoError?)
    && var data := DataPackets(id, response, Pieces(response.turns[..consumed]));
       match result
       case Completed =>
         && consumed > 0 && response.turns[consumed - 1].error.EOF?
         && sent == data + [Heading(|data|, id, response, [], true)]
         && records == [Verdict(response.status)] && observed == [response.status]
       case FinalSendFailed =>
         && consumed > 0 && response.turns[consumed - 1].error.EOF?
         && sent == data && !sendOk(|sent|)
         && records == [Verdict(response.status)] && observed == []
       case ChunkSendFailed =>
         && consumed > 0 && response.turns[consumed - 1].data != []
         && sent == DataPackets(id, response, Pieces(response.turns[..consumed - 1])) && !sendOk(|sent|)
         && records == [Verdict(response.status)] && observed == []
       case TimedOut =>
         && consumed < |response.turns| && !response.isSSE && response.turns[consumed].timeoutFirst
         && (consumed > 0 ==> response.turns[consumed - 1].error.NoError?)
         && sent == data && records == [] && observed == []
       case ReadFailed(timeoutCause) =>
         && consumed > 0 && response.turns[consumed - 1].error == Broken(timeoutCause)
         && sent == data && records == (if timeoutCause then [] else [Failure]) && observed == []
       case StillReading =>
         && consumed == |response.turns| && (consumed > 0 ==> response.turns[consumed - 1].error.NoError?)
         && sent == data && records == [] && observed == []
       case _ => false
  }

  /** How the relay ends when turn n is next and k messages are out. */
  function RelayEnd(response: Response, sendOk: nat -> bool, n: nat, k: nat): Result
    requires n <= |response.turns|
    decreases |response.turns| - n
  {
    if n == |response.turns| then StillReading
    else
      var read := response.turns[n];
      var k' := if read.data == [] then k else k + 1;
      if !response.isSSE && read.timeoutFirst then TimedOut
      else if read.data != [] && !sendOk(k) then ChunkSendFailed
      else
        match read.error
        case NoError => RelayEnd(response, sendOk, n + 1, k')
        case Broken(timeoutCause) => ReadFailed(timeoutCause)
        case EOF => if sendOk(k') then Completed else FinalSendFailed
  }

  /** After `consumed` turns the loop goes on, all pieces sent. */
  ghost predicate Going(id: string, response: Response, sendOk: nat -> bool, consumed: nat, sent: seq<Packet>) {
    && consumed <= |response.turns|
    && (forall k :: 0 <= k < |sent| ==> sendOk(k))
    && (forall k :: 0 <= k < consumed ==> response.isSSE || !response.turns[k].timeoutFirst)
    && (forall k :: 0 <= k < consumed ==> response.turns[k].error.NoError?)
    && sent == DataPackets(id, response, Pieces(response.turns[..consumed]))
  }

  /** The packets after one more turn. */
  function Sent(id: string, response: Response, sent: seq<Packet>, piece: seq<byte>): seq<Packet> {
    if piece == [] then sent else sent + [Heading(|sent|, id, response, piece, false)]
  }

  lemma TurnEnds(id: string, response: Response, sendOk: nat -> bool, n: nat, sent: seq<Packet>)
    requires Going(id, response, sendOk, n, sent) && n < |response.turns|
    requires response.isSSE || !response.turns[n].timeoutFirst
    ensures var read := response.turns[n];
            var after := Sent(id, response, sent, read.data);
            var verdict := [Verdict(response.status)];
            if read.data != [] && !sendOk(|sent|) then
              Relayed(id, response, sendOk, ChunkSendFailed, n + 1, sent, verdict, [])
            else
              match read.error
              case NoError => Going(id, response, sendOk, n + 1, after)
              case Broken(t) =>
                Relayed(id, response, sendOk, ReadFailed(t), n + 1, after, if t then [] else [Failure], [])
              case EOF =>
                if sendOk(|after|) then
                  Relayed(id, response, sendOk, Completed, n + 1, after + [Heading(|after|, id, response, [], true)],
                          verdict, [response.status])
                else Relayed(id, response, sendOk, FinalSendFailed, n + 1, after, verdict, [])
  {
    DataSnoc(id, response, n);
  }

  /** n turns that the loop goes on from, all their pieces sent. */
  lemma {:induction false} EndAfter(response: Response, sendOk: nat -> bool, n: nat)
    requires n <= |response.turns|
    requires forall k :: 0 <= k < n ==>
               response.turns[k].error.NoError? && (response.isSSE || !response.turns[k].timeoutFirst)
    requires forall k :: 0 <= k < |Pieces(response.turns[..n])| ==> sendOk(k)
    ensures RelayEnd(response, sendOk, 0, 0) == RelayEnd(response, sendOk, n, |Pieces(response.turns[..n])|)
  {
    if n > 0 {
      assert response.turns[..n][..n - 1] == response.turns[..n - 1];
      EndAfter(response, sendOk, n - 1);
    }
  }

  lemma PiecesStep(turns: seq<Read>, n: nat)
    requires n < |turns|
    ensures Pieces(turns[..n + 1]) == Pieces(turns[..n]) + if turns[n].data == [] then [] else [turns[n].data]
  {
    assert turns[..n + 1][..n] == turns[..n];
  }

  /** However a relay ends, its inputs determine it. */
  lemma RelayedEnd(id: string, response: Response, sendOk: nat -> bool, result: Result, consumed: nat,
                   sent: seq<Packet>, records: seq<Record>, observed: seq<int>)
    requires Relayed(id, response, sendOk, result, consumed, sent, records, observed)
    ensures result == RelayEnd(response, sendOk, 0, 0)
  {
    if result.TimedOut? || result.StillReading? {
      EndAfter(response, sendOk, consumed);
    } else {
      PiecesStep(response.turns, consumed - 1);
      assert |sent| >= |Pieces(response.turns[..consumed - 1])|;
      EndAfter(response, sendOk, consumed - 1);
    }
  }

  method CopyOf(data: seq<byte>) returns (a: array<byte>)
    ensures fresh(a) && a[..] == data
  {
    a := new byte[|data|](i requires 0 <= i < |data| => data[i]);
  }

  /** A message with its own copy of the bytes; status and headers unless sent before. */
  method MakeMessage(id: string, response: Response, headersSent: bool, data: seq<byte>, endStream: bool)
    returns (msg: Message)
    ensures fresh(msg.body)
    ensures Wire(msg) == Heading(if headersSent then 1 else 0, id, response, data, endStream)
  {
    var body := CopyOf(data);
    msg := Message(id, 0, map[], body, endStream);
    if !headersSent {
      msg := msg.(status := response.status, headers := response.headers);
    }
  }

  lemma CarrySnoc(sent: seq<Message>, packets: seq<Packet>, msg: Message)
    requires Carry(sent, packets)
    ensures Carry(sent + [msg], packets + [Wire(msg)])
  {
  }

  /** Reads fill the front of the one chunk buffer and leave the rest as it was. */
  method ReadInto(chunk: array<byte>, data: seq<byte>)
    requires |data| <= chunk.Length
    modifies chunk
    ensures chunk[..|data|] == data && chunk[|data|..] == old(chunk[|data|..])
  {
    forall i | 0 <= i < |data| { chunk[i] := data[i]; }
  }

  /** pkg/client/client.go:495-534: a read fills the chunk; its bytes, if any, go out in a message of their own. */
  method Forward(id: string, response: Response, sendOk: nat -> bool, chunk: array<byte>, data: seq<byte>,
                 sent: seq<Message>, ghost packets: seq<Packet>)
    returns (ok: bool, sent': seq<Message>, ghost packets': seq<Packet>)
    requires |data| <= chunk.Length
    requires Carry(sent, packets) && forall k :: 0 <= k < |sent| ==> sent[k].body != chunk
    modifies chunk
    ensures ok == (data == [] || sendOk(|sent|))
    ensures packets' == if ok then Sent(id, response, packets, data) else packets
    ensures Carry(sent', packets') && forall k :: 0 <= k < |sent'| ==> sent'[k].body != chunk
  {
    ReadInto(chunk, data);
    assert Carry(sent, packets);
    ok, sent', packets' := true, sent, packets;
    if |data| > 0 {
      var msg := MakeMessage(id, response, sent != [], chunk[..|data|], false);
      assert Carry(sent, packets);
      ok := sendOk(|sent|);
      if ok {
        CarrySnoc(sent, packets, msg);
        sent', packets' := sent + [msg], packets + [Wire(msg)];
      }
    }
  }

  /** pkg/client/client.go:549-559: the closing message. */
  method Finish(id: string, response: Response, sendOk: nat -> bool, sent: seq<Message>, ghost packets: seq<Packet>)
    returns (ok: bool, sent': seq<Message>, ghost packets': seq<Packet>)
    requires Carry(sent, packets)
    ensures ok == sendOk(|sent|)
    ensures packets' == if ok then packets + [Heading(|packets|, id, response, [], true)] else packets
    ensures Carry(sent', packets')
  {
    var final := MakeMessage(id, response, sent != [], [], true);
    assert Carry(sent, packets);
    ok, sent', packets' := sendOk(|sent|), sent, packets;
    if ok {
      CarrySnoc(sent, packets, final);
      sent', packets' := sent + [final], packets + [Wire(final)];
    }
  }

  /** pkg/client/client.go:454-590, once the response headers have arrived. */
  method Relay(id: string, response: Response, chunkSize: nat, sendOk: nat -> bool)
    returns (result: Result, consumed: nat, sent: seq<Message>, records: seq<Record>, observed: seq<int>,
             ghost packets: seq<Packet>)
    requires forall k :: 0 <= k < |response.turns| ==> |response.turns[k].data| <= chunkSize
    ensures Carry(sent, packets)
    ensures Relayed(id, response, sendOk, result, consumed, packets, records, observed)
  {
    var upstreamFailure := response.status < 200 || response.status >= 300;
    var verdict := if upstreamFailure then Failure else Success;
    var chunk := new byte[chunkSize](_ => 0);
    var ok: bool;
    consumed, sent, records, observed, packets := 0, [], [], [], [];
    while true
      invariant Going(id, response, sendOk, consumed, packets)
      invariant Carry(sent, packets) && forall k :: 0 <= k < |sent| ==> sent[k].body != chunk
      invariant records == [] && observed == []
      decreases |response.turns| - consumed
    {
      if consumed == |response.turns| { result := StillReading; return; }
      var read := response.turns[consumed];
      if !response.isSSE && read.timeoutFirst { result := TimedOut; return; }
      TurnEnds(id, response, sendOk, consumed, packets);
      consumed := consumed + 1;
      ok, sent, packets := Forward(id, response, sendOk, chunk, read.data, sent, packets);
      if !ok {
        result, records := ChunkSendFailed, [verdict];
        return;
      }
      if read.error.EOF? { break; }
      if read.error.Broken? {
        if !read.error.timeoutCause { records := [Failure]; }
        result := ReadFailed(read.error.timeoutCause);
        return;
      }
    }
    ok, sent, packets := Finish(id, response, sendOk, sent, packets);
    records := [verdict];
    result := if ok then Completed else FinalSendFailed;
    if ok { observed := [response.status]; }
  }

  // ---------------------------------------------------------------- the shape of the stream

  /** All bytes the upstream reads deliver. */
  function Bytes(turns: seq<Read>): seq<byte> {
    if turns == [] then [] else Bytes(turns[..|turns| - 1]) + turns[|turns| - 1].data
  }

  /** All bytes the client has sent. */
  function Bodies(sent: seq<Packet>): seq<byte> {
    if sent == [] then [] else Bodies(sent[..|sent| - 1]) + sent[|sent| - 1].body
  }

  function EndStreams(sent: seq<Packet>): nat {
    if sent == [] then 0 else EndStreams(sent[..|sent| - 1]) + if sent[|sent| - 1].endStream then 1 else 0
  }

  lemma BodiesSnoc(sent: seq<Packet>, p: Packet)
    ensures Bodies(sent + [p]) == Bodies(sent) + p.body
    ensures EndStreams(sent + [p]) == EndStreams(sent) + if p.endStream then 1 else 0
  {
    assert (sent + [p])[..|sent|] == sent;
  }

  lemma BytesStep(turns: seq<Read>, n: nat)
    requires n < |turns|
    ensures Bytes(turns[..n + 1]) == Bytes(turns[..n]) + turns[n].data
  {
    assert turns[..n + 1][..n] == turns[..n];
  }

  lemma DataStep(id: string, response: Response, n: nat)
    requires n < |response.turns|
    ensures var data := DataPackets(id, response, Pieces(response.turns[..n]));
            var more := DataPackets(id, response, Pieces(response.turns[..n + 1]));
            Bodies(more) == Bodies(data) + response.turns[n].data && EndStreams(more) == EndStreams(data)
  {
    var data := DataPackets(id, response, Pieces(response.turns[..n]));
    DataSnoc(id, response, n);
    BodiesSnoc(data, Heading(|data|, id, response, response.turns[n].data, false));
  }

  lemma {:induction false} DataBytes(id: string, response: Response, n: nat)
    requires n <= |response.turns|
    ensures var data := DataPackets(id, response, Pieces(response.turns[..n]));
            Bodies(data) == Bytes(response.turns[..n]) && EndStreams(data) == 0
  {
    if n > 0 {
      DataBytes(id, response, n - 1);
      DataStep(id, response, n - 1);
      BytesStep(response.turns, n - 1);
    }
  }

  lemma {:induction false} BytesGrow(turns: seq<Read>, n: nat)
    requires n <= |turns|
    ensures Bytes(turns[..n]) <= Bytes(turns)
    decreases |turns| - n
  {
    if n < |turns| {
      assert turns[..n + 1][..n] == turns[..n];
      BytesGrow(turns, n + 1);
    } else {
      assert turns[..n] == turns;
    }
  }

  lemma {:induction false} PieceSizes(turns: seq<Read>, chunkSize: nat)
    requires forall k :: 0 <= k < |turns| ==> |turns[k].data| <= chunkSize
    ensures forall k :: 0 <= k < |Pieces(turns)| ==> 1 <= |Pieces(turns)[k]| <= chunkSize
  {
    if turns != [] { PieceSizes(turns[..|turns| - 1], chunkSize); }
  }

  /** Whatever the upstream and the tunnel do: the client sends a prefix of the upstream bytes, in
      messages of 1..chunkSize bytes, status and headers first; the stream is ended exactly on
      completion, after EOF, by the last message, with the whole body sent; and the response
      counter rises once per ended stream. */
  lemma StreamShape(id: string, response: Response, chunkSize: nat, sendOk: nat -> bool, result: Result, consumed: nat,
                    sent: seq<Packet>, records: seq<Record>, observed: seq<int>)
    requires forall k :: 0 <= k < |response.turns| ==> |response.turns[k].data| <= chunkSize
    requires Relayed(id, response, sendOk, result, consumed, sent, records, observed)
    ensures Bodies(sent) <= Bytes(response.turns)
    ensures forall k :: 0 <= k < |sent| ==>
              && sent[k].id == id
              && (if k == 0 then sent[k].status == response.status && sent[k].headers == response.headers
                  else sent[k].status == 0 && sent[k].headers == map[])
              && (if sent[k].endStream then k == |sent| - 1 && sent[k].body == [] else 1 <= |sent[k].body| <= chunkSize)
    ensures (exists k :: 0 <= k < |sent| && sent[k].endStream) <==> result.Completed?
    ensures result.Completed? ==>
              && consumed > 0 && response.turns[consumed - 1].error.EOF?
              && Bodies(sent) == Bytes(response.turns[..consumed])
    ensures |observed| == EndStreams(sent)
  {
    var n := WholeTurns(result, consumed);
    RelayedSends(id, response, sendOk, result, consumed, sent, records, observed);
    SentShape(id, response, chunkSize, n, result.Completed?, sent);
  }

  /** The pieces of `n` turns, with or without the end of the stream. */
  lemma SentShape(id: string, response: Response, chunkSize: nat, n: nat, ended: bool, sent: seq<Packet>)
    requires n <= |response.turns|
    requires forall k :: 0 <= k < |response.turns| ==> |response.turns[k].data| <= chunkSize
    requires var data := DataPackets(id, response, Pieces(response.turns[..n]));
             sent == if ended then data + [Heading(|data|, id, response, [], true)] else data
    ensures forall k :: 0 <= k < |sent| ==>
              && sent[k] == Heading(k, id, response, sent[k].body, ended && k == |sent| - 1)
              && if sent[k].endStream then sent[k].body == [] else 1 <= |sent[k].body| <= chunkSize
    ensures ended ==> |sent| > 0 && sent[|sent| - 1].endStream
    ensures Bodies(sent) == Bytes(response.turns[..n]) <= Bytes(response.turns)
    ensures EndStreams(sent) == if ended then 1 else 0
  {
    DataShape(id, response, chunkSize, n);
    var data := DataPackets(id, response, Pieces(response.turns[..n]));
    if ended { assert sent[..|data|] == data; }
  }

  /** The turns whose pieces have gone out. */
  function WholeTurns(result: Result, consumed: nat): nat {
    if result.ChunkSendFailed? && consumed > 0 then consumed - 1 else consumed
  }

  lemma RelayedSends(id: string, response: Response, sendOk: nat -> bool, result: Result, consumed: nat,
                     sent: seq<Packet>, records: seq<Record>, observed: seq<int>)
    requires Relayed(id, response, sendOk, result, consumed, sent, records, observed)
    ensures consumed <= |response.turns|
    ensures var data := DataPackets(id, response, Pieces(response.turns[..WholeTurns(result, consumed)]));
            sent == if result.Completed? then data + [Heading(|data|, id, response, [], true)] else data
    ensures result.Completed? ==> consumed > 0 && response.turns[consumed - 1].error.EOF?
    ensures |observed| == if result.Completed? then 1 else 0
  {
    assert result.ChunkSendFailed? ==> response.turns[..consumed][..consumed - 1] == response.turns[..consumed - 1];
  }

  lemma DataShape(id: string, response: Response, chunkSize: nat, n: nat)
    requires forall k :: 0 <= k < |response.turns| ==> |response.turns[k].data| <= chunkSize
    requires n <= |response.turns|
    ensures var data := DataPackets(id, response, Pieces(response.turns[..n]));
            && Bodies(data) == Bytes(response.turns[..n]) <= Bytes(response.turns)
            && EndStreams(data) == 0
            && forall k :: 0 <= k < |data| ==>
                 && data[k] == Heading(k, id, response, data[k].body, false)
                 && 1 <= |data[k].body| <= chunkSize
  {
    DataBytes(id, response, n);
    BytesGrow(response.turns, n);
    PieceSizes(response.turns[..n], chunkSize);
  }

  // ---------------------------------------------------------------- the whole request

  function ProxyErrorPacket(id: string, status: int, text: seq<byte>): Packet {
    Packet(id, status, map["Content-Type" := ["text/plain; charset=utf-8"]], text, true)
  }

  /** sendProxyError: one complete response, counted when it goes out. */
  method SendProxyError(id: string, status: int, text: seq<byte>, sendOk: nat -> bool)
    returns (sent: seq<Message>, observed: seq<int>, ghost packets: seq<Packet>)
    ensures Carry(sent, packets)
    ensures packets == if sendOk(0) then [ProxyErrorPacket(id, status, text)] else []
    ensures ProxyErrorPacket(id, status, text) ==
            Packet(id, status, map["Content-Type" := ["text/plain; charset=utf-8"]], text, true)
    ensures observed == if sendOk(0) then [status] else []
  {
    sent, observed, packets := [], [], [];
    var body := CopyOf(text);
    var msg := Message(id, status, map["Content-Type" := ["text/plain; charset=utf-8"]], body, true);
    if sendOk(0) {
      sent, observed, packets := [msg], [status], [ProxyErrorPacket(id, status, text)];
    }
  }

  /** The status of the proxy error that answers the request, if it is answered without an upstream response. */
  function ProxyStatus(request: Request, admitted: bool, upstream: Upstream): Option<int> {
    if request.verb == "" && request.path == "" then Some(501)
    else if !request.resolves || !request.builds then Some(502)
    else if !admitted then Some(503)
    else if upstream.DoFailed? then Some(502)
    else None
  }

  /** The request gets as far as asking the breaker. */
  predicate Asks(request: Request) {
    request.id != "" && !(request.verb == "" && request.path == "") && request.resolves && request.builds
  }

  /** How an admitted request ends. */
  function ExchangeEnd(upstream: Upstream, sendOk: nat -> bool): Result {
    match upstream
    case DoFailed(_) => ProxyError
    case Responds(response) => RelayEnd(response, sendOk, 0, 0)
  }

  /** An admitted request takes an exit on which the timeout context has ended. */
  predicate EndsOnTimeout(upstream: Upstream, sendOk: nat -> bool) {
    match upstream
    case DoFailed(timeoutCause) => timeoutCause
    case Responds(_) => var end := ExchangeEnd(upstream, sendOk); end.TimedOut? || end == ReadFailed(true)
  }

  /** What an admitted request records. */
  function RecordsOf(upstream: Upstream, sendOk: nat -> bool): seq<Record> {
    match upstream
    case DoFailed(timeoutCause) => if timeoutCause then [] else [Failure]
    case Responds(response) =>
      match ExchangeEnd(upstream, sendOk)
      case ReadFailed(timeoutCause) => if timeoutCause then [] else [Failure]
      case TimedOut => []
      case StillReading => []
      case _ => [Verdict(response.status)]
  }

  /** An admitted request records exactly one outcome, unless it ends on the timeout or is still reading. */
  lemma OneOutcome(upstream: Upstream, sendOk: nat -> bool)
    ensures |RecordsOf(upstream, sendOk)|
            == if EndsOnTimeout(upstream, sendOk) || ExchangeEnd(upstream, sendOk).StillReading? then 0 else 1
  {
  }

  /** n turns after which the relay goes on: each came in time and without an error, and its piece went out. */
  ghost predicate GoesOn(response: Response, sendOk: nat -> bool, n: nat)
    requires n <= |response.turns|
  {
    && (forall k :: 0 <= k < n ==>
          response.turns[k].error.NoError? && (response.isSSE || !response.turns[k].timeoutFirst))
    && forall k :: 0 <= k < |Pieces(response.turns[..n])| ==> sendOk(k)
  }

  /** What the turn after them decides, and what it records: 2xx responses whose sends fail or
      complete are successes, all other statuses failures; a read error is a failure unless the
      timeout caused it; the timeout itself, which event streams are exempt from, records nothing. */
  lemma TurnDecides(response: Response, sendOk: nat -> bool, n: nat)
    requires n < |response.turns| && GoesOn(response, sendOk, n) && !GoesOn(response, sendOk, n + 1)
    ensures var read, k := response.turns[n], |Pieces(response.turns[..n])|;
            var k' := if read.data == [] then k else k + 1;
            var outcome := if 200 <= response.status <= 299 then Success else Failure;
            var end, records := RelayEnd(response, sendOk, 0, 0), RecordsOf(Responds(response), sendOk);
            if read.timeoutFirst && !response.isSSE then end == TimedOut && records == []
            else if read.data != [] && !sendOk(k) then end == ChunkSendFailed && records == [outcome]
            else if read.error == Broken(true) then end == ReadFailed(true) && records == []
            else if read.error == Broken(false) then end == ReadFailed(false) && records == [Failure]
            else read.error.EOF? && end == (if sendOk(k') then Completed else FinalSendFailed) && records == [outcome]
  {
    EndAfter(response, sendOk, n);
    PiecesStep(response.turns, n);
  }

  /** With no deciding turn the handler keeps reading and has recorded nothing. */
  lemma NoTurnDecides(response: Response, sendOk: nat -> bool)
    requires GoesOn(response, sendOk, |response.turns|)
    ensures RelayEnd(response, sendOk, 0, 0).StillReading? && RecordsOf(Responds(response), sendOk) == []
  {
    EndAfter(response, sendOk, |response.turns|);
  }

  /** The outcome recorded for a response that was relayed as far as its receiver took it. */
  lemma OutcomeByStatus(response: Response, sendOk: nat -> bool)
    requires var end := RelayEnd(response, sendOk, 0, 0);
             end.Completed? || end.FinalSendFailed? || end.ChunkSendFailed?
    ensures RecordsOf(Responds(response), sendOk) == [if 200 <= response.status <= 299 then Success else Failure]
  {
  }

  /** Neither the call nor a read meets the timeout. */
  predicate Timely(upstream: Upstream) {
    match upstream
    case DoFailed(timeoutCause) => !timeoutCause
    case Responds(r) =>
      forall k :: 0 <= k < |r.turns| ==> r.turns[k].error != Broken(true) && (r.isSSE || !r.turns[k].timeoutFirst)
  }

  lemma {:induction false} TimelyEnd(response: Response, sendOk: nat -> bool, n: nat, k: nat)
    requires Timely(Responds(response)) && n <= |response.turns|
    ensures var end := RelayEnd(response, sendOk, n, k); !end.TimedOut? && end != ReadFailed(true)
    decreases |response.turns| - n
  {
    if n < |response.turns| {
      TimelyEnd(response, sendOk, n + 1, if response.turns[n].data == [] then k else k + 1);
    }
  }

  /** `admitted` is what the breaker's Allow answers; `asked` says whether it was called. */
  method HandleHTTPRequest(request: Request, admitted: bool, upstream: Upstream, chunkSize: nat,
                           text: seq<byte>, sendOk: nat -> bool)
    returns (result: Result, asked: bool, sent: seq<Message>, records: seq<Record>, observed: seq<int>,
             ghost packets: seq<Packet>, ghost consumed: nat)
    requires upstream.Responds? ==>
               forall k :: 0 <= k < |upstream.response.turns| ==> |upstream.response.turns[k].data| <= chunkSize
    ensures Carry(sent, packets)
    ensures asked == Asks(request)
    ensures asked <==>
            request.id != "" && (request.verb != "" || request.path != "") && request.resolves && request.builds
    // Outcome accounting.
    ensures records == if asked && admitted then RecordsOf(upstream, sendOk) else []
    ensures asked && admitted ==> result == ExchangeEnd(upstream, sendOk)
    ensures |observed| == EndStreams(packets)
    // What is sent.
    ensures result.NoId? <==> request.id == ""
    ensures result.NoId? ==> packets == []
    // Which proxy error answers: 501 for a continuation frame, 502 for a bad target or request, 503 from
    // the breaker, 502 when the upstream cannot be reached.
    ensures request.id != "" ==>
              var frame, bad := request.verb == "" && request.path == "", !request.resolves || !request.builds;
              ProxyStatus(request, admitted, upstream) ==
              if frame then Some(501) else if bad then Some(502) else if !admitted then Some(503)
              else if upstream.DoFailed? then Some(502) else None
    ensures !result.NoId? ==>
              match ProxyStatus(request, admitted, upstream)
              case Some(status) =>
                && result.ProxyError?
                && packets == (if sendOk(0) then [ProxyErrorPacket(request.id, status, text)] else [])
                && observed == (if sendOk(0) then [status] else [])
              case None => Relayed(request.id, upstream.response, sendOk, result, consumed, packets, records, observed)
  {
    records, observed, sent, packets, consumed, asked := [], [], [], [], 0, false;
    if request.id == "" { result := NoId; return; }
    result := ProxyError;
    if request.verb == "" && request.path == "" {
      sent, observed, packets := SendProxyError(request.id, 501, text, sendOk);
      return;
    }
    if !request.resolves || !request.builds {
      sent, observed, packets := SendProxyError(request.id, 502, text, sendOk);
      return;
    }
    asked := true;
    if !admitted {
      sent, observed, packets := SendProxyError(request.id, 503, text, sendOk);
      return;
    }
    match upstream {
      case DoFailed(timeoutCause) =>
        if !timeoutCause { records := [Failure]; }
        sent, observed, packets := SendProxyError(request.id, 502, text, sendOk);
      case Responds(response) =>
        result, consumed, sent, records, observed, packets := Relay(request.id, response, chunkSize, sendOk);
        StreamShape(request.id, response, chunkSize, sendOk, result, consumed, packets, records, observed);
        RelayedEnd(request.id, response, sendOk, result, consumed, packets, records, observed);
    }
  }
}
