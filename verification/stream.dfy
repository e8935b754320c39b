/** The chunking loop of the streaming handler (main.go): read the artifact
    in 1 MiB chunks, send one message per non-empty read, then an end marker. */
module Stream {
  import opened Wrappers
  import opened Seqs
  import opened Proto

  /** The size of the read buffer: 1 MiB. */
  const ChunkSize: nat := 1024 * 1024

  /** What one read can return: never more than the buffer holds. */
  type Chunk = s: seq<byte> | |s| <= ChunkSize

  /** End of data, or any other read error. */
  datatype ReadError = EOF | ReadFailure(message: string)

  /** One call of the reader's Read: the bytes placed in the buffer, and the
      error returned alongside them, if any. */
  datatype ReadResult = ReadResult(data: Chunk, err: Option<ReadError>)

  /** Some read reports an error, so the reading loop ends. */
  predicate Terminates(results: seq<ReadResult>) {
    |results| > 0 && (results[0].err.Some? || Terminates(results[1..]))
  }

  /** The successive results of Read on one open stream. The loop only ends
      on an error, so a reader is modelled by the results up to one that errs. */
  type Reader = results: seq<ReadResult> | Terminates(results) witness [ReadResult([], Some(EOF))]

  /** Every byte the loop reads: the data of each read up to and including
      the first one that reports an error. */
  function BytesRead(results: seq<ReadResult>): seq<byte>
    requires Terminates(results)
    decreases |results|
  {
    results[0].data + if results[0].err.Some? then [] else BytesRead(results[1..])
  }

  /** The bytes carried by a sequence of messages, in order. */
  function Payload(msgs: seq<OpenStreamResponse>): seq<byte>
    decreases |msgs|
  {
    if msgs == [] then [] else msgs[0].data + Payload(msgs[1..])
  }

  lemma {:induction false} PayloadOfConcat(a: seq<OpenStreamResponse>, b: seq<OpenStreamResponse>)
    ensures Payload(a + b) == Payload(a) + Payload(b)
    decreases |a|
  {
    if a == [] {
      assert a + b == b;
    } else {
      assert (a + b)[1..] == a[1..] + b;
      PayloadOfConcat(a[1..], b);
      calc {
        Payload(a + b);
        a[0].data + Payload(a[1..] + b);
        a[0].data + (Payload(a[1..]) + Payload(b));
      }
    }
  }

  /** A message carrying data: not the end marker, 1 byte to 1 MiB long. */
  predicate IsDataMessage(m: OpenStreamResponse) {
    !m.isEnd && 0 < |m.data| <= ChunkSize
  }

  const EndMarker := OpenStreamResponse([], true)

  /** The message one read calls for: its data, unless the read is empty. */
  function MessageFor(rd: ReadResult): seq<OpenStreamResponse> {
    if |rd.data| > 0 then [OpenStreamResponse(rd.data, false)] else []
  }

  /** The data messages a reader calls for: one per non-empty read, in read
      order, up to and including the first read that reports an error. An
      empty read calls for none. */
  function DataMessages(results: seq<ReadResult>): seq<OpenStreamResponse>
    requires Terminates(results)
    decreases |results|
  {
    MessageFor(results[0]) + if results[0].err.Some? then [] else DataMessages(results[1..])
  }

  /** The data messages carry every byte read, in order, each one 1 byte to
      1 MiB long. */
  lemma {:induction false} DataMessagesCarryBytesRead(results: seq<ReadResult>)
    requires Terminates(results)
    ensures Payload(DataMessages(results)) == BytesRead(results)
    ensures forall i :: 0 <= i < |DataMessages(results)| ==> IsDataMessage(DataMessages(results)[i])
    decreases |results|
  {
    var head := MessageFor(results[0]);
    var tail := if results[0].err.Some? then [] else DataMessages(results[1..]);
    if results[0].err.None? {
      DataMessagesCarryBytesRead(results[1..]);
    }
    PayloadOfConcat(head, tail);
    assert Payload(head) == results[0].data;
  }

  /** The Send calls numbered `from` up to, not including, `to` all succeed. */
  predicate SendsSucceed(sendErr: nat -> Option<string>, from: nat, to: nat) {
    forall j :: from <= j < to ==> sendErr(j).None?
  }

  /** One more successful Send extends a run of successful ones. */
  lemma SendsSucceedExtend(sendErr: nat -> Option<string>, from: nat, to: nat)
    requires SendsSucceed(sendErr, from, to) && sendErr(to).None?
    ensures SendsSucceed(sendErr, from, to + 1)
  {
  }

  /** The messages handed to Send by the reading loop, and the error of the
      Send that failed, if one did. */
  datatype Pumped = Pumped(sent: seq<OpenStreamResponse>, failure: Option<string>)

  /** The reading loop, from the read `results[0]` on; `k` Send calls have
      already been made and `sendErr(j)` is the error of the `j`-th one. A
      read with data sends it before its error is looked at; an empty read
      sends nothing. */
  function Pump(results: seq<ReadResult>, sendErr: nat -> Option<string>, k: nat): (r: Pumped)
    requires Terminates(results)
    ensures r.failure.None? ==> SendsSucceed(sendErr, k, k + |r.sent|)
    ensures r.failure.Some? ==>
      && |r.sent| > 0
      && sendErr(k + |r.sent| - 1) == r.failure
      && SendsSucceed(sendErr, k, k + |r.sent| - 1)
    decreases |results|
  {
    var rd := results[0];
    if |rd.data| > 0 && sendErr(k).Some? then
      Pumped([OpenStreamResponse(rd.data, false)], sendErr(k))
    else
      var head := MessageFor(rd);
      if rd.err.Some? then
        Pumped(head, None)
      else
        var rest := Pump(results[1..], sendErr, k + |head|);
        Pumped(head + rest.sent, rest.failure)
  }

  /** One turn of the loop after a read with no error whose data, if any,
      was sent without error. */
  lemma PumpStep(results: seq<ReadResult>, sendErr: nat -> Option<string>, k: nat)
    requires Terminates(results) && results[0].err.None?
    requires !(|results[0].data| > 0 && sendErr(k).Some?)
    ensures var head := MessageFor(results[0]);
      var rest := Pump(results[1..], sendErr, k + |head|);
      Pump(results, sendErr, k) == Pumped(head + rest.sent, rest.failure)
  {
  }

  /** The loop sends exactly the data messages the reads call for, in order:
      all of them when no Send fails, and otherwise those up to the one whose
      Send failed. */
  lemma {:induction false} PumpSendsDataMessages(results: seq<ReadResult>, sendErr: nat -> Option<string>, k: nat)
    requires Terminates(results)
    ensures var r := Pump(results, sendErr, k);
      && (r.failure.None? ==> r.sent == DataMessages(results))
      && (r.failure.Some? ==> IsPrefix(r.sent, DataMessages(results)))
    decreases |results|
  {
    var rd := results[0];
    var head := MessageFor(rd);
    if |rd.data| > 0 && sendErr(k).Some? {
      var tail := if rd.err.Some? then [] else DataMessages(results[1..]);
      assert DataMessages(results) == head + tail;
      assert Pump(results, sendErr, k) == Pumped(head, sendErr(k));
      PrefixOfConcat(head, tail);
    } else if rd.err.Some? {
      assert DataMessages(results) == head + [] == head;
      assert Pump(results, sendErr, k) == Pumped(head, None);
    } else {
      var rest := Pump(results[1..], sendErr, k + |head|);
      PumpSendsDataMessages(results[1..], sendErr, k + |head|);
      PrefixExtends(head, rest.sent, DataMessages(results[1..]));
      assert DataMessages(results) == head + DataMessages(results[1..]);
      PumpStep(results, sendErr, k);
    }
  }

  /** The bytes of a prefix of the messages are a prefix of their bytes. */
  lemma PayloadOfPrefix(a: seq<OpenStreamResponse>, b: seq<OpenStreamResponse>)
    ensures IsPrefix(a, b) ==> IsPrefix(Payload(a), Payload(b))
  {
    if IsPrefix(a, b) {
      assert b == a + b[|a|..];
      PayloadOfConcat(a, b[|a|..]);
    }
  }

  /** The outcome of streaming: every message handed to Send, in order, and
      the error the handler returns (`None` for success). */
  datatype StreamReply = StreamReply(sent: seq<OpenStreamResponse>, err: Option<RpcError>)

  /** Streams an open reader: the data messages, then the end marker. A
      failed data Send ends the stream with an Internal status and no end
      marker; the end marker's own Send error is returned as it is. */
  function SendChunks(results: Reader, sendErr: nat -> Option<string>): (r: StreamReply)
    ensures r.err.None? ==> SendsSucceed(sendErr, 0, |r.sent|)
    ensures r.err.Some? ==>
      |r.sent| > 0 && sendErr(|r.sent| - 1).Some? && SendsSucceed(sendErr, 0, |r.sent| - 1)
    ensures r.err.None? || r.err.value.Passthrough? ==> r.sent == DataMessages(results) + [EndMarker]
    ensures r.err.Some? && r.err.value.Status? ==>
      && IsPrefix(r.sent, DataMessages(results))
      && r.err == Some(Status(Internal, sendErr(|r.sent| - 1).value))
    ensures r.err.Some? && r.err.value.Passthrough? ==>
      sendErr(|r.sent| - 1) == Some(r.err.value.message)
  {
    var p := Pump(results, sendErr, 0);
    PumpSendsDataMessages(results, sendErr, 0);
    match p.failure
    case Some(e) => StreamReply(p.sent, Some(Status(Internal, e)))
    case None =>
      var sent := p.sent + [EndMarker];
      match sendErr(|p.sent|)
      case Some(e) => StreamReply(sent, Some(Passthrough(e)))
      case None =>
        SendsSucceedExtend(sendErr, 0, |p.sent|);
        StreamReply(sent, None)
  }

  /** The reply is an Internal status exactly when the Send of some data
      message fails; otherwise every data message went out and only the end
      marker's Send can have failed. */
  lemma DataSendFailureGivesInternal(results: Reader, sendErr: nat -> Option<string>)
    ensures var r := SendChunks(results, sendErr);
      r.err.Some? && r.err.value.Status? <==> !SendsSucceed(sendErr, 0, |DataMessages(results)|)
  {
    var r := SendChunks(results, sendErr);
    var n := |DataMessages(results)|;
    if r.err.Some? && r.err.value.Status? {
      assert sendErr(|r.sent| - 1).Some? && |r.sent| - 1 < n;
    } else {
      assert |r.sent| == n + 1;
      assert SendsSucceed(sendErr, 0, |r.sent| - 1);
    }
  }

  /** What the stream carries: every message before the last is a data
      message (all of them when a data Send failed); when the end marker was
      sent the payloads are exactly the bytes read, and otherwise a prefix
      of them. */
  lemma SendChunksCarriesBytesRead(results: Reader, sendErr: nat -> Option<string>)
    ensures var r := SendChunks(results, sendErr);
      && (forall i :: 0 <= i < |r.sent| - 1 ==> IsDataMessage(r.sent[i]))
      && (r.err.None? || r.err.value.Passthrough? ==>
            && r.sent[|r.sent| - 1] == EndMarker
            && Payload(r.sent) == BytesRead(results))
      && (r.err.Some? && r.err.value.Status? ==>
            && (forall i :: 0 <= i < |r.sent| ==> IsDataMessage(r.sent[i]))
            && IsPrefix(Payload(r.sent), BytesRead(results)))
  {
    var r := SendChunks(results, sendErr);
    var msgs := DataMessages(results);
    DataMessagesCarryBytesRead(results);
    if r.err.None? || r.err.value.Passthrough? {
      EndMarkerAppended(msgs);
    } else {
      PrefixOfDataMessages(r.sent, msgs);
    }
  }

  /** A prefix of data messages holds data messages only, and carries a
      prefix of their bytes. */
  lemma PrefixOfDataMessages(a: seq<OpenStreamResponse>, b: seq<OpenStreamResponse>)
    requires IsPrefix(a, b)
    requires forall i :: 0 <= i < |b| ==> IsDataMessage(b[i])
    ensures forall i :: 0 <= i < |a| ==> IsDataMessage(a[i])
    ensures IsPrefix(Payload(a), Payload(b))
  {
    assert forall i :: 0 <= i < |a| ==> a[i] == b[i];
    PayloadOfPrefix(a, b);
  }

  /** The end marker adds no bytes and leaves the messages before it alone. */
  lemma EndMarkerAppended(msgs: seq<OpenStreamResponse>)
    ensures Payload(msgs + [EndMarker]) == Payload(msgs)
    ensures forall i :: 0 <= i < |msgs| ==> (msgs + [EndMarker])[i] == msgs[i]
  {
    PayloadOfConcat(msgs, [EndMarker]);
    assert Payload([EndMarker]) == [];
  }

  /** Every read error is the same to the handler. */
  function AsEof(results: seq<ReadResult>): (r: seq<ReadResult>)
    ensures |r| == |results|
    ensures forall i :: 0 <= i < |r| ==>
      r[i].data == results[i].data && r[i].err == (if results[i].err.Some? then Some(EOF) else None)
    decreases |results|
  {
    if results == [] then []
    else [ReadResult(results[0].data, if results[0].err.Some? then Some(EOF) else None)] + AsEof(results[1..])
  }

  /** The loop stops at any read error, not only at end of data: a reader
      that fails mid-transfer produces exactly the stream, end marker
      included, of one that reached end of data at that point. */
  lemma {:induction false} ReadFailureLooksLikeEndOfData(results: Reader, sendErr: nat -> Option<string>)
    ensures Terminates(AsEof(results))
    ensures SendChunks(results, sendErr) == SendChunks(AsEof(results), sendErr)
  {
    PumpIgnoresErrorKind(results, sendErr, 0);
  }

  /** Turning every read error into end of data keeps the point where the
      loop stops. */
  lemma {:induction false} AsEofTerminates(results: seq<ReadResult>)
    requires Terminates(results)
    ensures Terminates(AsEof(results))
    decreases |results|
  {
    assert AsEof(results)[1..] == AsEof(results[1..]);
    if results[0].err.None? {
      AsEofTerminates(results[1..]);
    }
  }

  lemma {:induction false} PumpIgnoresErrorKind(results: seq<ReadResult>, sendErr: nat -> Option<string>, k: nat)
    requires Terminates(results)
    ensures Terminates(AsEof(results))
    ensures Pump(results, sendErr, k) == Pump(AsEof(results), sendErr, k)
    decreases |results|
  {
    AsEofTerminates(results);
    assert AsEof(results)[1..] == AsEof(results[1..]);
    if results[0].err.None? {
      var head := if |results[0].data| > 0 then 1 else 0;
      PumpIgnoresErrorKind(results[1..], sendErr, k + head);
    }
  }
}
