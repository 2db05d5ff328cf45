/** The terminal protocol's framing of a byte stream: kind, big-endian length, payload. */
module Termwire {
  import opened Bytes
  import opened Sequences

  const MAX_PAYLOAD := 0x40_0000
  const HEADER := 5

  datatype Msg = Msg(kind: Byte, payload: seq<Byte>)

  /** io.EOF, io.ErrUnexpectedEOF and the codec's own ErrTooLarge. */
  datatype Error = EndOfStream | UnexpectedEnd | TooLarge

  datatype Status = Fine | Broken(error: Error)

  datatype Reading = Got(msg: Msg, rest: seq<Byte>) | Failed(error: Error)

  predicate Fits(m: Msg) {
    |m.payload| <= MAX_PAYLOAD
  }

  function Encode(m: Msg): (s: seq<Byte>)
    requires Fits(m)
    ensures |s| == HEADER + |m.payload|
  {
    [m.kind] + PutU32(|m.payload|) + m.payload
  }

  function EncodeAll(ms: seq<Msg>): seq<Byte>
    requires forall i :: 0 <= i < |ms| ==> Fits(ms[i])
  {
    if ms == [] then [] else Encode(ms[0]) + EncodeAll(ms[1..])
  }

  /** One ReadMsg on what is left of a stream. io.ReadFull says EndOfStream when it gets
      nothing at all, so a stream cut right after a header ends as if it were complete. */
  function Decode(s: seq<Byte>): Reading {
    if s == [] then Failed(EndOfStream)
    else if |s| < HEADER then Failed(UnexpectedEnd)
    else
      var n := GetU32(s[1..HEADER]);
      if n > MAX_PAYLOAD then Failed(TooLarge)
      else if n > 0 && |s| == HEADER then Failed(EndOfStream)
      else if |s| < HEADER + n then Failed(UnexpectedEnd)
      else Got(Msg(s[0], s[HEADER..HEADER + n]), s[HEADER + n..])
  }

  /** Reading until the first error. */
  function DecodeAll(s: seq<Byte>): (seq<Msg>, Error)
    decreases |s|
  {
    match Decode(s)
    case Failed(e) => ([], e)
    case Got(m, rest) =>
      var (ms, e) := DecodeAll(rest);
      ([m] + ms, e)
  }

  lemma EncodedHeader(m: Msg, tail: seq<Byte>)
    requires Fits(m)
    ensures var s := Encode(m) + tail;
            s[0] == m.kind && GetU32(s[1..HEADER]) == |m.payload| && s[HEADER..HEADER + |m.payload|] == m.payload
                && s[HEADER + |m.payload|..] == tail
  {
    var s := Encode(m) + tail;
    GetPut(|m.payload|, []);
    assert s[1..HEADER] == PutU32(|m.payload|) + [];
  }

  lemma DecodeEncode(m: Msg, tail: seq<Byte>)
    requires Fits(m)
    ensures Decode(Encode(m) + tail) == Got(m, tail)
  {
    EncodedHeader(m, tail);
  }

  lemma {:induction false} RoundTrip(ms: seq<Msg>)
    requires forall i :: 0 <= i < |ms| ==> Fits(ms[i])
    ensures DecodeAll(EncodeAll(ms)) == (ms, EndOfStream)
  {
    if ms != [] {
      DecodeEncode(ms[0], EncodeAll(ms[1..]));
      RoundTrip(ms[1..]);
      assert [ms[0]] + ms[1..] == ms;
    }
  }

  /** On the wire a message is its kind, its length in four bytes, most significant first,
      and its payload; up to four mebibytes are allowed. */
  lemma WireFormat(m: Msg)
    ensures Fits(m) <==> |m.payload| <= 4_194_304
    ensures Fits(m) ==>
              var s, n := Encode(m), |m.payload|;
              && |s| == 5 + n && s[0] == m.kind && s[5..] == m.payload
              && ((s[1] as int * 256 + s[2] as int) * 256 + s[3] as int) * 256 + s[4] as int == n
  {
    if Fits(m) {
      var s := Encode(m);
      EncodedHeader(m, []);
      assert s + [] == s;
      BigEndian(s[1], s[2], s[3], s[4], []);
      assert s[1..HEADER] == [s[1], s[2], s[3], s[4]] + [];
    }
  }

  /** A header that announces more is refused, whatever follows it, and nothing else is. */
  lemma TooLargeExactly(s: seq<Byte>)
    ensures Decode(s) == Failed(TooLarge) <==>
              |s| >= 5 && ((s[1] as int * 256 + s[2] as int) * 256 + s[3] as int) * 256 + s[4] as int > 4_194_304
  {
    if |s| >= 5 {
      BigEndian(s[1], s[2], s[3], s[4], []);
      assert s[1..HEADER] == [s[1], s[2], s[3], s[4]] + [];
    }
  }

  /** A message cut short, at every possible place. */
  lemma DecodePartial(m: Msg, k: nat)
    requires Fits(m) && k < |Encode(m)|
    ensures Decode(Encode(m)[..k]) == Failed(if k == 0 || k == HEADER then EndOfStream else UnexpectedEnd)
  {
    var s := Encode(m);
    EncodedHeader(m, []);
    assert s + [] == s;
    if k >= HEADER { assert s[..k][1..HEADER] == s[1..HEADER]; }
  }

  /** The first j messages, and no more, lie within the first k bytes. */
  ghost predicate Whole(ms: seq<Msg>, k: nat, j: nat)
    requires forall i :: 0 <= i < |ms| ==> Fits(ms[i])
  {
    && j <= |ms|
    && |EncodeAll(ms[..j])| <= k
    && (j < |ms| ==> k < |EncodeAll(ms[..j + 1])|)
  }

  ghost function Excess(ms: seq<Msg>, k: nat, j: nat): int
    requires forall i :: 0 <= i < |ms| ==> Fits(ms[i])
    requires j <= |ms|
  {
    k - |EncodeAll(ms[..j])|
  }

  ghost predicate CutAt(ms: seq<Msg>, k: nat, j: nat)
    requires forall i :: 0 <= i < |ms| ==> Fits(ms[i])
    requires k <= |EncodeAll(ms)|
  {
    && Whole(ms, k, j)
    && var clean := Excess(ms, k, j) == 0 || Excess(ms, k, j) == HEADER;
    DecodeAll(EncodeAll(ms)[..k]) == (ms[..j], if clean then EndOfStream else UnexpectedEnd)
  }

  lemma PrefixLength(ms: seq<Msg>, j: nat)
    requires 0 < j <= |ms| && forall i :: 0 <= i < |ms| ==> Fits(ms[i])
    ensures |EncodeAll(ms[..j])| == |Encode(ms[0])| + |EncodeAll(ms[1..][..j - 1])|
  {
    assert ms[..j][1..] == ms[1..][..j - 1];
  }

  lemma CutInFirst(ms: seq<Msg>, k: nat)
    requires ms != [] && forall i :: 0 <= i < |ms| ==> Fits(ms[i])
    requires k < |Encode(ms[0])|
    ensures k <= |EncodeAll(ms)| && CutAt(ms, k, 0)
  {
    assert EncodeAll(ms)[..k] == Encode(ms[0])[..k];
    DecodePartial(ms[0], k);
    PrefixLength(ms, 1);
  }

  lemma TakePast(a: seq<Byte>, b: seq<Byte>, k: nat)
    requires |a| <= k <= |a| + |b|
    ensures (a + b)[..k] == a + b[..k - |a|]
  {
  }

  lemma DecodeFirst(m: Msg, tail: seq<Byte>)
    requires Fits(m)
    ensures DecodeAll(Encode(m) + tail) == ([m] + DecodeAll(tail).0, DecodeAll(tail).1)
  {
    DecodeEncode(m, tail);
  }

  lemma WholeRest(ms: seq<Msg>, k: nat, j: nat)
    requires ms != [] && forall i :: 0 <= i < |ms| ==> Fits(ms[i])
    requires |Encode(ms[0])| <= k && j < |ms| && Whole(ms[1..], k - |Encode(ms[0])|, j)
    ensures Whole(ms, k, j + 1) && Excess(ms, k, j + 1) == Excess(ms[1..], k - |Encode(ms[0])|, j)
  {
    PrefixLength(ms, j + 1);
    if j + 1 < |ms| { PrefixLength(ms, j + 2); }
  }

  lemma CutInRest(ms: seq<Msg>, k: nat, j: nat)
    requires ms != [] && forall i :: 0 <= i < |ms| ==> Fits(ms[i])
    requires |Encode(ms[0])| <= k <= |EncodeAll(ms)| && j < |ms|
    requires CutAt(ms[1..], k - |Encode(ms[0])|, j)
    ensures CutAt(ms, k, j + 1)
  {
    var first, rest := Encode(ms[0]), EncodeAll(ms[1..]);
    var tail := rest[..k - |first|];
    WholeRest(ms, k, j);
    assert EncodeAll(ms)[..k] == first + tail by { TakePast(first, rest, k); }
    DecodeFirst(ms[0], tail);
    assert DecodeAll(tail).0 == ms[1..][..j];
    assert ms[..j + 1] == [ms[0]] + ms[1..][..j];
  }

  /** A stream cut at byte k yields the messages that are whole by then and an error that
      looks like a clean end at a message boundary and right after a header, only. */
  lemma {:induction false} Truncated(ms: seq<Msg>, k: nat)
    requires forall i :: 0 <= i < |ms| ==> Fits(ms[i])
    requires k <= |EncodeAll(ms)|
    ensures exists j: nat :: CutAt(ms, k, j)
  {
    if ms == [] {
      assert CutAt(ms, k, 0);
    } else if k < |Encode(ms[0])| {
      CutInFirst(ms, k);
    } else {
      Truncated(ms[1..], k - |Encode(ms[0])|);
      var j: nat :| CutAt(ms[1..], k - |Encode(ms[0])|, j);
      CutInRest(ms, k, j);
    }
  }

  lemma {:induction false} EncodeAllSnoc(ms: seq<Msg>, m: Msg)
    requires Fits(m) && forall i :: 0 <= i < |ms| ==> Fits(ms[i])
    ensures EncodeAll(ms + [m]) == EncodeAll(ms) + Encode(m)
  {
    if ms == [] {
      assert ([] + [m])[1..] == [];
    } else {
      assert (ms + [m])[1..] == ms[1..] + [m];
      EncodeAllSnoc(ms[1..], m);
    }
  }

  // ---- several writers -------------------------------------------------------------

  /** Calls of WriteMsg in the order in which they got the lock. */
  datatype Call = Call(writer: nat, msg: Msg)

  function Wire(calls: seq<Call>): seq<Byte> {
    if calls == [] then []
    else
      var last := calls[|calls| - 1].msg;
      Wire(calls[..|calls| - 1]) + if Fits(last) then Encode(last) else []
  }

  /** The messages writer w got accepted. */
  function Accepted(calls: seq<Call>, w: nat): seq<Msg> {
    if calls == [] then []
    else
      var sent, last := Accepted(calls[..|calls| - 1], w), calls[|calls| - 1];
      if last.writer == w && Fits(last.msg) then sent + [last.msg] else sent
  }

  function AllAccepted(calls: seq<Call>): (ms: seq<Msg>)
    ensures forall i :: 0 <= i < |ms| ==> Fits(ms[i])
  {
    if calls == [] then []
    else
      var sent, last := AllAccepted(calls[..|calls| - 1]), calls[|calls| - 1];
      if Fits(last.msg) then sent + [last.msg] else sent
  }

  lemma {:induction false} WireIsEncoding(calls: seq<Call>)
    ensures Wire(calls) == EncodeAll(AllAccepted(calls))
  {
    if calls != [] {
      var init, last := calls[..|calls| - 1], calls[|calls| - 1].msg;
      WireIsEncoding(init);
      if Fits(last) { EncodeAllSnoc(AllAccepted(init), last); }
    }
  }

  lemma {:induction false} AcceptedInOrder(calls: seq<Call>, w: nat)
    ensures Subsequence(Accepted(calls, w), AllAccepted(calls))
  {
    if calls != [] {
      var init, last := calls[..|calls| - 1], calls[|calls| - 1];
      AcceptedInOrder(init, w);
      if Fits(last.msg) {
        SubsequenceKeep(Accepted(init, w), AllAccepted(init), last.msg);
        SubsequenceSkip(Accepted(init, w), AllAccepted(init), last.msg);
      }
    }
  }

  /** The reader gets a merge: exactly the accepted messages, each writer's in its own
      order, none torn. */
  lemma ReaderGetsMerge(calls: seq<Call>, w: nat)
    ensures DecodeAll(Wire(calls)) == (AllAccepted(calls), EndOfStream)
    ensures Subsequence(Accepted(calls, w), DecodeAll(Wire(calls)).0)
  {
    WireIsEncoding(calls);
    RoundTrip(AllAccepted(calls));
    AcceptedInOrder(calls, w);
  }

  // ---- the connection --------------------------------------------------------------

  /** A byte stream that hands out its bytes in pieces of any size. */
  class Stream {
    var incoming: seq<Byte>
    var outgoing: seq<Byte>

    constructor (bytes: seq<Byte>)
      ensures incoming == bytes && outgoing == []
    {
      incoming, outgoing := bytes, [];
    }

    method Read(buf: array<Byte>, off: nat) returns (n: nat)
      requires off < buf.Length
      modifies this`incoming, buf
      ensures n <= buf.Length - off && n <= |old(incoming)|
      ensures n == 0 <==> old(incoming) == []
      ensures incoming == old(incoming)[n..]
      ensures buf[..] == old(buf[..off]) + old(incoming)[..n] + old(buf[off + n..])
    {
      if incoming == [] {
        return 0;
      }
      n :| 0 < n <= buf.Length - off && n <= |incoming|;
      ghost var was := buf[..];
      for i := 0 to n
        modifies buf
        invariant buf[..] == was[..off] + incoming[..i] + was[off + i..]
      {
        buf[off + i] := incoming[i];
      }
      incoming := incoming[n..];
    }

    method Write(bytes: seq<Byte>)
      modifies this`outgoing
      ensures outgoing == old(outgoing) + bytes
    {
      outgoing := outgoing + bytes;
    }

    /** io.ReadFull. */
    method ReadFull(buf: array<Byte>) returns (n: nat)
      modifies this`incoming, buf
      ensures n == if |old(incoming)| < buf.Length then |old(incoming)| else buf.Length
      ensures incoming == old(incoming)[n..]
      ensures buf[..n] == old(incoming)[..n]
    {
      n := 0;
      while n < buf.Length
        invariant n <= buf.Length && n <= |old(incoming)|
        invariant incoming == old(incoming)[n..]
        invariant buf[..n] == old(incoming)[..n]
      {
        ghost var before := incoming;
        var k := Read(buf, n);
        if k == 0 {
          return;
        }
        assert buf[..n + k] == old(incoming)[..n] + before[..k];
        n := n + k;
      }
    }
  }

  class Conn {
    const stream: Stream
    const hdr: array<Byte>
    var wbuf: array<Byte>

    ghost predicate Valid()
      reads this
    {
      hdr.Length == HEADER && hdr != wbuf
    }

    constructor (s: Stream)
      ensures Valid() && stream == s && fresh(hdr) && fresh(wbuf)
    {
      stream := s;
      hdr := new Byte[HEADER];
      wbuf := new Byte[0];
    }

    method ReadMsg() returns (kind: Byte, payload: array?<Byte>, status: Status)
      requires Valid()
      modifies stream`incoming, hdr
      ensures Valid()
      ensures match Decode(old(stream.incoming))
              case Failed(e) =>
                && status == Broken(e) && payload == null
                && stream.incoming == if e == TooLarge then old(stream.incoming)[HEADER..] else []
              case Got(m, rest) =>
                && status == Fine && kind == m.kind && stream.incoming == rest
                && (payload == null <==> m.payload == [])
                && (payload != null ==> fresh(payload) && payload[..] == m.payload)
    {
      ghost var bytes := stream.incoming;
      var n := stream.ReadFull(hdr);
      if n < HEADER {
        return 0, null, Broken(if n == 0 then EndOfStream else UnexpectedEnd);
      }
      assert hdr[..] == hdr[..HEADER] == bytes[..HEADER];
      assert hdr[1..] == bytes[1..HEADER];
      var len := GetU32(hdr[1..]);
      if len > MAX_PAYLOAD {
        return 0, null, Broken(TooLarge);
      }
      if len == 0 {
        return hdr[0], null, Fine;
      }
      var buf := new Byte[len];
      n := stream.ReadFull(buf);
      if n < len {
        return 0, null, Broken(if n == 0 then EndOfStream else UnexpectedEnd);
      }
      assert buf[..] == buf[..len] == bytes[HEADER..][..len];
      return hdr[0], buf, Fine;
    }

    /** Whatever an earlier, longer message left in the scratch buffer, only this
        message's bytes go out. */
    method WriteMsg(kind: Byte, payload: seq<Byte>) returns (ok: bool)
      requires Valid()
      modifies this`wbuf, wbuf, stream`outgoing
      ensures Valid()
      ensures ok == Fits(Msg(kind, payload))
      ensures stream.outgoing == old(stream.outgoing) + if ok then Encode(Msg(kind, payload)) else []
    {
      if |payload| > MAX_PAYLOAD {
        return false;
      }
      var need := HEADER + |payload|;
      if wbuf.Length < need {
        wbuf := new Byte[need];
      }
      var buf := wbuf;
      buf[0] := kind;
      PutU32At(buf, 1, |payload|);
      assert buf[..HEADER] == [kind] + PutU32(|payload|);
      for i := 0 to |payload|
        modifies buf
        invariant buf[..HEADER + i] == [kind] + PutU32(|payload|) + payload[..i]
      {
        buf[HEADER + i] := payload[i];
      }
      stream.Write(buf[..need]);
      return true;
    }
  }
}
