/** Length-prefixed frames over a byte stream: internal/transport/framed/framed.go. */
module Stream {
  import opened Bytes

  const MAX_FRAME: nat := 65535

  predicate Sendable(b: Bytes) {
    1 <= |b| <= MAX_FRAME
  }

  function Encode(b: Bytes): (s: Bytes)
    ensures |s| == 4 + |b|
  {
    Put32(|b|) + b
  }

  function EncodeAll(frames: seq<Bytes>): Bytes {
    if frames == [] then [] else Encode(frames[0]) + EncodeAll(frames[1..])
  }

  /** One Receive: the frame, or None for an error, and what is left of the stream. */
  function Decode(input: Bytes): (r: (Option<Bytes>, Bytes))
    ensures |r.1| <= |input|
    ensures r.0.Some? ==> |r.1| < |input|
  {
    if |input| < 4 then (None, [])
    else
      var n := Get32(input[..4]);
      if n == 0 || n > MAX_FRAME then (None, input[4..])
      else if |input| < 4 + n then (None, [])
      else (Some(input[4..4 + n]), input[4 + n..])
  }

  /** A frame goes out as its length in four bytes, most significant first, and then itself. */
  lemma EncodedBytes(b: Bytes)
    requires Sendable(b)
    ensures Quad(Encode(b), 0) == |b| && Encode(b)[4..] == b
  {
    PutsQuad(Encode(b), 0, |b|);
  }

  /** Receive takes a frame exactly if its four bytes announce 1 to 65535 more, and those are there. */
  lemma DecodeExact(input: Bytes)
    ensures Decode(input).0.Some? <==> |input| >= 4 && 1 <= Quad(input, 0) <= 65535 && |input| >= 4 + Quad(input, 0)
    ensures Decode(input).0.Some? ==> input == input[..4] + Decode(input).0.value + Decode(input).1
    ensures Decode(input).0.None? ==>
              Decode(input).1 == if |input| >= 4 && !(1 <= Quad(input, 0) <= 65535) then input[4..] else []
  {
    hide Get32, Quad;
    if |input| >= 4 {
      GetsQuad(input, 0);
      assert input[..4] == input[0..4];
    }
  }

  /** The frames that repeated Receive calls return, up to the first error. */
  function DecodeAll(input: Bytes): seq<Bytes>
    decreases |input|
  {
    var r := Decode(input);
    if r.0.None? then [] else [r.0.value] + DecodeAll(r.1)
  }

  lemma DecodeEncode(b: Bytes, rest: Bytes)
    requires Sendable(b)
    ensures Decode(Encode(b) + rest) == (Some(b), rest)
  {
    var input := Encode(b) + rest;
    assert input[..4] == Put32(|b|);
    GetPut32(|b|);
    assert input[4..4 + |b|] == b && input[4 + |b|..] == rest;
  }

  /** A stream that stops inside a frame gives an error there. */
  lemma DecodeTruncated(b: Bytes, k: nat)
    requires Sendable(b) && k < 4 + |b|
    ensures Decode(Encode(b)[..k]).0.None?
  {
    if k >= 4 {
      assert Encode(b)[..k][..4] == Put32(|b|);
      GetPut32(|b|);
    }
  }

  lemma EncodeCons(b: Bytes, frames: seq<Bytes>)
    ensures EncodeAll([b] + frames) == Encode(b) + EncodeAll(frames)
  {
    assert ([b] + frames)[1..] == frames;
  }

  /** k cuts the encoding of `frames` after its first `whole` frames and before the end of the next. */
  ghost predicate CutAfter(frames: seq<Bytes>, k: nat, whole: nat) {
    && whole <= |frames|
    && |EncodeAll(frames[..whole])| <= k
    && (whole < |frames| ==> k < |EncodeAll(frames[..whole + 1])|)
  }

  lemma CutCons(b: Bytes, frames: seq<Bytes>, k: nat, whole: nat)
    requires CutAfter(frames, k, whole)
    ensures CutAfter([b] + frames, 4 + |b| + k, whole + 1)
  {
    assert ([b] + frames)[..whole + 1] == [b] + frames[..whole];
    EncodeCons(b, frames[..whole]);
    if whole < |frames| {
      assert ([b] + frames)[..whole + 2] == [b] + frames[..whole + 1];
      EncodeCons(b, frames[..whole + 1]);
    }
  }

  lemma CutFirst(b: Bytes, frames: seq<Bytes>, k: nat)
    requires k < 4 + |b|
    ensures CutAfter([b] + frames, k, 0)
  {
    assert ([b] + frames)[..1] == [b] + [];
    EncodeCons(b, []);
  }

  lemma DecodeCons(b: Bytes, rest: Bytes)
    requires Sendable(b)
    ensures DecodeAll(Encode(b) + rest) == [b] + DecodeAll(rest)
  {
    DecodeEncode(b, rest);
  }

  lemma NothingDecoded(b: Bytes, k: nat)
    requires Sendable(b) && k < 4 + |b|
    ensures DecodeAll(Encode(b)[..k]) == []
  {
    DecodeTruncated(b, k);
  }

  /**
   * However a sent stream is cut, Receive returns exactly the frames that lie wholly before
   * the cut, in order, and then an error.
   */
  lemma {:induction false} ReceiveTruncated(frames: seq<Bytes>, k: nat) returns (whole: nat)
    requires forall i :: 0 <= i < |frames| ==> Sendable(frames[i])
    requires k <= |EncodeAll(frames)|
    ensures CutAfter(frames, k, whole)
    ensures DecodeAll(EncodeAll(frames)[..k]) == frames[..whole]
  {
    if frames == [] {
      return 0;
    }
    var b, tail := frames[0], frames[1..];
    assert |Encode(b)| == 4 + |b|;
    hide *;
    EncodeFirst(frames, b, tail);
    if k < 4 + |b| {
      NothingDecoded(b, k);
      CutFirst(b, tail, k);
      TakeFirst(Encode(b), EncodeAll(tail), k);
      assert frames[..0] == [];
      return 0;
    }
    var w := ReceiveTruncated(tail, k - (4 + |b|));
    CutCons(b, tail, k - (4 + |b|), w);
    TakeBoth(Encode(b), EncodeAll(tail), k);
    DecodeCons(b, EncodeAll(tail)[..k - (4 + |b|)]);
    assert frames[..w + 1] == [b] + tail[..w] by { CutWithin(tail, k - (4 + |b|), w); }
    return w + 1;
  }

  lemma EncodeFirst(frames: seq<Bytes>, b: Bytes, tail: seq<Bytes>)
    requires frames != [] && b == frames[0] && tail == frames[1..]
    ensures frames == [b] + tail && EncodeAll(frames) == Encode(b) + EncodeAll(tail)
  {
  }

  lemma TakeFirst(a: Bytes, b: Bytes, k: nat)
    requires k <= |a|
    ensures (a + b)[..k] == a[..k]
  {
  }

  lemma TakeBoth(a: Bytes, b: Bytes, k: nat)
    requires |a| <= k <= |a| + |b|
    ensures (a + b)[..k] == a + b[..k - |a|]
  {
  }

  lemma CutWithin(frames: seq<Bytes>, k: nat, whole: nat)
    requires CutAfter(frames, k, whole)
    ensures whole <= |frames|
  {
  }

  /** Receive over the concatenated Sends yields exactly the frames sent. */
  lemma {:induction false} ReceiveAll(frames: seq<Bytes>)
    requires forall i :: 0 <= i < |frames| ==> Sendable(frames[i])
    ensures DecodeAll(EncodeAll(frames)) == frames
  {
    if frames != [] {
      DecodeEncode(frames[0], EncodeAll(frames[1..]));
      ReceiveAll(frames[1..]);
    }
  }

  // ---- A connection that breaks ----

  function Upto(b: Bytes, room: nat): Bytes {
    if |b| <= room then b else b[..room]
  }

  /** What Send puts on a connection that takes `room` more bytes before it fails for good. */
  function Pushed(b: Bytes, room: nat): (s: Bytes)
    ensures |s| <= room
  {
    if Sendable(b) then Upto(Encode(b), room) else []
  }

  predicate Succeeds(b: Bytes, room: nat) {
    Sendable(b) && 4 + |b| <= room
  }

  function PushedAll(frames: seq<Bytes>, room: nat): Bytes {
    if frames == [] then [] else
      var p := Pushed(frames[0], room);
      p + PushedAll(frames[1..], room - |p|)
  }

  /** The frames whose Send reports success. */
  function Succeeded(frames: seq<Bytes>, room: nat): seq<Bytes> {
    if frames == [] then [] else
      (if Succeeds(frames[0], room) then [frames[0]] else [])
      + Succeeded(frames[1..], room - |Pushed(frames[0], room)|)
  }

  lemma {:induction false} NothingAfterBreak(frames: seq<Bytes>)
    ensures PushedAll(frames, 0) == [] && Succeeded(frames, 0) == []
  {
    if frames != [] {
      NothingAfterBreak(frames[1..]);
    }
  }

  /**
   * Wherever the connection breaks, the other end receives exactly the frames whose Send reported success,
   * in order.
   */
  lemma {:induction false} ReceivesSucceeded(frames: seq<Bytes>, room: nat)
    ensures DecodeAll(PushedAll(frames, room)) == Succeeded(frames, room)
  {
    if frames != [] {
      var b, tail := frames[0], frames[1..];
      ReceivesSucceeded(tail, room - |Pushed(b, room)|);
      hide *;
      PushedCons(frames, room);
      var p := Pushed(b, room);
      ReceivesOne(b, tail, room, p);
    }
  }

  lemma PushedCons(frames: seq<Bytes>, room: nat)
    requires frames != []
    ensures |Pushed(frames[0], room)| <= room
    ensures var p := Pushed(frames[0], room);
            && PushedAll(frames, room) == p + PushedAll(frames[1..], room - |p|)
            && Succeeded(frames, room)
               == (if Succeeds(frames[0], room) then [frames[0]] else []) + Succeeded(frames[1..], room - |p|)
  {
  }

  lemma ReceivesOne(b: Bytes, tail: seq<Bytes>, room: nat, p: Bytes)
    requires p == Pushed(b, room) && |p| <= room
    requires DecodeAll(PushedAll(tail, room - |p|)) == Succeeded(tail, room - |p|)
    ensures DecodeAll(p + PushedAll(tail, room - |p|))
         == (if Succeeds(b, room) then [b] else []) + Succeeded(tail, room - |p|)
  {
    hide Encode, DecodeAll, PushedAll, Succeeded;
    if Succeeds(b, room) {
      DecodeCons(b, PushedAll(tail, room - (4 + |b|)));
    } else if Sendable(b) {
      NothingAfterBreak(tail);
      assert p + [] == Encode(b)[..room];
      NothingDecoded(b, room);
    } else {
      assert [] + PushedAll(tail, room) == PushedAll(tail, room);
    }
  }

  /** A frame gets through if and only if it has 1 to 65535 bytes and the connection takes four more than that. */
  lemma ArrivesIff(b: Bytes, room: nat)
    ensures DecodeAll(PushedAll([b], room)) == (if 1 <= |b| <= 65535 && 4 + |b| <= room then [b] else [])
  {
    hide DecodeAll, PushedAll;
    ReceivesSucceeded([b], room);
    assert [b][1..] == [];
  }

  /** Whatever is decoded re-encodes to a prefix of the input. */
  lemma {:induction false} Reencode(input: Bytes)
    ensures EncodeAll(DecodeAll(input)) <= input
    ensures forall b :: b in DecodeAll(input) ==> Sendable(b)
    decreases |input|
  {
    var r := Decode(input);
    if r.0.Some? {
      Reencode(r.1);
      PutGet32(input[..4]);
      assert Encode(r.0.value) + r.1 == input;
    }
  }

  /** Writing two pieces in turn, stopping at the first failure, writes as much of the whole as there is room for. */
  lemma UptoTwo(a: Bytes, b: Bytes, room: nat)
    ensures Upto(a + b, room) == if |a| <= room then Upto(a, room) + Upto(b, room - |a|) else Upto(a, room)
  {
  }

  /**
   * One end of a stream: what it has written, what it can still write before it breaks, and what it has
   * still to read.
   */
  class Conn {
    var written: Bytes
    var room: nat
    var unread: Bytes

    /** net.Conn's Write: all of b, or as much as the connection takes and an error. */
    method Write(b: Bytes) returns (ok: bool)
      modifies this`written, this`room
      ensures ok == (|b| <= old(room))
      ensures written == old(written) + Upto(b, old(room)) && room == old(room) - |Upto(b, old(room))|
    {
      ok := |b| <= room;
      if ok {
        written := written + b;
        room := room - |b|;
      } else {
        written := written + b[..room];
        room := 0;
      }
    }

    method Send(b: Bytes) returns (ok: bool)
      modifies this`written, this`room
      ensures ok == Succeeds(b, old(room))
      ensures written == old(written) + Pushed(b, old(room)) && room == old(room) - |Pushed(b, old(room))|
    {
      if |b| == 0 || |b| > MAX_FRAME {
        return false;
      }
      var hdr := Put32(|b|);
      UptoTwo(hdr, b, room);
      ok := Write(hdr);
      if ok {
        ok := Write(b);
      }
    }

    /** io.ReadFull: all n bytes, or an error once the stream has run dry. */
    method ReadFull(n: nat) returns (r: Option<Bytes>)
      modifies this`unread
      ensures n <= |old(unread)| ==> r == Some(old(unread)[..n]) && unread == old(unread)[n..]
      ensures n > |old(unread)| ==> r == None && unread == []
    {
      if n <= |unread| {
        r := Some(unread[..n]);
        unread := unread[n..];
      } else {
        r := None;
        unread := [];
      }
    }

    method Receive() returns (r: Option<Bytes>)
      modifies this`unread
      ensures (r, unread) == Decode(old(unread))
    {
      var hdr := ReadFull(4);
      if hdr.None? {
        return None;
      }
      var n := Get32(hdr.value);
      if n == 0 || n > MAX_FRAME {
        return None;
      }
      r := ReadFull(n);
      ghost var input := old(unread);
      if |input| >= 4 + n {
        assert input[4..][..n] == input[4..4 + n] && input[4..][n..] == input[4 + n..];
      }
    }
  }
}
