/** Frames on the wire: a four-byte big-endian length, then the body. Serialisation itself is a parameter. */
module Codec {
  import opened Common
  import opened Protocol

  const MAX_MESSAGE_SIZE_BYTES: nat := 1048576

  const TWO_TO_THE_32: nat := 0x1_0000_0000

  // ---------- The header ----------

  /** `len as u32`, big-endian: a longer body wraps around. */
  function Header(len: nat): (h: seq<Byte>)
    ensures |h| == 4
  {
    [(len / 0x100_0000 % 256) as Byte, (len / 0x1_0000 % 256) as Byte, (len / 0x100 % 256) as Byte, (len % 256) as Byte]
  }

  function HeaderValue(h: seq<Byte>): nat
    requires |h| >= 4
  {
    h[0] as nat * 0x100_0000 + h[1] as nat * 0x1_0000 + h[2] as nat * 0x100 + h[3] as nat
  }

  lemma HeaderRoundTrip(len: nat)
    ensures HeaderValue(Header(len)) == len % TWO_TO_THE_32
  {
    var a, b, c := len / 0x100, len / 0x1_0000, len / 0x100_0000;
    assert b == a / 0x100 && c == b / 0x100;
    assert len % TWO_TO_THE_32 == len - c / 0x100 * TWO_TO_THE_32;
  }

  /** Any four bytes are the header of the length that they mean. */
  lemma HeaderOfValue(h: seq<Byte>)
    requires |h| == 4
    ensures Header(HeaderValue(h)) == h
  {
    var len := HeaderValue(h);
    var a, b, c := len / 0x100, len / 0x1_0000, len / 0x100_0000;
    assert a == h[0] as int * 0x1_0000 + h[1] as int * 0x100 + h[2] as int;
    assert b == h[0] as int * 0x100 + h[1] as int;
    assert c == h[0] as int;
  }

  /** The most significant byte comes first: one more digit to base 256 moves the others to the front. */
  lemma BigEndian(n: nat, digit: Byte)
    requires n < 0x100_0000
    ensures Header(0) == [0, 0, 0, 0]
    ensures Header(256 * n + digit as int) == Header(n)[1..] + [digit]
  {
    var len := 256 * n + digit as int;
    assert len / 0x100 == n && len / 0x1_0000 == n / 0x100 && len / 0x100_0000 == n / 0x1_0000;
    assert Header(n)[0] == 0;
  }

  // ---------- Decoding ----------

  datatype CodecError = TooLong | Undecodable | Unencodable

  /** One attempt: an item and the bytes after it, or nothing yet, or an error that leaves the bytes alone. */
  datatype Attempt<T> = Incomplete | Item(value: T, rest: seq<Byte>) | Bad(error: CodecError)

  function DecodeOne<T>(buf: seq<Byte>, deser: seq<Byte> -> Option<T>): Attempt<T> {
    if |buf| < 4 then Incomplete
    else
      var len := HeaderValue(buf);
      if len > MAX_MESSAGE_SIZE_BYTES then Bad(TooLong)
      else if |buf| < len + 4 then Incomplete
      else
        match deser(buf[4..len + 4])
        case Some(value) => Item(value, buf[len + 4..])
        case None => Bad(Undecodable)
  }

  /** The growing buffer between a socket and the codec. */
  class BytesMut {
    var bytes: seq<Byte>

    constructor ()
      ensures bytes == []
    {
      bytes := [];
    }

    method Advance(n: nat)
      requires n <= |bytes|
      modifies this
      ensures bytes == old(bytes)[n..]
    {
      bytes := bytes[n..];
    }

    method PutSlice(more: seq<Byte>)
      modifies this
      ensures bytes == old(bytes) + more
    {
      bytes := bytes + more;
    }
  }

  method Decode<T>(src: BytesMut, deser: seq<Byte> -> Option<T>) returns (r: Result<Option<T>, CodecError>)
    modifies src
    ensures match DecodeOne(old(src.bytes), deser)
            case Incomplete => r == Ok(None) && src.bytes == old(src.bytes)
            case Item(value, rest) => r == Ok(Some(value)) && src.bytes == rest
            case Bad(error) => r == Err(error) && src.bytes == old(src.bytes)
  {
    if |src.bytes| < 4 {
      return Ok(None);
    }
    var payloadLen := HeaderValue(src.bytes[..4]);
    if payloadLen > MAX_MESSAGE_SIZE_BYTES {
      return Err(TooLong);
    }
    var msgLen := payloadLen + 4;
    if |src.bytes| < msgLen {
      return Ok(None);
    }
    match deser(src.bytes[4..msgLen]) {
      case Some(msg) =>
        src.Advance(msgLen);
        return Ok(Some(msg));
      case None =>
        return Err(Undecodable);
    }
  }

  method Encode<T>(item: T, dst: BytesMut, ser: T -> Option<seq<Byte>>) returns (r: Result<(), CodecError>)
    modifies dst
    ensures match ser(item)
            case Some(body) => r == Ok(()) && dst.bytes == old(dst.bytes) + Frame(body)
            case None => r == Err(Unencodable) && dst.bytes == old(dst.bytes)
  {
    match ser(item) {
      case None =>
        return Err(Unencodable);
      case Some(bytes) =>
        dst.PutSlice(Header(|bytes|));
        dst.PutSlice(bytes);
        assert old(dst.bytes) + Header(|bytes|) + bytes == old(dst.bytes) + Frame(bytes);
        return Ok(());
    }
  }

  function Frame(body: seq<Byte>): seq<Byte> {
    Header(|body|) + body
  }

  /** Deserialising undoes serialising, wherever that succeeds. */
  ghost predicate Inverse<T(!new)>(ser: T -> Option<seq<Byte>>, deser: seq<Byte> -> Option<T>) {
    forall x :: ser(x).Some? ==> deser(ser(x).value) == Some(x)
  }

  // ---------- One frame ----------

  lemma DecodeFrame<T(!new)>(x: T, rest: seq<Byte>, ser: T -> Option<seq<Byte>>, deser: seq<Byte> -> Option<T>)
    requires Inverse(ser, deser) && ser(x).Some? && |ser(x).value| <= MAX_MESSAGE_SIZE_BYTES
    ensures DecodeOne(Frame(ser(x).value) + rest, deser) == Item(x, rest)
  {
    var body := ser(x).value;
    var buf := Frame(body) + rest;
    HeaderRoundTrip(|body|);
    assert HeaderValue(buf) == |body|;
    assert buf[4..|body| + 4] == body && buf[|body| + 4..] == rest;
  }

  /** A frame survives the wire, leaving what follows it untouched, exactly when its body is at most 1 MiB: the
      encoder does not check the size, the decoder does, and beyond 32 bits the length wraps. */
  lemma FrameSurvivesExactly<T(!new)>(x: T, rest: seq<Byte>, ser: T -> Option<seq<Byte>>, deser: seq<Byte> -> Option<T>)
    requires Inverse(ser, deser) && ser(x).Some?
    ensures DecodeOne(Frame(ser(x).value) + rest, deser) == Item(x, rest) <==> |ser(x).value| <= MAX_MESSAGE_SIZE_BYTES
  {
    var body := ser(x).value;
    var buf := Frame(body) + rest;
    if |body| <= MAX_MESSAGE_SIZE_BYTES {
      DecodeFrame(x, rest, ser, deser);
    } else {
      HeaderRoundTrip(|body|);
      assert HeaderValue(buf) == |body| % TWO_TO_THE_32;
      assert |body| < TWO_TO_THE_32 ==> HeaderValue(buf) == |body|;
    }
  }

  /** Part of a frame decodes to nothing yet. */
  lemma PartOfFrame<T>(body: seq<Byte>, part: seq<Byte>, deser: seq<Byte> -> Option<T>)
    requires |body| <= MAX_MESSAGE_SIZE_BYTES && part < Frame(body)
    ensures DecodeOne(part, deser) == Incomplete
  {
    HeaderRoundTrip(|body|);
    if |part| >= 4 { assert HeaderValue(part) == HeaderValue(Frame(body)) == HeaderValue(Header(|body|)); }
  }

  // ---------- A stream of frames ----------

  /** The stream that encoding the items one after the other leaves; an item that cannot be encoded adds nothing. */
  function EncodeAll<T>(items: seq<T>, ser: T -> Option<seq<Byte>>): seq<Byte> {
    if items == [] then [] else FrameOf(items[0], ser) + EncodeAll(items[1..], ser)
  }

  function FrameOf<T>(item: T, ser: T -> Option<seq<Byte>>): seq<Byte> {
    match ser(item)
    case Some(body) => Frame(body)
    case None => []
  }

  /** Decode until nothing more comes out: the items, and what stays in the buffer. */
  function DecodeAll<T>(buf: seq<Byte>, deser: seq<Byte> -> Option<T>): (seq<T>, seq<Byte>)
    decreases |buf|
  {
    match DecodeOne(buf, deser)
    case Item(value, rest) => var (more, left) := DecodeAll(rest, deser); ([value] + more, left)
    case _ => ([], buf)
  }

  /** Read chunk by chunk, decoding to exhaustion after each. */
  function Feed<T>(buf: seq<Byte>, chunks: seq<seq<Byte>>, deser: seq<Byte> -> Option<T>): (seq<T>, seq<Byte>)
    decreases |chunks|
  {
    if chunks == [] then ([], buf)
    else
      var (items, left) := DecodeAll(buf + chunks[0], deser);
      var (more, last) := Feed(left, chunks[1..], deser);
      (items + more, last)
  }

  function Flatten(chunks: seq<seq<Byte>>): seq<Byte> {
    if chunks == [] then [] else chunks[0] + Flatten(chunks[1..])
  }

  /** Every item serialises, and to at most 1 MiB. */
  ghost predicate Fit<T>(items: seq<T>, ser: T -> Option<seq<Byte>>) {
    forall i | 0 <= i < |items| :: ser(items[i]).Some? && |ser(items[i]).value| <= MAX_MESSAGE_SIZE_BYTES
  }

  /** Cutting one stream in two ways: the shorter first part begins the longer one. */
  lemma Cut(a: seq<Byte>, b: seq<Byte>, c: seq<Byte>, d: seq<Byte>)
    requires a + b == c + d
    ensures |a| < |c| ==> a < c
    ensures |a| >= |c| ==> a == c + a[|c|..] && a[|c|..] + b == d
  {
    var all := a + b;
    assert a == all[..|a|] && b == all[|a|..] && c == all[..|c|] && d == all[|c|..];
    if |a| >= |c| {
      assert a[|c|..] + b == all[|c|..];
    }
  }

  lemma EncodeOneMore<T>(items: seq<T>, k: nat, ser: T -> Option<seq<Byte>>)
    requires items != [] && k <= |items| - 1
    ensures items[..k + 1] == [items[0]] + items[1..][..k] && items[1..][k..] == items[k + 1..]
    ensures EncodeAll(items[..k + 1], ser) == FrameOf(items[0], ser) + EncodeAll(items[1..][..k], ser)
  {
    assert items[..k + 1][1..] == items[1..][..k];
  }

  /** Any prefix of the stream yields the complete items in it and keeps the rest. */
  lemma {:induction false} DecodePrefix<T(!new)>(items: seq<T>, buf: seq<Byte>, later: seq<Byte>,
      ser: T -> Option<seq<Byte>>, deser: seq<Byte> -> Option<T>) returns (k: nat, left: seq<Byte>)
    requires Inverse(ser, deser) && Fit(items, ser) && buf + later == EncodeAll(items, ser)
    ensures k <= |items| && buf == EncodeAll(items[..k], ser) + left && left + later == EncodeAll(items[k..], ser)
    ensures DecodeAll(buf, deser) == (items[..k], left) && DecodeOne(left, deser) == Incomplete
    decreases |items|
  {
    if items == [] {
      k, left := 0, buf;
    } else {
      var frame := FrameOf(items[0], ser);
      Cut(buf, later, frame, EncodeAll(items[1..], ser));
      if |buf| < |frame| {
        PartOfFrame(ser(items[0]).value, buf, deser);
        k, left := 0, buf;
      } else {
        var rest := buf[|frame|..];
        DecodeFrame(items[0], rest, ser, deser);
        hide DecodeOne, FrameOf, Inverse;
        k, left := DecodePrefix(items[1..], rest, later, ser, deser);
        Prepended(items, k, rest, left, ser);
        k := k + 1;
      }
    }
  }

  lemma Prepended<T>(items: seq<T>, k: nat, rest: seq<Byte>, left: seq<Byte>, ser: T -> Option<seq<Byte>>)
    requires items != [] && k < |items| && rest == EncodeAll(items[1..][..k], ser) + left
    ensures FrameOf(items[0], ser) + rest == EncodeAll(items[..k + 1], ser) + left
    ensures items[..k + 1] == [items[0]] + items[1..][..k] && items[1..][k..] == items[k + 1..]
  {
    hide FrameOf;
    EncodeOneMore(items, k, ser);
  }

  lemma {:induction false} EncodeConcat<T>(a: seq<T>, b: seq<T>, ser: T -> Option<seq<Byte>>)
    ensures EncodeAll(a + b, ser) == EncodeAll(a, ser) + EncodeAll(b, ser)
    decreases |a|
  {
    hide FrameOf;
    if a == [] {
      assert a + b == b;
    } else {
      EncodeConcat(a[1..], b, ser);
      assert (a + b)[1..] == a[1..] + b;
    }
  }

  lemma NothingDecoded<T>(buf: seq<Byte>, deser: seq<Byte> -> Option<T>)
    requires DecodeOne(buf, deser) == Incomplete
    ensures DecodeAll(buf, deser) == ([], buf)
  {}

  lemma AllArrived<T(!new)>(items: seq<T>, k: nat, left: seq<Byte>, ser: T -> Option<seq<Byte>>,
                     deser: seq<Byte> -> Option<T>)
    requires Inverse(ser, deser) && Fit(items, ser) && k <= |items|
    requires DecodeOne(left, deser) == Incomplete && left + [] == EncodeAll(items[k..], ser)
    ensures k == |items| && left == []
  {
    assert left + [] == left;
    if k < |items| {
      DecodeFrame(items[k], EncodeAll(items[k..][1..], ser), ser, deser);
    }
  }

  lemma Regroup(a: seq<Byte>, b: seq<Byte>, l: seq<Byte>, rest: seq<Byte>, left: seq<Byte>)
    requires l + rest == b + left
    ensures (a + l) + rest == (a + b) + left
  {
    assert (a + l) + rest == a + (l + rest);
  }

  lemma Assemble<T>(items: seq<T>, i: nat, j: nat, arrived: seq<Byte>, l: seq<Byte>, rest: seq<Byte>, left: seq<Byte>,
                    ser: T -> Option<seq<Byte>>)
    requires i <= |items| && j <= |items| - i
    requires arrived == EncodeAll(items[..i], ser) + l && l + rest == EncodeAll(items[i..][..j], ser) + left
    ensures items[..i + j] == items[..i] + items[i..][..j]
    ensures arrived + rest == EncodeAll(items[..i + j], ser) + left
  {
    hide EncodeAll;
    assert items[..i + j] == items[..i] + items[i..][..j];
    EncodeConcat(items[..i], items[i..][..j], ser);
    Regroup(EncodeAll(items[..i], ser), EncodeAll(items[i..][..j], ser), l, rest, left);
  }

  lemma FitParts<T>(items: seq<T>, k: nat, ser: T -> Option<seq<Byte>>)
    requires Fit(items, ser) && k <= |items|
    ensures Fit(items[k..], ser)
  {}

  /** However the stream is cut into chunks, and whether or not it has arrived completely, decoding yields the
      items that are complete so far, in order, and the buffer holds exactly what is left of the bytes. */
  lemma {:induction false} ChunkingIsIrrelevant<T(!new)>(items: seq<T>, buf: seq<Byte>, chunks: seq<seq<Byte>>,
      later: seq<Byte>, ser: T -> Option<seq<Byte>>, deser: seq<Byte> -> Option<T>) returns (k: nat, left: seq<Byte>)
    requires Inverse(ser, deser) && Fit(items, ser) && buf + Flatten(chunks) + later == EncodeAll(items, ser)
    requires DecodeOne(buf, deser) == Incomplete
    ensures k <= |items| && buf + Flatten(chunks) == EncodeAll(items[..k], ser) + left
    ensures Feed(buf, chunks, deser) == (items[..k], left)
    ensures later == [] ==> k == |items| && left == []
    decreases |chunks|
  {
    hide DecodeOne, Frame, FrameOf, Inverse, DecodeAll;
    if chunks == [] {
      assert buf + [] == buf;
      k, left := DecodePrefix(items, buf, later, ser, deser);
      NothingDecoded(buf, deser);
      if later == [] { AllArrived(items, k, left, ser, deser); }
    } else {
      var arrived, rest := buf + chunks[0], Flatten(chunks[1..]);
      assert arrived + rest == buf + Flatten(chunks) && arrived + (rest + later) == arrived + rest + later;
      var i, l := DecodePrefix(items, arrived, rest + later, ser, deser);
      assert l + rest + later == l + (rest + later);
      FitParts(items, i, ser);
      var j, l' := ChunkingIsIrrelevant(items[i..], l, chunks[1..], later, ser, deser);
      Assemble(items, i, j, arrived, l, rest, l', ser);
      k, left := i + j, l';
    }
  }
}
