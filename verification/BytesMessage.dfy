/** ActiveMQBytesMessage.cpp: a body that is first only written, then only read. */
module BytesMessage {
  import opened Wrappers

  newtype byte = x: int | 0 <= x < 256

  type Bytes = seq<byte>

  const MAX_LENGTH := 0x7fff_ffff

  // DataOutputStream::writeInt and DataInputStream::readInt.

  function WriteInt(n: int): Bytes
    requires -0x8000_0000 <= n <= MAX_LENGTH
  {
    var u := if n < 0 then n + 0x1_0000_0000 else n;
    [(u / 0x100_0000) as byte, (u / 0x1_0000 % 0x100) as byte, (u / 0x100 % 0x100) as byte, (u % 0x100) as byte]
  }

  function ReadInt(s: Bytes): Option<int> {
    if |s| < 4 then None
    else
      var u := s[0] as int * 0x100_0000 + s[1] as int * 0x1_0000 + s[2] as int * 0x100 + s[3] as int;
      Some(if u > MAX_LENGTH then u - 0x1_0000_0000 else u)
  }

  lemma ReadWrittenInt(n: int, rest: Bytes)
    requires -0x8000_0000 <= n <= MAX_LENGTH
    ensures ReadInt(WriteInt(n) + rest) == Some(n) && (WriteInt(n) + rest)[4..] == rest
  {
    var u := if n < 0 then n + 0x1_0000_0000 else n;
    assert u / 0x1_0000 == u / 0x100_0000 * 0x100 + u / 0x1_0000 % 0x100;
    assert u / 0x100 == u / 0x1_0000 * 0x100 + u / 0x100 % 0x100;
  }


  /** The most significant byte comes first, in two's complement. */
  lemma ByteOrder(n: int)
    requires -0x8000_0000 <= n <= MAX_LENGTH
    ensures |WriteInt(n)| == 4
    ensures WriteInt(n)[0] as int == n / 16777216 % 256 && WriteInt(n)[1] as int == n / 65536 % 256
    ensures WriteInt(n)[2] as int == n / 256 % 256 && WriteInt(n)[3] as int == n % 256
  {
    if n < 0 {
      var u := n + 4294967296;
      SameByte(u / 16777216, n / 16777216, 1);
      SameByte(u / 65536, n / 65536, 256);
      SameByte(u / 256, n / 256, 65536);
      SameByte(u, n, 16777216);
    }
  }

  lemma SameByte(u: int, n: int, m: nat)
    requires u == n + m * 256
    ensures u % 256 == n % 256
  {
  }

  /** Deflater and Inflater: what goes in comes out again. */
  datatype Codec = Codec(deflate: Bytes -> Bytes, inflate: Bytes -> Bytes)
  {
    ghost predicate Valid() {
      forall body: Bytes :: inflate(deflate(body)) == body
    }
  }

  function Min(a: int, b: int): int {
    if a < b then a else b
  }

  /** Of what was left, n bytes went into the buffer at an offset, and the rest is left now. */
  ghost predicate TookAt(was: Bytes, left: Bytes, offset: nat, n: nat, now: Bytes, rest: Bytes) {
    && n <= |left| && offset + n <= |was| && |now| == |was| && |rest| == |left| - n
    && (forall i | 0 <= i < |now| :: now[i] == if offset <= i < offset + n then left[i - offset] else was[i])
    && (forall i | 0 <= i < |rest| :: rest[i] == left[n + i])
  }

  /** The same, for one number: a loop that only passes it on does not open it. */
  ghost predicate Took(was: Bytes, left: Bytes, offset: nat, n: nat, now: Bytes, rest: Bytes) {
    forall k: nat {:trigger TookAt(was, left, offset, k, now, rest)} | k == n :: TookAt(was, left, offset, k, now, rest)
  }

  lemma TookNone(was: Bytes, left: Bytes)
    ensures Took(was, left, 0, 0, was, left)
  {
    assert TookAt(was, left, 0, 0, was, left);
  }

  lemma TookSome(was: Bytes, left: Bytes, n: nat, now: Bytes, rest: Bytes)
    requires Took(was, left, 0, n, now, rest)
    ensures |now| == |was| && |rest| == |left| - n
  {
    assert TookAt(was, left, 0, n, now, rest);
  }

  /** After n bytes, count more. */
  lemma TookMore(was: Bytes, left: Bytes, n: nat, now: Bytes, rest: Bytes, count: nat, now': Bytes, rest': Bytes)
    requires Took(was, left, 0, n, now, rest) && Took(now, rest, n, count, now', rest')
    ensures Took(was, left, 0, n + count, now', rest')
  {
    assert TookAt(was, left, 0, n, now, rest) && TookAt(now, rest, n, count, now', rest');
    assert TookAt(was, left, 0, n + count, now', rest');
  }

  /** What went to the start of the buffer, and what is left. */
  lemma TookStart(was: Bytes, left: Bytes, n: nat, now: Bytes, rest: Bytes)
    requires Took(was, left, 0, n, now, rest)
    ensures n <= |left| && n <= |now| == |was| && now[..n] == left[..n] && left == now[..n] + rest
  {
    assert TookAt(was, left, 0, n, now, rest);
    assert now[..n] == left[..n];
    assert rest == left[n..];
  }

  /** A stream that may return fewer bytes than it is asked for: schedule says by how much it falls short. */
  class InputStream {
    const data: Bytes
    const schedule: nat -> nat
    var pos: nat
    var calls: nat

    ghost predicate Valid()
      reads this
    {
      pos <= |data|
    }

    function Rest(): Bytes
      reads this
      requires Valid()
    {
      data[pos..]
    }

    constructor (data: Bytes, schedule: nat -> nat)
      ensures Valid() && this.data == data && pos == 0 && Rest() == data
    {
      this.data, this.schedule, pos, calls := data, schedule, 0, 0;
    }

    method Read(buffer: array<byte>, offset: nat, len: nat) returns (count: int)
      requires Valid() && offset + len <= buffer.Length && len > 0
      modifies this, buffer
      ensures Valid()
      ensures count == -1 <==> old(Rest()) == []
      ensures count == -1 ==> buffer[..] == old(buffer[..]) && Rest() == old(Rest())
      ensures count != -1 ==>
                && 1 <= count <= Min(len, |old(Rest())|)
                && Took(old(buffer[..]), old(Rest()), offset, count, buffer[..], Rest())
    {
      if pos == |data| {
        return -1;
      }
      var most := Min(len, |data| - pos);
      count := Min(schedule(calls) + 1, most);
      calls := calls + 1;
      forall i | 0 <= i < count {
        buffer[offset + i] := data[pos + i];
      }
      pos := pos + count;
      assert TookAt(old(buffer[..]), old(Rest()), offset, count, buffer[..], Rest());
    }
  }

  /** The loop of readBytes. */
  method Fill(stream: InputStream, buffer: array<byte>, len: nat) returns (n: nat)
    requires stream.Valid() && len <= buffer.Length
    modifies stream, buffer
    ensures stream.Valid() && n == Min(len, |old(stream.Rest())|)
    ensures Took(old(buffer[..]), old(stream.Rest()), 0, n, buffer[..], stream.Rest())
  {
    ghost var was, left := buffer[..], stream.Rest();
    n := 0;
    TookNone(was, left);
    while n < len
      invariant n <= len && n <= |left| && stream.Valid()
      invariant Took(was, left, 0, n, buffer[..], stream.Rest())
    {
      ghost var now, rest := buffer[..], stream.Rest();
      TookSome(was, left, n, now, rest);
      var count := stream.Read(buffer, n, len - n);
      if count < 0 {
        break;
      }
      TookMore(was, left, n, now, rest, count, buffer[..], stream.Rest());
      n := n + count;
    }
  }

  datatype MessageError = NotReadable | NotWriteable | EndOfFile | NegativeLength

  datatype Reply<+T> = Answer(value: T) | Refused(error: MessageError)

  /** The content of a message that carries a body. */
  function Stored(codec: Codec, compressed: bool, body: Bytes): Bytes
    requires |body| <= MAX_LENGTH
  {
    if body == [] then []
    else if compressed then WriteInt(|body|) + codec.deflate(body)
    else body
  }

  /** On the wire a compressed body comes after its length, the most significant byte first. */
  lemma WireForm(codec: Codec, body: Bytes)
    requires |body| <= MAX_LENGTH
    ensures Stored(codec, false, body) == body && Stored(codec, true, []) == []
    ensures body != [] ==>
              var s, n := Stored(codec, true, body), |body|;
              && |s| >= 4 && s[4..] == codec.deflate(body)
              && s[0] as int == n / 16777216 % 256 && s[1] as int == n / 65536 % 256
              && s[2] as int == n / 256 % 256 && s[3] as int == n % 256
  {
    ByteOrder(|body|);
  }

  class ActiveMQBytesMessage {
    const codec: Codec
    const useCompression: bool        // of the connection
    const schedule: nat -> nat        // of the streams to come
    var content: Bytes
    var compressed: bool
    var readOnlyBody: bool
    var dataOut: Option<Bytes>        // what has been written to the stream, if there is one
    var dataIn: InputStream?
    var length: int
    ghost var body: Bytes             // what has been written since the body was last cleared
    ghost var unread: Bytes           // what is still to be read, in a message that can be read

    ghost predicate Invariant()
      reads this, dataIn
    {
      && codec.Valid() && |body| <= MAX_LENGTH && (compressed ==> useCompression)
      && if readOnlyBody then
           && dataOut == None && content == Stored(codec, compressed, body)
           && if dataIn == null then unread == body
              else
                && dataIn.Valid() && dataIn.data == body && unread == dataIn.Rest()
                && length == |body| && Readable()
         else
           && dataIn == null && content == []
           && match dataOut
              case None => body == [] && length == 0
              case Some(b) => body == b && compressed == useCompression && length == if compressed then |b| else 0
    }

    /** A compressed message must not be empty. */
    predicate Readable()
      reads `compressed, `content
    {
      compressed ==> content != []
    }

    /** The invariant, for one message: a caller that only passes it on does not open it. */
    ghost predicate Valid()
      reads this, dataIn
    {
      forall m: ActiveMQBytesMessage {:trigger m.Invariant()} | m == this :: m.Invariant()
    }

    constructor (codec: Codec, useCompression: bool, schedule: nat -> nat)
      requires codec.Valid()
      ensures Valid() && this.codec == codec && this.useCompression == useCompression
      ensures !readOnlyBody && body == [] && !compressed && dataIn == null
    {
      this.codec, this.useCompression, this.schedule := codec, useCompression, schedule;
      content, compressed, readOnlyBody, dataOut, dataIn, length, body := [], false, false, None, null, 0, [];
      unread := [];
      new;
      assert Invariant();
    }

    method ClearBody()
      requires Valid()
      modifies this
      ensures Valid() && !readOnlyBody && body == [] && dataIn == null && compressed == old(compressed)
    {
      assert Invariant();
      content, readOnlyBody := [], false;
      dataOut, dataIn, length := None, null, 0;
      body, unread := [], [];
      assert Invariant();
    }

    method InitializeWriting() returns (r: Reply<()>)
      requires Valid()
      modifies this
      ensures Valid() && body == old(body) && readOnlyBody == old(readOnlyBody) && dataIn == old(dataIn)
      ensures r == if readOnlyBody then Refused(NotWriteable) else Answer(())
      ensures readOnlyBody ==> unchanged(this)
      ensures !readOnlyBody ==> dataOut == Some(body) && (compressed <==> useCompression)
    {
      assert Invariant();
      if readOnlyBody {
        return Refused(NotWriteable);
      }
      if dataOut == None {
        length := 0;
        if useCompression {
          compressed := true;
        }
        dataOut := Some([]);
      }
      assert Invariant();
      return Answer(());
    }

    /** Every write method, with the bytes that its stream makes of the value. */
    method Write(bytes: Bytes) returns (r: Reply<()>)
      requires Valid() && |body| + |bytes| <= MAX_LENGTH
      modifies this
      ensures Valid() && readOnlyBody == old(readOnlyBody) && dataIn == old(dataIn)
      ensures r == if readOnlyBody then Refused(NotWriteable) else Answer(())
      ensures readOnlyBody ==> unchanged(this)
      ensures !readOnlyBody ==> body == old(body) + bytes && (compressed <==> useCompression)
    {
      r := InitializeWriting();
      if r.Answer? {
        assert Invariant();
        dataOut := Some(dataOut.value + bytes);
        length := if compressed then length + |bytes| else length;
        body := body + bytes;
        assert Invariant();
      }
    }

    /**
     The source asks whether bytes have reached the byte array: they have as soon as
     one was written, since a deflater begins with its header.
     */
    method StoreContent()
      requires Valid()
      modifies `content, `dataOut
      ensures |body| <= MAX_LENGTH
      ensures content == if old(readOnlyBody) then old(content) else Stored(codec, compressed, body)
      ensures readOnlyBody ==> unchanged(this)
    {
      assert Invariant();
      if dataOut.Some? && dataOut.value != [] {
        content := if compressed then WriteInt(length) + codec.deflate(dataOut.value) else dataOut.value;
        dataOut := None;
      }
    }

    method Reset()
      requires Valid()
      modifies this
      ensures Valid() && readOnlyBody && body == old(body) && unread == body
      ensures dataIn == null && compressed == old(compressed)
      ensures Readable() <==> !compressed || body != []
      // in a message that is read already, this only rewinds
      ensures old(readOnlyBody) ==> content == old(content)
    {
      assert Invariant();
      StoreContent();
      dataIn, dataOut := null, None;
      length, unread := 0, body;
      readOnlyBody := true;
      assert Invariant();
    }

    method InitializeReading() returns (r: Reply<()>)
      requires Valid()
      modifies `dataIn, `length, `unread
      ensures Valid() && (dataIn != old(dataIn) ==> fresh(dataIn))
      ensures r.Answer? <==> readOnlyBody && Readable()
      ensures r.Refused? ==> r.error == (if readOnlyBody then EndOfFile else NotReadable) && unchanged(this)
      ensures r.Answer? ==> dataIn != null && unread == old(unread)
    {
      assert Invariant();
      if !readOnlyBody {
        return Refused(NotReadable);
      }
      if dataIn == null {
        if compressed {
          var prefix := ReadInt(content);
          if body != [] {
            ReadWrittenInt(|body|, codec.deflate(body));
          }
          if prefix == None {
            return Refused(EndOfFile);
          }
          length := prefix.value;
          dataIn := new InputStream(codec.inflate(content[4..]), schedule);
        } else {
          length := |content|;
          dataIn := new InputStream(content, schedule);
        }
      }
      assert Invariant();
      return Answer(());
    }

    method GetBodyLength() returns (r: Reply<int>)
      requires Valid()
      modifies `dataIn, `length, `unread
      ensures Valid() && (dataIn != old(dataIn) ==> fresh(dataIn))
      ensures readOnlyBody ==> unread == old(unread)
      ensures r == if !readOnlyBody then Refused(NotReadable)
                   else if Readable() then Answer(|body|)
                   else Refused(EndOfFile)
    {
      var ready := InitializeReading();
      if ready.Refused? {
        return Refused(ready.error);
      }
      assert Invariant();
      return Answer(length);
    }

    /** Whatever the stream returns at a time, the buffer gets as many bytes as it has room for, and as there are. */
    method ReadBytes(buffer: array<byte>, len: int) returns (r: Reply<int>)
      requires Valid() && len <= buffer.Length
      modifies `dataIn, `length, `unread, dataIn, buffer
      ensures Valid() && (dataIn != old(dataIn) ==> fresh(dataIn))
      ensures !readOnlyBody ==> r == Refused(NotReadable)
      ensures readOnlyBody && !Readable() ==> r == Refused(EndOfFile)
      ensures readOnlyBody && Readable() && len < 0 ==> r == Refused(NegativeLength)
      ensures r.Refused? ==> buffer[..] == old(buffer[..]) && (readOnlyBody ==> unread == old(unread))
      ensures readOnlyBody && Readable() && len >= 0 ==>
                var count := Min(len, |old(unread)|);
                && r == Answer(if count == 0 && len > 0 then -1 else count)
                && Took(old(buffer[..]), old(unread), 0, count, buffer[..], unread)
    {
      var ready := InitializeReading();
      if ready.Refused? {
        return Refused(ready.error);
      }
      if len < 0 {
        return Refused(NegativeLength);
      }
      var n := ReadReady(buffer, len);
      return Answer(if n == 0 && len > 0 then -1 else n);
    }

    /** The part of readBytes after the stream is there. */
    method ReadReady(buffer: array<byte>, len: nat) returns (n: nat)
      requires Valid() && readOnlyBody && dataIn != null && len <= buffer.Length
      modifies `unread, dataIn, buffer
      ensures Valid() && n == Min(len, |old(unread)|)
      ensures Took(old(buffer[..]), old(unread), 0, n, buffer[..], unread)
    {
      assert Invariant();
      n := Fill(dataIn, buffer, len);
      unread := dataIn.Rest();
      assert Invariant();
    }

    /** The whole body, if none of it has been read yet. */
    method GetBodyBytes() returns (r: Reply<Bytes>)
      requires Valid()
      modifies `dataIn, `length, `unread, dataIn
      ensures Valid() && (dataIn != old(dataIn) ==> fresh(dataIn))
      ensures r.Refused? <==> !readOnlyBody || !Readable()
      ensures r.Answer? ==> |r.value| == |body| && old(unread) <= r.value && unread == []
      ensures r.Answer? && old(unread) == body ==> r.value == body
    {
      var bodyLength := GetBodyLength();
      if bodyLength.Refused? {
        return Refused(bodyLength.error);
      }
      if bodyLength.value == 0 {
        assert Invariant();
        return Answer([]);
      }
      var buffer := new byte[bodyLength.value];
      assert Invariant();
      ghost var was, left := buffer[..], unread;
      var count := ReadBytes(buffer, bodyLength.value);
      TookStart(was, left, |left|, buffer[..], unread);
      return Answer(buffer[..]);
    }
  }

  function Concat(pieces: seq<Bytes>): Bytes {
    if pieces == [] then [] else pieces[0] + Concat(pieces[1..])
  }

  function Sum(requests: seq<nat>): nat {
    if requests == [] then 0 else requests[0] + Sum(requests[1..])
  }

  lemma ConcatNext(pieces: seq<Bytes>, i: nat)
    requires i < |pieces|
    ensures Concat(pieces[..i + 1]) == Concat(pieces[..i]) + pieces[i]
    ensures |Concat(pieces[..i + 1])| <= |Concat(pieces)|
  {
    if i == 0 {
      assert pieces[..1][1..] == [] && pieces[..0] == [];
    } else {
      ConcatNext(pieces[1..], i - 1);
      assert pieces[..i + 1][1..] == pieces[1..][..i] && pieces[..i][1..] == pieces[1..][..i - 1];
    }
  }

  /** Writes a message, and resets it. */
  method WriteAll(codec: Codec, useCompression: bool, schedule: nat -> nat, writes: seq<Bytes>)
    returns (m: ActiveMQBytesMessage)
    requires codec.Valid() && |Concat(writes)| <= MAX_LENGTH
    ensures fresh(m) && m.Valid() && m.readOnlyBody && m.body == m.unread == Concat(writes) && m.dataIn == null
    ensures m.compressed <==> useCompression && writes != []
    ensures m.Readable() <==> !m.compressed || m.body != []
  {
    m := new ActiveMQBytesMessage(codec, useCompression, schedule);
    for i := 0 to |writes|
      invariant fresh(m) && m.Valid() && !m.readOnlyBody && m.dataIn == null && m.useCompression == useCompression
      invariant m.body == Concat(writes[..i]) && (m.compressed <==> useCompression && i > 0)
    {
      ConcatNext(writes, i);
      var r := m.Write(writes[i]);
    }
    assert writes[..|writes|] == writes;
    m.Reset();
  }

  lemma MoveOver(a: Bytes, b: Bytes, c: Bytes)
    ensures a + (b + c) == (a + b) + c
  {
  }

  /** Reads a message in pieces, each through a buffer of its own. */
  method ReadAll(m: ActiveMQBytesMessage, requests: seq<nat>) returns (read: Bytes)
    requires m.Valid() && m.readOnlyBody && m.Readable()
    modifies m`dataIn, m`length, m`unread, m.dataIn
    ensures m.Valid() && (m.dataIn != old(m.dataIn) ==> fresh(m.dataIn))
    ensures old(m.unread) == read + m.unread && |read| == Min(Sum(requests), |old(m.unread)|)
    decreases |requests|
  {
    if requests == [] {
      return [];
    }
    var piece := ReadPiece(m, requests[0]);
    var rest := ReadAll(m, requests[1..]);
    MoveOver(piece, rest, m.unread);
    read := piece + rest;
  }

  method ReadPiece(m: ActiveMQBytesMessage, request: nat) returns (piece: Bytes)
    requires m.Valid() && m.readOnlyBody && m.Readable()
    modifies m`dataIn, m`length, m`unread, m.dataIn
    ensures m.Valid() && (m.dataIn != old(m.dataIn) ==> fresh(m.dataIn))
    ensures old(m.unread) == piece + m.unread && |piece| == Min(request, |old(m.unread)|)
  {
    var buffer := new byte[request];
    ghost var was, left := buffer[..], m.unread;
    var r := m.ReadBytes(buffer, request);
    ghost var n, now := Min(request, |left|), buffer[..];
    TookStart(was, left, n, now, m.unread);
    assert r == Answer(if n == 0 && request > 0 then -1 else n);
    if r.value < 0 {
      return [];
    }
    assert n <= buffer.Length && now[..n] == buffer[..n];
    piece := buffer[..r.value];
  }

  /**
   What was written to a message is read from it, in whatever pieces it was written, is requested, or
   comes from the stream, and however often it is reset before. The one exception: a compressed
   message to which only nothing was written cannot be read at all.
   */
  method RoundTrip(codec: Codec, useCompression: bool, schedule: nat -> nat, writes: seq<Bytes>, resets: nat,
                   requests: seq<nat>)
    returns (bodyLength: Reply<int>, read: Bytes)
    requires codec.Valid() && |Concat(writes)| <= MAX_LENGTH
    ensures var body := Concat(writes);
            if useCompression && writes != [] && body == [] then
              bodyLength == Refused(EndOfFile) && read == []
            else
              bodyLength == Answer(|body|) && read <= body && |read| == Min(Sum(requests), |body|)
  {
    var m := WriteAll(codec, useCompression, schedule, writes);
    for i := 0 to resets
      invariant fresh(m) && m.Valid() && m.readOnlyBody && m.body == m.unread == Concat(writes) && m.dataIn == null
      invariant m.compressed <==> useCompression && writes != []
      invariant m.Readable() <==> !m.compressed || m.body != []
    {
      m.Reset();
    }
    bodyLength := m.GetBodyLength();
    read := [];
    if bodyLength.Answer? {
      read := ReadAll(m, requests);
    }
  }
}
