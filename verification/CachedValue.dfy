/** The codec of cached responses, src/filter/cache_utils.go. */
module CachedValue {
  import opened Bytes
  import opened ByteBuf

  datatype Header = Header(key: seq<byte>, value: seq<byte>)

  // ---- The format

  function Field(x: seq<byte>): seq<byte> {
    IntBytes(|x|) + x
  }

  function Pairs(hs: seq<Header>): seq<byte> {
    if hs == [] then []
    else
      var last := hs[|hs| - 1];
      Pairs(hs[..|hs| - 1]) + (Field(last.key) + Field(last.value))
  }

  function Encoded(hs: seq<Header>, body: seq<byte>): seq<byte> {
    IntBytes(|hs|) + Pairs(hs) + Field(body)
  }

  /** NewCachedValue: the count of headers is written as 0 and put right at index 0 in the end. */
  method NewCachedValue(headers: seq<Header>, body: seq<byte>) returns (buf: Buffer)
    ensures fresh(buf) && fresh(buf.buf) && buf.Valid() && buf.Content() == Encoded(headers, body)
  {
    hide Pairs, Field, IntBytes;
    buf := new Buffer(128);
    buf.WriteInt(0);
    assert buf.Content() == IntBytes(0) by { assert [] + IntBytes(0) == IntBytes(0); }
    var n := WriteHeaders(buf, headers);
    WriteField(buf, body);
    ghost var written := Pairs(headers) + Field(body);
    Regroup(IntBytes(0), Pairs(headers), Field(body));
    Patch(buf, n, written);
    Regroup(IntBytes(n), Pairs(headers), Field(body));
  }

  lemma Regroup(a: seq<byte>, b: seq<byte>, c: seq<byte>)
    ensures (a + b) + c == a + (b + c)
  {
  }

  /** The callback of VisitAll, once for each header. */
  method WriteHeaders(buf: Buffer, headers: seq<Header>) returns (n: nat)
    requires buf.Valid()
    modifies buf, buf.buf
    ensures buf.Valid() && buf.Content() == old(buf.Content()) + Pairs(headers) && n == |headers|
    ensures (buf.buf == old(buf.buf) || fresh(buf.buf)) && (old(buf.readerIndex) == 0 ==> buf.readerIndex == 0)
  {
    n := 0;
    assert buf.Content() == buf.Content() + Pairs(headers[..0]);
    hide Pairs, Field;
    while n < |headers|
      invariant 0 <= n <= |headers|
      invariant buf.Valid() && (buf.buf == old(buf.buf) || fresh(buf.buf))
          && (old(buf.readerIndex) == 0 ==> buf.readerIndex == 0)
      invariant buf.Content() == old(buf.Content()) + Pairs(headers[..n])
    {
      WriteField(buf, headers[n].key);
      WriteField(buf, headers[n].value);
      PairsGrow(old(buf.Content()), headers, n);
      n := n + 1;
    }
    assert headers[..n] == headers;
  }

  method WriteField(buf: Buffer, x: seq<byte>)
    requires buf.Valid()
    modifies buf, buf.buf
    ensures buf.Valid() && buf.Content() == old(buf.Content()) + Field(x)
    ensures (buf.buf == old(buf.buf) || fresh(buf.buf)) && (old(buf.readerIndex) == 0 ==> buf.readerIndex == 0)
  {
    buf.WriteInt(|x|);
    buf.Write(x);
    assert old(buf.Content()) + IntBytes(|x|) + x == old(buf.Content()) + Field(x);
  }

  /** Overwrites the count at the front of the raw bytes, where the content still starts. */
  method Patch(buf: Buffer, n: nat, ghost rest: seq<byte>)
    requires buf.Valid() && buf.readerIndex == 0 && buf.Content() == IntBytes(0) + rest
    modifies buf.buf
    ensures buf.Valid() && buf.Content() == IntBytes(n) + rest
  {
    assert |buf.Content()| >= 4;
    ghost var raw := buf.buf[..];
    assert raw[..buf.writerIndex] == buf.Content();
    assert forall i :: 4 <= i < buf.writerIndex ==> raw[i] == rest[i - 4];
    buf.PutInt(n, 0);
    assert buf.buf[..] == IntBytes(n) + raw[4..];
  }

  lemma PairsGrow(before: seq<byte>, hs: seq<Header>, n: nat)
    requires n < |hs|
    ensures before + Pairs(hs[..n + 1]) == before + Pairs(hs[..n]) + Field(hs[n].key) + Field(hs[n].value)
  {
    assert hs[..n + 1][..n] == hs[..n];
  }

  // ---- Reading it

  /** readBytes: a size and as many bytes. */
  function FieldOf(c: seq<byte>): (seq<byte>, seq<byte>) {
    var (n, rest) := IntOf(c);
    BytesOf(rest, n)
  }

  function PairsOf(c: seq<byte>, k: nat): (seq<Header>, seq<byte>) {
    if k == 0 then ([], c)
    else
      var (hs, rest) := PairsOf(c, k - 1);
      var (key, rest1) := FieldOf(rest);
      var (value, rest2) := FieldOf(rest1);
      (hs + [Header(key, value)], rest2)
  }

  /** Any content, well-formed or not, reads as some headers and a body. */
  function Decoded(c: seq<byte>): (seq<Header>, seq<byte>, seq<byte>) {
    var (n, rest) := IntOf(c);
    var (hs, rest1) := PairsOf(rest, n);
    var (body, rest2) := FieldOf(rest1);
    (hs, body, rest2)
  }

  method ReadField(buf: Buffer) returns (data: seq<byte>)
    requires buf.Valid()
    modifies buf`readerIndex
    ensures buf.Valid() && (data, buf.Content()) == FieldOf(old(buf.Content()))
  {
    var n := buf.ReadInt();
    data := buf.ReadBytes(n);
  }

  /** ReadCachedValueTo: the headers in the order in which they are set, and the body. */
  method ReadCachedValueTo(buf: Buffer) returns (headers: seq<Header>, body: seq<byte>)
    requires buf.Valid()
    modifies buf`readerIndex
    ensures buf.Valid() && (headers, body, buf.Content()) == Decoded(old(buf.Content()))
  {
    headers := [];
    var n := buf.ReadInt();
    ghost var rest := buf.Content();
    var i := 0;
    while i < n
      invariant 0 <= i <= n && buf.Valid()
      invariant (headers, buf.Content()) == PairsOf(rest, i)
    {
      var key := ReadField(buf);
      var value := ReadField(buf);
      headers := headers + [Header(key, value)];
      i := i + 1;
    }
    body := ReadField(buf);
  }

  /** The layout, byte by byte: the number of headers, then key and value of each, then the body, every one of them
      behind its length. */
  lemma EncodedLayout()
    ensures Encoded([Header([0x61], [0x62, 0x63])], [0x64])
         == [0, 0, 0, 1] + ([0, 0, 0, 1, 0x61] + [0, 0, 0, 2, 0x62, 0x63]) + [0, 0, 0, 1, 0x64]
  {
    var h := Header([0x61], [0x62, 0x63]);
    assert Pairs([h]) == Pairs([]) + (Field(h.key) + Field(h.value)) by { assert [h][..0] == []; }
    assert Field(h.key) == [0, 0, 0, 1, 0x61] && Field(h.value) == [0, 0, 0, 2, 0x62, 0x63];
    assert Field([0x64]) == [0, 0, 0, 1, 0x64];
  }

  // ---- Round trips

  lemma FieldRoundTrip(x: seq<byte>, tail: seq<byte>)
    requires |x| < WORD
    ensures FieldOf(Field(x) + tail) == (x, tail)
  {
    hide IntBytes, IntOf, BytesOf;
    assert Field(x) + tail == IntBytes(|x|) + (x + tail);
    FrontInt(|x|, x + tail);
    FrontBytes(x, tail);
  }

  lemma FrontBytes(x: seq<byte>, tail: seq<byte>)
    ensures BytesOf(x + tail, |x|) == (x, tail)
  {
    assert (x + tail)[..|x|] == x && (x + tail)[|x|..] == tail;
  }

  lemma {:induction false} PairsRoundTrip(hs: seq<Header>, tail: seq<byte>)
    requires forall i :: 0 <= i < |hs| ==> |hs[i].key| < WORD && |hs[i].value| < WORD
    ensures PairsOf(Pairs(hs) + tail, |hs|) == (hs, tail)
  {
    hide Field, FieldOf;
    if hs == [] {
      assert Pairs(hs) + tail == tail;
    } else {
      var n := |hs| - 1;
      var last := hs[n];
      var tail1 := Field(last.key) + (Field(last.value) + tail);
      assert Pairs(hs) + tail == Pairs(hs[..n]) + tail1;
      PairsRoundTrip(hs[..n], tail1);
      FieldRoundTrip(last.key, Field(last.value) + tail);
      FieldRoundTrip(last.value, tail);
      assert hs[..n] + [last] == hs;
    }
  }

  predicate Fits(hs: seq<Header>, body: seq<byte>) {
    && |hs| < WORD && |body| < WORD
    && forall i :: 0 <= i < |hs| ==> |hs[i].key| < WORD && |hs[i].value| < WORD
  }

  lemma FieldOfFits(c: seq<byte>)
    ensures |FieldOf(c).0| < WORD
  {
  }

  lemma {:induction false} PairsOfFit(c: seq<byte>, k: nat)
    ensures var hs := PairsOf(c, k).0;
      |hs| == k && forall i :: 0 <= i < k ==> |hs[i].key| < WORD && |hs[i].value| < WORD
  {
    hide FieldOf;
    if k > 0 {
      PairsOfFit(c, k - 1);
      var rest := PairsOf(c, k - 1).1;
      FieldOfFits(rest);
      FieldOfFits(FieldOf(rest).1);
    }
  }

  /** Whatever is read fits. */
  lemma DecodedFits(c: seq<byte>)
    ensures Fits(Decoded(c).0, Decoded(c).1)
  {
    hide FieldOf;
    var (n, rest) := IntOf(c);
    PairsOfFit(rest, n);
    FieldOfFits(PairsOf(rest, n).1);
  }

  /** A response comes back from the cache, header by header and with its body, exactly when the number of headers
      and all sizes are below 2^32; and then nothing is left to read. */
  lemma CacheRoundTrip(hs: seq<Header>, body: seq<byte>)
    ensures Decoded(Encoded(hs, body)) == (hs, body, []) <==> Fits(hs, body)
  {
    var c := Encoded(hs, body);
    if Fits(hs, body) {
      var tail := Field(body) + [];
      assert tail == Field(body);
      FrontInt(|hs|, Pairs(hs) + tail);
      assert c == IntBytes(|hs|) + (Pairs(hs) + tail);
      PairsRoundTrip(hs, tail);
      FieldRoundTrip(body, []);
    }
    hide Encoded;
    DecodedFits(c);
  }

  lemma FrontInt(n: nat, rest: seq<byte>)
    requires n < WORD
    ensures IntOf(IntBytes(n) + rest) == (n, rest)
  {
    hide IntBytes, BytesInt;
    IntRoundTrip(n);
    var c := IntBytes(n) + rest;
    assert c[..4] == IntBytes(n) && c[4..] == rest;
  }

  /** Reading moves the buffer's index: a second reader of the same buffer gets no header and no body of what the first
      one got, and so gets the response exactly when it is empty. */
  lemma SecondReadIsEmpty(hs: seq<Header>, body: seq<byte>)
    ensures var left := Decoded(Encoded(hs, body)).2;
            && (Fits(hs, body) ==> Decoded(left) == ([], [], []))
            && ((Decoded(left).0, Decoded(left).1) == (hs, body) <==> hs == [] && body == [])
  {
    CacheRoundTrip(hs, body);
    DecodedFits(Decoded(Encoded(hs, body)).2);
    assert FieldOf([]) == ([], []);
    hide Encoded;
  }
}
