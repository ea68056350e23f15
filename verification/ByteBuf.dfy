/** The growing buffer of src/goetty/buf.go and the cached responses that src/filter/cache_utils.go keeps in it. */
module ByteBuf {
  import opened Bytes

  const MIN_SCALE: nat := 128

  const WORD: nat := 0x1_0000_0000

  // ---- Integers in four bytes, the most significant first

  function IntBytes(v: nat): (r: seq<byte>)
    ensures |r| == 4
  {
    [(v / 0x100_0000 % 256) as byte, (v / 0x1_0000 % 256) as byte, (v / 0x100 % 256) as byte, (v % 256) as byte]
  }

  function BytesInt(data: seq<byte>): (v: nat)
    requires |data| == 4
    ensures v < WORD
  {
    data[0] as nat * 0x100_0000 + data[1] as nat * 0x1_0000 + data[2] as nat * 0x100 + data[3] as nat
  }

  /** The number that bytes stand for to the base 256, the most significant first. */
  function BigEndian(data: seq<byte>): nat {
    if data == [] then 0 else BigEndian(data[..|data| - 1]) * 256 + data[|data| - 1]
  }

  lemma FourBytes(data: seq<byte>)
    requires |data| == 4
    ensures BigEndian(data) == BytesInt(data)
  {
    var a, b, c := data[..3], data[..2], data[..1];
    assert a[..2] == b && b[..1] == c && c[..0] == [];
    assert BigEndian(c) == c[0] && BigEndian(b) == BigEndian(c) * 256 + b[1];
    assert BigEndian(a) == BigEndian(b) * 256 + a[2];
  }

  lemma FourDigits(v: nat)
    ensures v % WORD
         == v / 0x100_0000 % 256 * 0x100_0000 + v / 0x1_0000 % 256 * 0x1_0000 + v / 0x100 % 256 * 0x100 + v % 256
  {
    var a, b, c, d := v / 0x100_0000, v / 0x1_0000, v / 0x100, v;
    assert a == b / 256 && b == c / 256 && c == d / 256;
    assert v % WORD == a % 256 * 0x100_0000 + b % 256 * 0x1_0000 + c % 256 * 0x100 + d % 256;
  }

  /** The four bytes are the lower 32 bits in big-endian order, and they come back. */
  lemma IntRoundTrip(v: nat)
    ensures BytesInt(IntBytes(v)) == BigEndian(IntBytes(v)) == v % WORD
  {
    hide BigEndian;
    FourBytes(IntBytes(v));
    FourDigits(v);
  }

  /** Where the loop of Expansion stops. */
  function Target(target: nat, step: nat, size: nat): (r: nat)
    requires step > 0
    ensures r > size && r >= target
    decreases if target > size then 0 else size + 1 - target
  {
    if target > size then target else Target(target + step, step, size)
  }

  class Buffer {
    var buf: array<byte>
    var readerIndex: nat
    var writerIndex: nat

    ghost predicate Valid()
      reads this
    {
      readerIndex <= writerIndex <= buf.Length
    }

    /** The bytes still to be read. */
    ghost function Content(): seq<byte>
      requires Valid()
      reads this, buf
    {
      buf[readerIndex..writerIndex]
    }

    constructor (capacity: nat)
      ensures Valid() && fresh(buf) && Content() == [] && readerIndex == 0
    {
      buf := new byte[capacity];
      readerIndex, writerIndex := 0, 0;
    }

    /** Makes room for `n` bytes. What is readable stays, and after a move it starts at index 0. */
    method Expansion(n: nat)
      requires Valid()
      modifies this
      ensures Valid() && buf.Length - writerIndex >= n && Content() == old(Content())
      ensures buf == old(buf) || (fresh(buf) && readerIndex == 0)
      ensures old(readerIndex) == 0 ==> readerIndex == 0 && writerIndex == old(writerIndex)
    {
      var free := buf.Length - writerIndex;
      if free < n {
        var current := buf.Length;
        var step := current / 2;
        if step < MIN_SCALE {
          step := MIN_SCALE;
        }
        var size := current + (n - free);
        var target := current;
        while true
          invariant target >= current && Target(target, step, size) == Target(current, step, size)
          decreases size + 1 - target
        {
          if target > size {
            break;
          }
          target := target + step;
        }
        var newBuf := new byte[target];
        var offset := writerIndex - readerIndex;
        forall i | 0 <= i < offset {
          newBuf[i] := buf[readerIndex + i];
        }
        readerIndex := 0;
        writerIndex := offset;
        buf := newBuf;
      }
    }

    method Write(p: seq<byte>)
      requires Valid()
      modifies this, buf
      ensures Valid() && Content() == old(Content()) + p
      ensures (buf == old(buf) || fresh(buf)) && (old(readerIndex) == 0 ==> readerIndex == 0)
    {
      Expansion(|p|);
      ghost var front := buf[..writerIndex];
      assert front[readerIndex..] == old(Content());
      forall i | 0 <= i < |p| {
        buf[writerIndex + i] := p[i];
      }
      writerIndex := writerIndex + |p|;
      assert buf[..writerIndex] == front + p;
    }

    method WriteInt(v: nat)
      requires Valid()
      modifies this, buf
      ensures Valid() && Content() == old(Content()) + IntBytes(v)
      ensures (buf == old(buf) || fresh(buf)) && (old(readerIndex) == 0 ==> readerIndex == 0)
    {
      Expansion(4);
      PutInt(v, writerIndex);
      writerIndex := writerIndex + 4;
    }

    /** Int2BytesTo at `at`. */
    method PutInt(v: nat, at: nat)
      requires at + 4 <= buf.Length
      modifies buf
      ensures buf[..] == old(buf[..at]) + IntBytes(v) + old(buf[at + 4..])
    {
      buf[at] := (v / 0x100_0000 % 256) as byte;
      buf[at + 1] := (v / 0x1_0000 % 256) as byte;
      buf[at + 2] := (v / 0x100 % 256) as byte;
      buf[at + 3] := (v % 256) as byte;
    }

    /** A buffer with less than an integer left reads as 0 and does not move. */
    method ReadInt() returns (v: nat)
      requires Valid()
      modifies this`readerIndex
      ensures Valid() && (v, Content()) == IntOf(old(Content()))
    {
      if writerIndex - readerIndex < 4 {
        return 0;
      }
      readerIndex := readerIndex + 4;
      v := BytesInt(buf[readerIndex - 4..readerIndex]);
      assert old(Content())[..4] == buf[readerIndex - 4..readerIndex];
    }

    /** `n` bytes, filled up with zeros when there are fewer. */
    method ReadBytes(n: nat) returns (data: seq<byte>)
      requires Valid()
      modifies this`readerIndex
      ensures Valid() && (data, Content()) == BytesOf(old(Content()), n)
    {
      var size := n;
      if n > writerIndex - readerIndex {
        size := writerIndex - readerIndex;
      }
      data := buf[readerIndex..readerIndex + size] + Zeros(n - size);
      readerIndex := readerIndex + size;
      assert n <= |old(Content())| ==> data == old(Content())[..n] && Content() == old(Content())[n..];
      assert n > |old(Content())| ==> data == old(Content()) + Zeros(n - |old(Content())|) && Content() == [];
    }
  }

  function Zeros(n: nat): seq<byte> {
    seq(n, _ => 0)
  }

  function IntOf(c: seq<byte>): (nat, seq<byte>) {
    if |c| < 4 then (0, c) else (BytesInt(c[..4]), c[4..])
  }

  function BytesOf(c: seq<byte>, n: nat): (seq<byte>, seq<byte>) {
    if n <= |c| then (c[..n], c[n..]) else (c + Zeros(n - |c|), [])
  }
}
