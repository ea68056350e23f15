/** Unescaping of JSON strings (src/json/escape.go): the decoder as a function of the text, the in-buffer
    loop that refines it, and its meaning on every escaping of every sequence of Unicode scalars. */
module JsonEscape {
  import opened Bytes

  const LOWER_U: byte := 0x75

  /** The value of a hexadecimal digit, or -1. */
  function H2I(c: byte): (h: int)
    ensures -1 <= h < 16
  {
    if 0x30 <= c <= 0x39 then c - 0x30
    else if 0x41 <= c <= 0x46 then c - 0x41 + 10
    else if 0x61 <= c <= 0x66 then c - 0x61 + 10
    else -1
  }

  function CombineSurrogates(high: int, low: int): int {
    0x10000 + (high - 0xD800) * 0x400 + (low - 0xDC00)
  }

  function DecodeSingle(s: seq<byte>): Option<nat> {
    if |s| < 6 then None
    else
      var h1, h2, h3, h4 := H2I(s[2]), H2I(s[3]), H2I(s[4]), H2I(s[5]);
      if h1 == -1 || h2 == -1 || h3 == -1 || h4 == -1 then None
      else Some(h1 * 0x1000 + h2 * 0x100 + h3 * 0x10 + h4)
  }

  predicate IsSurrogate(r: int) {
    0xD800 <= r <= 0xDFFF
  }

  /** One \uXXXX escape or surrogate pair at the head of `s`: the rune and how many bytes it took. As in the
      source, the second unit only has to be at least 0xDC00. */
  function DecodeUnicode(s: seq<byte>): Option<(nat, nat)> {
    match DecodeSingle(s)
    case None => None
    case Some(r) =>
      if r <= 0xFFFF && !IsSurrogate(r) then Some((r, 6))
      else
        match DecodeSingle(s[6..])
        case None => None
        case Some(r2) =>
          if r2 < 0xDC00 then None else Some((CombineSurrogates(r, r2), 12))
  }

  /** utf8.EncodeRune: the UTF-8 form (section 3 of RFC 3629), or that of U+FFFD for what is not a scalar. */
  function EncodeRune(r: nat): (bytes: seq<byte>)
    ensures 1 <= |bytes| <= 4
    ensures r < 0x10000 || r > 0x10FFFF ==> |bytes| <= 3
  {
    if r < 0x80 then [r]
    else if r < 0x800 then [0xC0 + r / 0x40, 0x80 + r % 0x40]
    else if r > 0x10FFFF || IsSurrogate(r) then [0xEF, 0xBF, 0xBD]
    else if r < 0x10000 then [0xE0 + r / 0x1000, 0x80 + r / 0x40 % 0x40, 0x80 + r % 0x40]
    else [0xF0 + r / 0x40000, 0x80 + r / 0x1000 % 0x40, 0x80 + r / 0x40 % 0x40, 0x80 + r % 0x40]
  }

  /** What the two-character escape \c stands for. */
  function ShortEscape(c: byte): Option<byte> {
    if c == QUOTE || c == BACKSLASH || c == 0x2F then Some(c)
    else if c == 0x62 then Some(0x08)
    else if c == 0x66 then Some(0x0C)
    else if c == 0x6E then Some(LF)
    else if c == 0x72 then Some(CR)
    else if c == 0x74 then Some(TAB)
    else None
  }

  /** The escape at the head of `s`: the bytes it stands for and how many bytes it took. */
  function DecodeEscape(s: seq<byte>): Option<(nat, seq<byte>)> {
    if |s| < 2 || s[0] != BACKSLASH then None
    else if ShortEscape(s[1]).Some? then Some((2, [ShortEscape(s[1]).value]))
    else if s[1] == LOWER_U then
      match DecodeUnicode(s)
      case None => None
      case Some((r, n)) => Some((n, EncodeRune(r)))
    else None
  }

  lemma DecodeEscapeShrinks(s: seq<byte>)
    requires DecodeEscape(s).Some?
    ensures var (n, bytes) := DecodeEscape(s).value; 2 <= n <= |s| && 1 <= |bytes| < n
  {
  }

  function Prepend(a: seq<byte>, o: Option<seq<byte>>): Option<seq<byte>> {
    match o
    case None => None
    case Some(t) => Some(a + t)
  }

  lemma PrependAssoc(a: seq<byte>, b: seq<byte>, o: Option<seq<byte>>)
    ensures Prepend(a, Prepend(b, o)) == Prepend(a + b, o)
  {
    if o.Some? { assert a + (b + o.value) == (a + b) + o.value; }
  }

  /** The unescaped text of `s`, or None when an escape in it is malformed. */
  function Unescaped(s: seq<byte>): Option<seq<byte>>
  {
    if s == [] then Some([])
    else if s[0] != BACKSLASH then Prepend([s[0]], Unescaped(s[1..]))
    else
      match DecodeEscape(s)
      case None => None
      case Some((n, bytes)) =>
        DecodeEscapeShrinks(s);
        Prepend(bytes, Unescaped(s[n..]))
  }

  /** A run without a backslash is copied. */
  lemma {:induction false} UnescapedPlainPrefix(a: seq<byte>, b: seq<byte>)
    requires !Has(a, BACKSLASH)
    ensures Unescaped(a + b) == Prepend(a, Unescaped(b))
  {
    if a == [] {
      assert a + b == b;
      if Unescaped(b).Some? { assert a + Unescaped(b).value == Unescaped(b).value; }
    } else {
      assert (a + b)[1..] == a[1..] + b;
      assert !Has(a[1..], BACKSLASH) by { assert forall k :: 0 <= k < |a| - 1 ==> a[1..][k] == a[k + 1]; }
      UnescapedPlainPrefix(a[1..], b);
      PrependAssoc([a[0]], a[1..], Unescaped(b));
      assert a == [a[0]] + a[1..];
    }
  }

  lemma UnescapedPlain(a: seq<byte>)
    requires !Has(a, BACKSLASH)
    ensures Unescaped(a) == Some(a)
  {
    UnescapedPlainPrefix(a, []);
    assert a + [] == a;
  }

  /** Unescaping never grows the text, and shortens it as soon as there is one escape. */
  lemma {:induction false} UnescapedShrinks(s: seq<byte>)
    requires Unescaped(s).Some?
    ensures |Unescaped(s).value| <= |s|
    ensures Has(s, BACKSLASH) ==> |Unescaped(s).value| < |s|
  {
    if s == [] {
    } else if s[0] != BACKSLASH {
      UnescapedShrinks(s[1..]);
      if Has(s, BACKSLASH) {
        var k :| 0 <= k < |s| && s[k] == BACKSLASH;
        assert s[1..][k - 1] == BACKSLASH;
      }
    } else {
      DecodeEscapeShrinks(s);
      UnescapedShrinks(s[DecodeEscape(s).value.0..]);
    }
  }

  /** bytes.IndexByte(s, '\\'). */
  method IndexBackslash(s: seq<byte>) returns (k: int)
    ensures k == -1 ==> !Has(s, BACKSLASH)
    ensures k != -1 ==> 0 <= k < |s| && s[k] == BACKSLASH && !Has(s[..k], BACKSLASH)
  {
    k := 0;
    while k < |s|
      invariant 0 <= k <= |s|
      invariant forall j :: 0 <= j < k ==> s[j] != BACKSLASH
    {
      if s[k] == BACKSLASH { return; }
      k := k + 1;
    }
    k := -1;
  }

  method CopyInto(dst: array<byte>, at: nat, src: seq<byte>)
    requires at + |src| <= dst.Length
    modifies dst
    ensures dst[at..at + |src|] == src
    ensures dst[..at] == old(dst[..at])
  {
    forall k | 0 <= k < |src| {
      dst[at + k] := src[k];
    }
  }

  /** Decodes the escape at the head of `s` into `out` from `at`; (-1, -1) reports a malformed escape. */
  method UnescapeToUTF8(s: seq<byte>, out: array<byte>, at: nat) returns (inLen: int, outLen: int)
    requires at + |s| <= out.Length
    modifies out
    ensures DecodeEscape(s).None? ==> inLen == -1 && outLen == -1 && out[..] == old(out[..])
    ensures DecodeEscape(s).Some? ==>
              inLen == DecodeEscape(s).value.0 && outLen == |DecodeEscape(s).value.1|
              && 2 <= inLen <= |s| && outLen < inLen
              && out[at..at + outLen] == DecodeEscape(s).value.1 && out[..at] == old(out[..at])
  {
    if |s| < 2 || s[0] != BACKSLASH {
      return -1, -1;
    }
    var e := ShortEscape(s[1]);
    if e.Some? {
      out[at] := e.value;
      return 2, 1;
    }
    if s[1] == LOWER_U {
      var d := DecodeUnicode(s);
      if d.None? {
        return -1, -1;
      }
      var bytes := EncodeRune(d.value.0);
      DecodeEscapeShrinks(s);
      CopyInto(out, at, bytes);
      return d.value.1, |bytes|;
    }
    return -1, -1;
  }

  /** Unescape: returns the input itself when it holds no escape, else builds the text in `scratch`, or in a
      buffer of the input's length when `scratch` is too small. */
  method Unescape(input: seq<byte>, scratch: array<byte>) returns (r: Option<seq<byte>>)
    modifies scratch
    ensures r == Unescaped(input)
    ensures !Has(input, BACKSLASH) ==> r == Some(input) && scratch[..] == old(scratch[..])
  {
    var first := IndexBackslash(input);
    if first == -1 {
      UnescapedPlain(input);
      return Some(input);
    }
    if scratch.Length < |input| {
      var out := new byte[|input|](_ => 0);
      r := UnescapeInto(input, first, out);
    } else {
      r := UnescapeInto(input, first, scratch);
    }
  }

  method UnescapeInto(input: seq<byte>, first: nat, out: array<byte>) returns (r: Option<seq<byte>>)
    requires first < |input| <= out.Length && input[first] == BACKSLASH && !Has(input[..first], BACKSLASH)
    modifies out
    ensures r == Unescaped(input)
  {
    CopyInto(out, 0, input[..first]);
    var s := input[first..];
    var at: nat := first;
    UnescapedPlainPrefix(input[..first], s);
    assert input == input[..first] + s;
    ghost var built := out[..at];
    while |s| > 0
      invariant at + |s| <= |input|
      invariant s == [] || s[0] == BACKSLASH
      invariant built == out[..at]
      invariant Unescaped(input) == Prepend(built, Unescaped(s))
      decreases |s|
    {
      var ok, rest, at', chunk := UnescapeNext(s, out, at);
      if !ok {
        return None;
      }
      PrependAssoc(built, chunk, Unescaped(rest));
      built := built + chunk;
      s, at := rest, at';
    }
    assert built + [] == built;
    r := Some(out[..at]);
  }

  lemma BrokenEscape(s: seq<byte>)
    requires s != [] && s[0] == BACKSLASH && DecodeEscape(s).None?
    ensures Unescaped(s).None?
  {
    hide DecodeEscape;
  }

  /** One pass of the loop of Unescape: the escape at the head of `s`, then the plain run behind it; together
      they unescape to `chunk`. */
  method UnescapeNext(s: seq<byte>, out: array<byte>, at: nat)
    returns (ok: bool, rest: seq<byte>, at': nat, ghost chunk: seq<byte>)
    requires |s| > 0 && s[0] == BACKSLASH && at + |s| <= out.Length
    modifies out
    ensures !ok ==> Unescaped(s).None?
    ensures ok ==> |rest| < |s| && at' + |rest| <= at + |s| && (rest == [] || rest[0] == BACKSLASH)
    ensures ok ==> at <= at' && out[..at'] == old(out[..at]) + chunk
    ensures ok ==> Unescaped(s) == Prepend(chunk, Unescaped(rest))
  {
    hide DecodeUnicode, EncodeRune, DecodeEscape, Unescaped;
    var inLen, outLen := UnescapeToUTF8(s, out, at);
    if inLen == -1 {
      BrokenEscape(s);
      return false, [], at, [];
    }
    chunk := out[at..at + outLen];
    assert out[..at + outLen] == out[..at] + chunk;
    var run, rest' := CopyRun(s[inLen..], out, at + outLen);
    UnescapeStep(s, run);
    return true, rest', at + outLen + |run|, chunk + run;
  }

  /** Copies everything up to the next backslash. */
  method CopyRun(s: seq<byte>, out: array<byte>, at: nat) returns (run: seq<byte>, rest: seq<byte>)
    requires at + |s| <= out.Length
    modifies out
    ensures run <= s && rest == s[|run|..] && !Has(run, BACKSLASH) && (rest == [] || rest[0] == BACKSLASH)
    ensures out[..at + |run|] == old(out[..at]) + run
  {
    var next := IndexBackslash(s);
    run := if next == -1 then s else s[..next];
    rest := s[|run|..];
    CopyInto(out, at, run);
    assert out[..at + |run|] == out[..at] + out[at..at + |run|];
  }

  lemma UnescapeStep(s: seq<byte>, run: seq<byte>)
    requires DecodeEscape(s).Some? && !Has(run, BACKSLASH)
    requires run <= s[DecodeEscape(s).value.0..]
    ensures var (n, bytes) := DecodeEscape(s).value;
            Unescaped(s) == Prepend(bytes + run, Unescaped(s[n..][|run|..]))
  {
    var (n, bytes) := DecodeEscape(s).value;
    var rest := s[n..][|run|..];
    assert s[n..] == run + rest;
    UnescapedPlainPrefix(run, rest);
    PrependAssoc(bytes, run, Unescaped(rest));
  }

  // ---- The meaning of unescaping: section 7 of RFC 7159 against section 3 of RFC 3629.

  predicate IsScalar(cp: nat) {
    cp <= 0x10FFFF && !IsSurrogate(cp)
  }

  /** One way to write one Unicode scalar inside a JSON string. */
  datatype Piece =
    | Verbatim(cp: nat)
    | Short(letter: byte)
    | Unit(cp: nat, digits: seq<byte>)
    | Pair(cp: nat, high: seq<byte>, low: seq<byte>)

  // The sixteen digits in both cases, and the escapes of one letter, as section 7 lists them.
  const UPPER_DIGITS: seq<byte> :=
    [0x30, 0x31, 0x32, 0x33, 0x34, 0x35, 0x36, 0x37, 0x38, 0x39, 0x41, 0x42, 0x43, 0x44, 0x45, 0x46]
  const LOWER_DIGITS: seq<byte> :=
    [0x30, 0x31, 0x32, 0x33, 0x34, 0x35, 0x36, 0x37, 0x38, 0x39, 0x61, 0x62, 0x63, 0x64, 0x65, 0x66]
  const SHORT_ESCAPES: map<byte, byte> :=
    map[0x22 := 0x22, 0x5C := 0x5C, 0x2F := 0x2F, 0x62 := 0x08, 0x66 := 0x0C, 0x6E := 0x0A, 0x72 := 0x0D, 0x74 := 0x09]

  predicate IsDigitOf(c: byte, v: int) {
    0 <= v < 16 && (c == UPPER_DIGITS[v] || c == LOWER_DIGITS[v])
  }

  /** h2I knows exactly the sixteen digits. */
  lemma HexDigits(c: byte, v: int)
    ensures IsDigitOf(c, v) <==> H2I(c) == v && v >= 0
  {
  }

  /** The two-character escapes are exactly those of the list. */
  lemma ShortEscapes(c: byte)
    ensures ShortEscape(c) == if c in SHORT_ESCAPES then Some(SHORT_ESCAPES[c]) else None
  {
  }

  predicate HexOf(digits: seq<byte>, unit: nat) {
    && |digits| == 4
    && IsDigitOf(digits[0], unit / 0x1000) && IsDigitOf(digits[1], unit / 0x100 % 0x10)
    && IsDigitOf(digits[2], unit / 0x10 % 0x10) && IsDigitOf(digits[3], unit % 0x10)
  }

  ghost predicate ValidPiece(p: Piece) {
    match p
    case Verbatim(cp) => IsScalar(cp) && cp != BACKSLASH
    case Short(c) => c in SHORT_ESCAPES
    case Unit(cp, digits) => IsScalar(cp) && HexOf(digits, cp)
    case Pair(cp, high, low) =>
      0x10000 <= cp <= 0x10FFFF
      && HexOf(high, 0xD800 + (cp - 0x10000) / 0x400) && HexOf(low, 0xDC00 + (cp - 0x10000) % 0x400)
  }

  function ScalarOf(p: Piece): nat {
    match p
    case Verbatim(cp) => cp
    case Short(c) => if c in SHORT_ESCAPES then SHORT_ESCAPES[c] else 0
    case Unit(cp, _) => cp
    case Pair(cp, _, _) => cp
  }

  function PieceText(p: Piece): seq<byte> {
    match p
    case Verbatim(cp) => EncodeRune(cp)
    case Short(c) => [BACKSLASH, c]
    case Unit(_, digits) => [BACKSLASH, LOWER_U] + digits
    case Pair(_, high, low) => ([BACKSLASH, LOWER_U] + high) + ([BACKSLASH, LOWER_U] + low)
  }

  function PiecesText(ps: seq<Piece>): seq<byte> {
    if ps == [] then [] else PieceText(ps[0]) + PiecesText(ps[1..])
  }

  function Utf8(cps: seq<nat>): seq<byte> {
    if cps == [] then [] else EncodeRune(cps[0]) + Utf8(cps[1..])
  }

  function ScalarsOf(ps: seq<Piece>): (cps: seq<nat>)
    ensures |cps| == |ps|
  {
    if ps == [] then [] else [ScalarOf(ps[0])] + ScalarsOf(ps[1..])
  }

  lemma Nibbles(u: nat)
    ensures u == u / 0x1000 * 0x1000 + u / 0x100 % 0x10 * 0x100 + u / 0x10 % 0x10 * 0x10 + u % 0x10
  {
    assert u / 0x100 == u / 0x1000 * 0x10 + u / 0x100 % 0x10;
  }

  lemma DigitsDecode(s: seq<byte>, h1: nat, h2: nat, h3: nat, h4: nat)
    requires |s| >= 6 && H2I(s[2]) == h1 && H2I(s[3]) == h2 && H2I(s[4]) == h3 && H2I(s[5]) == h4
    ensures DecodeSingle(s) == Some(h1 * 0x1000 + h2 * 0x100 + h3 * 0x10 + h4)
  {
    hide H2I;
  }

  lemma HexPrefix(digits: seq<byte>, unit: nat, rest: seq<byte>)
    requires HexOf(digits, unit)
    ensures DecodeSingle(([BACKSLASH, LOWER_U] + digits) + rest) == Some(unit)
  {
    hide IsDigitOf, H2I, DecodeSingle;
    var s := ([BACKSLASH, LOWER_U] + digits) + rest;
    var h1, h2, h3, h4 := unit / 0x1000, unit / 0x100 % 0x10, unit / 0x10 % 0x10, unit % 0x10;
    HexDigits(digits[0], h1);
    HexDigits(digits[1], h2);
    HexDigits(digits[2], h3);
    HexDigits(digits[3], h4);
    assert s[2] == digits[0] && s[3] == digits[1] && s[4] == digits[2] && s[5] == digits[3];
    hide HexOf;
    DigitsDecode(s, h1, h2, h3, h4);
    Nibbles(unit);
  }

  lemma PairUnits(high: seq<byte>, hi: nat, low: seq<byte>, lo: nat, rest: seq<byte>)
    requires HexOf(high, hi) && HexOf(low, lo) && 0xD800 <= hi <= 0xDBFF && 0xDC00 <= lo <= 0xDFFF
    ensures DecodeUnicode(([BACKSLASH, LOWER_U] + high) + ([BACKSLASH, LOWER_U] + low) + rest)
         == Some((CombineSurrogates(hi, lo), 12))
  {
    var h, l := [BACKSLASH, LOWER_U] + high, [BACKSLASH, LOWER_U] + low;
    var s := (h + l) + rest;
    assert s == h + (l + rest);
    HexPrefix(high, hi, l + rest);
    HexPrefix(low, lo, rest);
    assert s[6..] == l + rest;
  }

  lemma PairDecodes(cp: nat, high: seq<byte>, low: seq<byte>, rest: seq<byte>)
    requires ValidPiece(Pair(cp, high, low))
    ensures DecodeUnicode(PieceText(Pair(cp, high, low)) + rest) == Some((cp, 12))
  {
    hide HexOf, DecodeUnicode;
    PairUnits(high, 0xD800 + (cp - 0x10000) / 0x400, low, 0xDC00 + (cp - 0x10000) % 0x400, rest);
  }

  lemma PieceDecodes(p: Piece, rest: seq<byte>)
    requires ValidPiece(p) && !p.Verbatim?
    ensures DecodeEscape(PieceText(p) + rest) == Some((|PieceText(p)|, EncodeRune(ScalarOf(p))))
  {
    match p
    case Short(c) =>
      var s := PieceText(p) + rest;
      assert s[0] == BACKSLASH && s[1] == c;
      ShortEscapes(c);
    case Unit(cp, digits) => UnitDecodes(cp, digits, rest);
    case Pair(cp, high, low) => SurrogatesDecode(cp, high, low, rest);
  }

  lemma UnitDecodes(cp: nat, digits: seq<byte>, rest: seq<byte>)
    requires ValidPiece(Unit(cp, digits))
    ensures DecodeEscape(PieceText(Unit(cp, digits)) + rest) == Some((6, EncodeRune(cp)))
  {
    HexPrefix(digits, cp, rest);
    var s := PieceText(Unit(cp, digits)) + rest;
    assert DecodeUnicode(s) == Some((cp, 6));
    hide *;
    PieceStarts(Unit(cp, digits), rest);
    DecodesUnicode(s);
  }

  lemma SurrogatesDecode(cp: nat, high: seq<byte>, low: seq<byte>, rest: seq<byte>)
    requires ValidPiece(Pair(cp, high, low))
    ensures DecodeEscape(PieceText(Pair(cp, high, low)) + rest) == Some((12, EncodeRune(cp)))
  {
    hide *;
    PairDecodes(cp, high, low, rest);
    PieceStarts(Pair(cp, high, low), rest);
    DecodesUnicode(PieceText(Pair(cp, high, low)) + rest);
  }

  lemma PieceStarts(p: Piece, rest: seq<byte>)
    requires p.Unit? || p.Pair?
    ensures var s := PieceText(p) + rest; |s| >= 2 && s[0] == BACKSLASH && s[1] == LOWER_U
  {
  }

  lemma DecodesUnicode(s: seq<byte>)
    requires |s| >= 2 && s[0] == BACKSLASH && s[1] == LOWER_U && DecodeUnicode(s).Some?
    ensures DecodeEscape(s) == Some((DecodeUnicode(s).value.1, EncodeRune(DecodeUnicode(s).value.0)))
  {
    hide DecodeUnicode, EncodeRune;
  }

  /** However each scalar is written, unescaping the string gives the UTF-8 encoding of the scalars, and a UTF-8
      reader gets the scalars back from it. */
  lemma UnescapeDecodesScalars(ps: seq<Piece>)
    requires forall k :: 0 <= k < |ps| ==> ValidPiece(ps[k])
    ensures Unescaped(PiecesText(ps)) == Some(Utf8(ScalarsOf(ps)))
    ensures ReadAll(Utf8(ScalarsOf(ps))) == Some(ScalarsOf(ps))
  {
    PiecesDecode(ps);
    PiecesAreScalars(ps);
    Utf8IsRead(ScalarsOf(ps));
  }

  lemma {:induction false} PiecesAreScalars(ps: seq<Piece>)
    requires forall k :: 0 <= k < |ps| ==> ValidPiece(ps[k])
    ensures forall k :: 0 <= k < |ps| ==> IsScalar(ScalarsOf(ps)[k])
  {
    hide HexOf;
    if ps != [] { PiecesAreScalars(ps[1..]); }
  }

  lemma {:induction false} PiecesDecode(ps: seq<Piece>)
    requires forall k :: 0 <= k < |ps| ==> ValidPiece(ps[k])
    ensures Unescaped(PiecesText(ps)) == Some(Utf8(ScalarsOf(ps)))
  {
    if ps != [] {
      PiecesDecode(ps[1..]);
      var head, tail := PieceText(ps[0]), PiecesText(ps[1..]);
      assert ScalarsOf(ps)[1..] == ScalarsOf(ps[1..]);
      if ps[0].Verbatim? {
        UnescapedPlainPrefix(head, tail);
      } else {
        PieceDecodes(ps[0], tail);
        assert (head + tail)[|head|..] == tail;
      }
    }
  }

  // ---- UTF-8 as section 4 of RFC 3629 reads it

  predicate IsTail(b: byte) {
    0x80 <= b <= 0xBF
  }

  /** The scalar at the head of `s`, in its shortest form, and the number of its bytes. */
  function ReadRune(s: seq<byte>): Option<(nat, nat)> {
    if s == [] then None
    else
      var a: int := s[0];
      if a <= 0x7F then Some((a, 1))
      else if 0xC2 <= a <= 0xDF && |s| >= 2 && IsTail(s[1]) then Some(((a - 0xC0) * 0x40 + TailBits(s[1]), 2))
      else if |s| >= 3 && Lead3(s[0], s[1]) && IsTail(s[2]) then
        Some(((a - 0xE0) * 0x1000 + TailBits(s[1]) * 0x40 + TailBits(s[2]), 3))
      else if |s| >= 4 && Lead4(s[0], s[1]) && IsTail(s[2]) && IsTail(s[3]) then
        Some(((a - 0xF0) * 0x4_0000 + TailBits(s[1]) * 0x1000 + TailBits(s[2]) * 0x40 + TailBits(s[3]), 4))
      else None
  }

  function TailBits(b: int): nat
    requires b >= 0x80
  {
    b - 0x80
  }

  /** The first two bytes of three: no overlong form, no surrogate. */
  predicate Lead3(a: byte, b: byte) {
    || (a == 0xE0 && 0xA0 <= b <= 0xBF)
    || (0xE1 <= a <= 0xEC && IsTail(b))
    || (a == 0xED && 0x80 <= b <= 0x9F)
    || (0xEE <= a <= 0xEF && IsTail(b))
  }

  /** The first two bytes of four: no overlong form, nothing above U+10FFFF. */
  predicate Lead4(a: byte, b: byte) {
    || (a == 0xF0 && 0x90 <= b <= 0xBF)
    || (0xF1 <= a <= 0xF3 && IsTail(b))
    || (a == 0xF4 && 0x80 <= b <= 0x8F)
  }

  function ReadAll(s: seq<byte>): Option<seq<nat>>
    decreases |s|
  {
    if s == [] then Some([])
    else
      match ReadRune(s)
      case None => None
      case Some((r, n)) =>
        if n > |s| || n == 0 then None
        else match ReadAll(s[n..]) case None => None case Some(rs) => Some([r] + rs)
  }

  /** Every scalar is read back from its encoding; what is no scalar is encoded as U+FFFD. */
  lemma RuneIsRead(r: nat, rest: seq<byte>)
    ensures ReadRune(EncodeRune(r) + rest) == Some((if IsScalar(r) then r else 0xFFFD, |EncodeRune(r)|))
  {
    if r < 0x800 {
      assert r == r / 0x40 * 0x40 + r % 0x40;
    } else if r <= 0x10FFFF {
      assert r == r / 0x40 * 0x40 + r % 0x40;
      assert r / 0x40 == r / 0x1000 * 0x40 + r / 0x40 % 0x40;
      assert r / 0x1000 == r / 0x4_0000 * 0x40 + r / 0x1000 % 0x40;
    }
  }

  lemma ReadsOne(head: seq<byte>, tail: seq<byte>, r: nat)
    requires |head| > 0 && ReadRune(head + tail) == Some((r, |head|)) && ReadAll(tail).Some?
    ensures ReadAll(head + tail) == Some([r] + ReadAll(tail).value)
  {
    hide ReadRune;
    assert (head + tail)[|head|..] == tail;
  }

  lemma {:induction false} Utf8IsRead(cps: seq<nat>)
    requires forall k :: 0 <= k < |cps| ==> IsScalar(cps[k])
    ensures ReadAll(Utf8(cps)) == Some(cps)
  {
    hide EncodeRune, ReadRune, ReadAll;
    if cps == [] {
      assert ReadAll([]) == Some([]) by { ReadsNothing(); }
    } else {
      Utf8IsRead(cps[1..]);
      RuneIsRead(cps[0], Utf8(cps[1..]));
      ReadsOne(EncodeRune(cps[0]), Utf8(cps[1..]), cps[0]);
      assert cps == [cps[0]] + cps[1..];
    }
  }

  lemma ReadsNothing()
    ensures ReadAll([]) == Some([])
  {
  }

  // ---- Surrogates that do not pair

  /** A \u escape of a surrogate is malformed unless four digits of at least DC00 have the place of the second half
      behind it; the source takes any two characters for the backslash and the u in front of them. */
  lemma PairsOrFails(high: seq<byte>, hi: nat, rest: seq<byte>)
    requires HexOf(high, hi) && IsSurrogate(hi)
    ensures var s := ([BACKSLASH, LOWER_U] + high) + rest;
            Unescaped(s).Some? ==>
              |rest| >= 6 && (exists lo :: 0xDC00 <= lo <= 0xFFFF && HexOf(rest[2..6], lo)
                                && DecodeUnicode(s) == Some((CombineSurrogates(hi, lo), 12)))
  {
    HexPrefix(high, hi, rest);
    var s := ([BACKSLASH, LOWER_U] + high) + rest;
    assert s[6..] == rest;
    if DecodeSingle(rest).Some? && DecodeSingle(rest).value >= 0xDC00 {
      var lo := DecodeSingle(rest).value;
      HexValue(rest);
      assert HexOf(rest[2..6], lo);
      assert DecodeUnicode(s) == Some((CombineSurrogates(hi, lo), 12));
    } else {
      assert DecodeUnicode(s).None?;
      assert DecodeEscape(s).None?;
      BrokenEscape(s);
    }
  }

  lemma FromNibbles(a: int, b: int, c: int, d: int)
    requires 0 <= a < 16 && 0 <= b < 16 && 0 <= c < 16 && 0 <= d < 16
    ensures var v := a * 0x1000 + b * 0x100 + c * 0x10 + d;
            v / 0x1000 == a && v / 0x100 % 0x10 == b && v / 0x10 % 0x10 == c && v % 0x10 == d && v <= 0xFFFF
  {
    var v := a * 0x1000 + b * 0x100 + c * 0x10 + d;
    assert v / 0x100 == a * 0x10 + b;
    assert v / 0x10 == (a * 0x10 + b) * 0x10 + c;
  }

  lemma DigitValue(c: byte) returns (h: nat)
    requires H2I(c) >= 0
    ensures h < 16 && H2I(c) == h && IsDigitOf(c, h)
  {
    h := H2I(c);
    HexDigits(c, h);
  }

  lemma HexValue(s: seq<byte>)
    requires DecodeSingle(s).Some?
    ensures |s| >= 6 && HexOf(s[2..6], DecodeSingle(s).value) && DecodeSingle(s).value <= 0xFFFF
  {
    hide H2I, IsDigitOf;
    var h1 := DigitValue(s[2]);
    var h2 := DigitValue(s[3]);
    var h3 := DigitValue(s[4]);
    var h4 := DigitValue(s[5]);
    DigitsDecode(s, h1, h2, h3, h4);
    FromNibbles(h1, h2, h3, h4);
  }

  /** A backslash before any other character than u and those of the list is malformed, and so is one at the end. */
  lemma OtherEscapesFail(s: seq<byte>)
    requires s != [] && s[0] == BACKSLASH && (|s| == 1 || (s[1] !in SHORT_ESCAPES && s[1] != LOWER_U))
    ensures Unescaped(s).None?
  {
    if |s| > 1 { ShortEscapes(s[1]); }
    BrokenEscape(s);
  }

  /** A \u escape that four digits do not follow is malformed. */
  lemma UnitNeedsDigits(s: seq<byte>)
    requires |s| >= 2 && s[0] == BACKSLASH && s[1] == LOWER_U
    requires |s| < 6 || forall unit :: 0 <= unit <= 0xFFFF ==> !HexOf(s[2..6], unit)
    ensures Unescaped(s).None?
  {
    hide HexOf;
    if DecodeSingle(s).Some? {
      HexValue(s);
    } else {
      assert DecodeUnicode(s).None?;
    }
    BrokenEscape(s);
  }
}
