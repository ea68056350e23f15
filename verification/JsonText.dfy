/** The grammar of RFC 7159 as syntax trees that keep every byte: a text is well-formed when it is the text of
    a valid tree. Names and strings are kept as written, escapes included. */
module JsonText {
  import opened Bytes
  import opened JsonEscape

  datatype Json =
    | Scalar(token: seq<byte>)
    | Str(raw: seq<byte>)
    | Arr(blank: seq<byte>, elems: Elems)
    | Obj(blank: seq<byte>, members: Members)

  datatype Elems =
    | NoElem
    | Elem(lead: seq<byte>, value: Json, trail: seq<byte>, tail: Elems)

  datatype Members =
    | NoMember
    | Member(lead: seq<byte>, name: seq<byte>, mid: seq<byte>, post: seq<byte>, value: Json, trail: seq<byte>,
             tail: Members)

  /** A whole text: one value with white space around it. */
  datatype Document = Document(lead: seq<byte>, root: Json, trail: seq<byte>)

  // ---- Text of a tree

  function Quoted(raw: seq<byte>): seq<byte> {
    [QUOTE] + raw + [QUOTE]
  }

  function Text(v: Json): seq<byte> {
    match v
    case Scalar(token) => token
    case Str(raw) => Quoted(raw)
    case Arr(blank, elems) => [LBRACKET] + blank + ElemsText(elems) + [RBRACKET]
    case Obj(blank, members) => [LBRACE] + blank + MembersText(members) + [RBRACE]
  }

  function ElemsText(es: Elems): seq<byte> {
    match es
    case NoElem => []
    case Elem(lead, v, trail, tail) => lead + Text(v) + trail + Separator(tail.NoElem?) + ElemsText(tail)
  }

  function MembersText(ms: Members): seq<byte> {
    match ms
    case NoMember => []
    case Member(lead, name, mid, post, v, trail, tail) =>
      lead + Quoted(name) + mid + [COLON] + post + Text(v) + trail + Separator(tail.NoMember?) + MembersText(tail)
  }

  function Separator(last: bool): seq<byte> {
    if last then [] else [COMMA]
  }

  function DocumentText(d: Document): seq<byte> {
    d.lead + Text(d.root) + d.trail
  }

  // ---- Validity

  predicate IsBlank(s: seq<byte>) {
    forall k :: 0 <= k < |s| ==> IsWs(s[k])
  }

  predicate IsDigit(c: byte) {
    0x30 <= c <= 0x39
  }

  /** How many digits `s` starts with. */
  function Digits(s: seq<byte>): (n: nat)
    ensures n <= |s|
    ensures forall k :: 0 <= k < n ==> IsDigit(s[k])
  {
    if s == [] || !IsDigit(s[0]) then 0 else 1 + Digits(s[1..])
  }

  /** number = [ minus ] int [ frac ] [ exp ] (section 6). */
  predicate IsNumber(s: seq<byte>) {
    var u := if s != [] && s[0] == 0x2D then s[1..] else s;
    var n := Digits(u);
    n > 0 && (u[0] == 0x30 ==> n == 1) && IsFraction(u[n..])
  }

  predicate IsFraction(u: seq<byte>) {
    if u != [] && u[0] == 0x2E then
      var n := Digits(u[1..]);
      n > 0 && IsExponent(u[1 + n..])
    else IsExponent(u)
  }

  predicate IsExponent(u: seq<byte>) {
    u == [] ||
    ((u[0] == 0x65 || u[0] == 0x45) &&
     var w := if |u| > 1 && (u[1] == 0x2B || u[1] == 0x2D) then u[2..] else u[1..];
     w != [] && Digits(w) == |w|)
  }

  const TRUE: seq<byte> := [0x74, 0x72, 0x75, 0x65]
  const FALSE: seq<byte> := [0x66, 0x61, 0x6C, 0x73, 0x65]
  const NULL: seq<byte> := [0x6E, 0x75, 0x6C, 0x6C]

  predicate IsScalarToken(s: seq<byte>) {
    s == TRUE || s == FALSE || s == NULL || IsNumber(s)
  }

  /** The inside of a string (section 7): escapes, and bytes other than quote and backslash. Control bytes are
      let in here, as the scanner lets them in; NoControls says where they are absent. */
  predicate IsRaw(s: seq<byte>) {
    if s == [] then true
    else if s[0] != BACKSLASH then s[0] != QUOTE && IsRaw(s[1..])
    else if |s| < 2 then false
    else if s[1] == LOWER_U then
      |s| >= 6 && (forall k :: 2 <= k < 6 ==> H2I(s[k]) >= 0) && IsRaw(s[6..])
    else ShortEscape(s[1]).Some? && IsRaw(s[2..])
  }

  predicate Valid(v: Json) {
    match v
    case Scalar(token) => IsScalarToken(token)
    case Str(raw) => IsRaw(raw)
    case Arr(blank, elems) => IsBlank(blank) && ValidElems(elems)
    case Obj(blank, members) => IsBlank(blank) && ValidMembers(members)
  }

  predicate ValidElems(es: Elems) {
    match es
    case NoElem => true
    case Elem(lead, v, trail, tail) => IsBlank(lead) && Valid(v) && IsBlank(trail) && ValidElems(tail)
  }

  predicate ValidMembers(ms: Members) {
    match ms
    case NoMember => true
    case Member(lead, name, mid, post, v, trail, tail) =>
      IsBlank(lead) && IsRaw(name) && IsBlank(mid) && IsBlank(post) && Valid(v) && IsBlank(trail) && ValidMembers(tail)
  }

  predicate ValidDocument(d: Document) {
    IsBlank(d.lead) && Valid(d.root) && IsBlank(d.trail)
  }

  // ---- Section 7 also bars raw control characters from strings.

  predicate NoControl(s: seq<byte>) {
    forall k :: 0 <= k < |s| ==> s[k] >= 0x20
  }

  predicate Strict(v: Json) {
    match v
    case Scalar(token) => true
    case Str(raw) => NoControl(raw)
    case Arr(_, elems) => StrictElems(elems)
    case Obj(_, members) => StrictMembers(members)
  }

  predicate StrictElems(es: Elems) {
    es.Elem? ==> Strict(es.value) && StrictElems(es.tail)
  }

  predicate StrictMembers(ms: Members) {
    ms.Member? ==> NoControl(ms.name) && Strict(ms.value) && StrictMembers(ms.tail)
  }

  // ---- Bytes of tokens

  predicate IsTokenByte(c: byte) {
    !IsWs(c) && c != QUOTE && c != COMMA && c != COLON && c != LBRACE && c != RBRACE && c != LBRACKET && c != RBRACKET
  }

  lemma ExponentBytes(u: seq<byte>)
    requires IsExponent(u)
    ensures forall k :: 0 <= k < |u| ==> IsTokenByte(u[k])
  {
    if u != [] {
      var from := if |u| > 1 && (u[1] == 0x2B || u[1] == 0x2D) then 2 else 1;
      forall k | from <= k < |u| ensures IsDigit(u[k]) { assert u[k] == u[from..][k - from]; }
    }
  }

  lemma FractionBytes(u: seq<byte>)
    requires IsFraction(u)
    ensures forall k :: 0 <= k < |u| ==> IsTokenByte(u[k])
  {
    if u != [] && u[0] == 0x2E {
      var n := Digits(u[1..]);
      ExponentBytes(u[1 + n..]);
      forall k | 1 <= k < |u| ensures IsTokenByte(u[k]) {
        if k < 1 + n { assert u[k] == u[1..][k - 1]; } else { assert u[k] == u[1 + n..][k - 1 - n]; }
      }
    } else {
      ExponentBytes(u);
    }
  }

  /** A scalar holds no white space and no structural byte. */
  lemma ScalarBytes(s: seq<byte>)
    requires IsScalarToken(s)
    ensures |s| > 0 && forall k :: 0 <= k < |s| ==> IsTokenByte(s[k])
    ensures IsNumber(s) ==> s[0] == 0x2D || IsDigit(s[0])
  {
    if IsNumber(s) {
      var from := if s[0] == 0x2D then 1 else 0;
      var u := s[from..];
      assert u == if from == 1 then s[1..] else s;
      var n := Digits(u);
      FractionBytes(u[n..]);
      forall k | from <= k < |s| ensures IsTokenByte(s[k]) {
        if k - from < n { assert s[k] == u[k - from]; } else { assert s[k] == u[n..][k - from - n]; }
      }
    }
  }
}
