/** Where a tree stands in a text: the same grammar by positions. */
module JsonStands {
  import opened Bytes
  import opened JsonText

  /** The bytes of `t` stand at position `p`. */
  predicate At(data: seq<byte>, p: nat, t: seq<byte>)
    decreases |t|
  {
    if t == [] then p <= |data| else p < |data| && data[p] == t[0] && At(data, p + 1, t[1..])
  }

  lemma {:induction false} AtBytes(data: seq<byte>, p: nat, t: seq<byte>)
    ensures At(data, p, t) <==> p + |t| <= |data| && data[p..p + |t|] == t
    ensures At(data, p, t) ==> forall k :: p <= k < p + |t| ==> data[k] == t[k - p]
    decreases |t|
  {
    if t != [] {
      AtBytes(data, p + 1, t[1..]);
      if p + |t| <= |data| {
        assert data[p..p + |t|] == [data[p]] + data[p + 1..p + |t|];
        assert t == [t[0]] + t[1..];
      }
    }
  }

  function Length(v: Json): nat
    decreases v, 0
  {
    match v
    case Scalar(token) => |token|
    case Str(raw) => |raw| + 2
    case Arr(blank, elems) => 1 + |blank| + ElemsLength(elems) + 1
    case Obj(blank, members) => 1 + |blank| + MembersLength(members) + 1
  }

  function ElemsLength(es: Elems): nat
    decreases es, 1
  {
    if es.NoElem? then 0 else ElemLength(es) + ElemsLength(es.tail)
  }

  function ElemLength(es: Elems): nat
    requires es.Elem?
    decreases es, 0
  {
    |es.lead| + Length(es.value) + |es.trail| + if es.tail.NoElem? then 0 else 1
  }

  function MembersLength(ms: Members): nat
    decreases ms, 1
  {
    if ms.NoMember? then 0 else MemberLength(ms) + MembersLength(ms.tail)
  }

  function MemberLength(ms: Members): nat
    requires ms.Member?
    decreases ms, 0
  {
    HeadLength(ms) + |ms.post| + Length(ms.value) + |ms.trail| + if ms.tail.NoMember? then 0 else 1
  }

  /** Up to and with the colon. */
  function HeadLength(ms: Members): nat
    requires ms.Member?
  {
    |ms.lead| + (|ms.name| + 2) + |ms.mid| + 1
  }

  predicate QuotedAt(data: seq<byte>, p: nat, raw: seq<byte>) {
    p + |raw| + 2 <= |data| && data[p] == QUOTE && At(data, p + 1, raw) && data[p + 1 + |raw|] == QUOTE
  }

  predicate Stands(data: seq<byte>, p: nat, v: Json)
    decreases v
  {
    match v
    case Scalar(token) => At(data, p, token)
    case Str(raw) => QuotedAt(data, p, raw)
    case Arr(blank, elems) =>
      && p < |data| && data[p] == LBRACKET && At(data, p + 1, blank) && StandElems(data, p + 1 + |blank|, elems)
      && p + Length(v) <= |data| && data[p + Length(v) - 1] == RBRACKET
    case Obj(blank, members) =>
      && p < |data| && data[p] == LBRACE && At(data, p + 1, blank) && StandMembers(data, p + 1 + |blank|, members)
      && p + Length(v) <= |data| && data[p + Length(v) - 1] == RBRACE
  }

  predicate StandElems(data: seq<byte>, p: nat, es: Elems)
    decreases es
  {
    match es
    case NoElem => p <= |data|
    case Elem(lead, value, trail, tail) =>
      && At(data, p, lead) && Stands(data, p + |lead|, value) && At(data, p + |lead| + Length(value), trail)
      && (tail.Elem? ==> p + ElemLength(es) <= |data| && data[p + ElemLength(es) - 1] == COMMA)
      && StandElems(data, p + ElemLength(es), tail)
  }

  predicate StandMembers(data: seq<byte>, p: nat, ms: Members)
    decreases ms
  {
    match ms
    case NoMember => p <= |data|
    case Member(lead, name, mid, post, value, trail, tail) =>
      && StandsHead(data, p, ms) && Stands(data, p + HeadLength(ms) + |post|, value)
      && At(data, p + HeadLength(ms) + |post| + Length(value), trail)
      && (tail.Member? ==> p + MemberLength(ms) <= |data| && data[p + MemberLength(ms) - 1] == COMMA)
      && StandMembers(data, p + MemberLength(ms), tail)
  }

  predicate StandsHead(data: seq<byte>, p: nat, ms: Members)
    requires ms.Member?
  {
    var c := p + HeadLength(ms);
    && At(data, p, ms.lead) && QuotedAt(data, p + |ms.lead|, ms.name) && At(data, c - 1 - |ms.mid|, ms.mid)
    && c <= |data| && data[c - 1] == COLON && At(data, c, ms.post)
  }

  predicate DocumentStands(data: seq<byte>, d: Document) {
    && At(data, 0, d.lead) && Stands(data, |d.lead|, d.root) && At(data, |d.lead| + Length(d.root), d.trail)
    && |data| == |d.lead| + Length(d.root) + |d.trail|
  }

  lemma StandsFits(data: seq<byte>, p: nat, v: Json)
    requires Stands(data, p, v)
    ensures p + Length(v) <= |data|
  {
    if v.Scalar? { AtBytes(data, p, v.token); }
  }

  // ---- Text and positions agree

  lemma {:induction false} AtSplit(data: seq<byte>, p: nat, a: seq<byte>, b: seq<byte>)
    ensures At(data, p, a + b) <==> At(data, p, a) && At(data, p + |a|, b)
    decreases |a|
  {
    if a == [] {
      assert a + b == b;
      AtBytes(data, p, b);
    } else {
      assert (a + b)[1..] == a[1..] + b;
      AtSplit(data, p + 1, a[1..], b);
    }
  }

  lemma AtByte(data: seq<byte>, p: nat, c: byte)
    ensures At(data, p, [c]) <==> p < |data| && data[p] == c
  {
  }

  lemma AtQuoted(data: seq<byte>, p: nat, raw: seq<byte>)
    ensures At(data, p, Quoted(raw)) <==> QuotedAt(data, p, raw)
  {
    AtSplit(data, p, [QUOTE] + raw, [QUOTE]);
    AtSplit(data, p, [QUOTE], raw);
    AtByte(data, p, QUOTE);
    AtByte(data, p + 1 + |raw|, QUOTE);
  }

  lemma AtBracketed(data: seq<byte>, p: nat, open: byte, blank: seq<byte>, body: seq<byte>, close: byte)
    ensures At(data, p, [open] + blank + body + [close]) <==>
            && p < |data| && data[p] == open && At(data, p + 1, blank) && At(data, p + 1 + |blank|, body)
            && var q := p + 1 + |blank| + |body|; q < |data| && data[q] == close
  {
    AtSplit(data, p, [open] + blank + body, [close]);
    AtSplit(data, p, [open] + blank, body);
    AtSplit(data, p, [open], blank);
    AtByte(data, p, open);
    AtByte(data, p + 1 + |blank| + |body|, close);
  }

  lemma AtSeparator(data: seq<byte>, p: nat, last: bool)
    ensures At(data, p, Separator(last)) <==>
            if last then p <= |data| else p < |data| && data[p] == COMMA
  {
    if last { assert Separator(last) == []; } else { AtByte(data, p, COMMA); }
  }

  /** One item of a list: what comes before its value, the value, its white space, its separator, the rest. */
  lemma AtItem(data: seq<byte>, p: nat, head: seq<byte>, body: seq<byte>, trail: seq<byte>, last: bool,
                  tail: seq<byte>)
    ensures var e := p + |head| + |body|;
            var n := |head| + |body| + |trail| + if last then 0 else 1;
            At(data, p, head + body + trail + Separator(last) + tail) <==>
            && At(data, p, head) && At(data, p + |head|, body) && At(data, e, trail)
            && (if last then e + |trail| <= |data| else e + |trail| < |data| && data[e + |trail|] == COMMA)
            && At(data, p + n, tail)
  {
    var e := p + |head| + |body|;
    AtSplit(data, p, head + body + trail + Separator(last), tail);
    AtSplit(data, p, head + body + trail, Separator(last));
    AtSplit(data, p, head + body, trail);
    AtSplit(data, p, head, body);
    AtSeparator(data, e + |trail|, last);
  }

  lemma HeadStands(data: seq<byte>, p: nat, ms: Members)
    requires ms.Member?
    ensures var head := ms.lead + Quoted(ms.name) + ms.mid + [COLON] + ms.post;
            |head| == HeadLength(ms) + |ms.post| && (At(data, p, head) <==> StandsHead(data, p, ms))
  {
    var c := p + HeadLength(ms);
    AtSplit(data, p, ms.lead + Quoted(ms.name) + ms.mid + [COLON], ms.post);
    AtSplit(data, p, ms.lead + Quoted(ms.name) + ms.mid, [COLON]);
    AtSplit(data, p, ms.lead + Quoted(ms.name), ms.mid);
    AtSplit(data, p, ms.lead, Quoted(ms.name));
    AtQuoted(data, p + |ms.lead|, ms.name);
    AtByte(data, c - 1, COLON);
  }

  lemma ElemStands(data: seq<byte>, p: nat, es: Elems, v: seq<byte>, tail: seq<byte>)
    requires es.Elem? && |v| == Length(es.value) && |tail| == ElemsLength(es.tail)
    requires At(data, p + |es.lead|, v) <==> Stands(data, p + |es.lead|, es.value)
    requires At(data, p + ElemLength(es), tail) <==> StandElems(data, p + ElemLength(es), es.tail)
    ensures var t := es.lead + v + es.trail + Separator(es.tail.NoElem?) + tail;
            |t| == ElemsLength(es) && (At(data, p, t) <==> StandElems(data, p, es))
  {
    AtItem(data, p, es.lead, v, es.trail, es.tail.NoElem?, tail);
  }

  lemma MemberStands(data: seq<byte>, p: nat, ms: Members, v: seq<byte>, tail: seq<byte>)
    requires ms.Member? && |v| == Length(ms.value) && |tail| == MembersLength(ms.tail)
    requires var c := p + HeadLength(ms) + |ms.post|; At(data, c, v) <==> Stands(data, c, ms.value)
    requires At(data, p + MemberLength(ms), tail) <==> StandMembers(data, p + MemberLength(ms), ms.tail)
    ensures var head := ms.lead + Quoted(ms.name) + ms.mid + [COLON] + ms.post;
            var t := head + v + ms.trail + Separator(ms.tail.NoMember?) + tail;
            |t| == MembersLength(ms) && (At(data, p, t) <==> StandMembers(data, p, ms))
  {
    HeadStands(data, p, ms);
    var head := ms.lead + Quoted(ms.name) + ms.mid + [COLON] + ms.post;
    AtItem(data, p, head, v, ms.trail, ms.tail.NoMember?, tail);
  }

  /** A tree stands where its text is. */
  lemma {:induction false} TextStands(data: seq<byte>, p: nat, v: Json)
    ensures |Text(v)| == Length(v)
    ensures At(data, p, Text(v)) <==> Stands(data, p, v)
    decreases v
  {
    hide At;
    match v
    case Scalar(token) =>
    case Str(raw) => AtQuoted(data, p, raw);
    case Arr(blank, elems) =>
      ElemsTextStands(data, p + 1 + |blank|, elems);
      var body := ElemsText(elems);
      AtBracketed(data, p, LBRACKET, blank, body, RBRACKET);
    case Obj(blank, members) =>
      MembersTextStands(data, p + 1 + |blank|, members);
      var body := MembersText(members);
      AtBracketed(data, p, LBRACE, blank, body, RBRACE);
  }

  lemma {:induction false} ElemsTextStands(data: seq<byte>, p: nat, es: Elems)
    ensures |ElemsText(es)| == ElemsLength(es)
    ensures At(data, p, ElemsText(es)) <==> StandElems(data, p, es)
    decreases es
  {
    if es.Elem? {
      TextStands(data, p + |es.lead|, es.value);
      ElemsTextStands(data, p + ElemLength(es), es.tail);
      ElemStands(data, p, es, Text(es.value), ElemsText(es.tail));
    }
  }

  lemma {:induction false} MembersTextStands(data: seq<byte>, p: nat, ms: Members)
    ensures |MembersText(ms)| == MembersLength(ms)
    ensures At(data, p, MembersText(ms)) <==> StandMembers(data, p, ms)
    decreases ms
  {
    if ms.Member? {
      TextStands(data, p + HeadLength(ms) + |ms.post|, ms.value);
      MembersTextStands(data, p + MemberLength(ms), ms.tail);
      MemberStands(data, p, ms, Text(ms.value), MembersText(ms.tail));
    }
  }

  lemma DocumentTextStands(data: seq<byte>, d: Document)
    ensures data == DocumentText(d) <==> DocumentStands(data, d)
  {
    AtSplit(data, 0, d.lead + Text(d.root), d.trail);
    AtSplit(data, 0, d.lead, Text(d.root));
    TextStands(data, |d.lead|, d.root);
    AtBytes(data, 0, DocumentText(d));
    if |data| == |DocumentText(d)| { assert data[0..|data|] == data; }
  }
}
