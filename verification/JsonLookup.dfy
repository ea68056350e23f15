/** On every well-formed text the byte scanner computes what a walk over the syntax tree gives. */
module JsonLookup {
  import opened Bytes
  import opened JsonEscape
  import opened JsonText
  import opened JsonStands
  import opened JsonScan

  // ---- The reference: a search over the tree

  /** Where a path leads: `at` is just behind the colon of its last name, `blank` the white space after it. */
  datatype Found = Absent | Unreadable | Hit(at: nat, blank: nat, value: Json)

  function MoveBy(n: nat, f: Found): Found {
    match f
    case Hit(at, blank, value) => Hit(n + at, blank, value)
    case _ => f
  }

  /** The first member chain, in document order, whose decoded names are `path`; Unreadable when the search
      meets a name with a malformed escape first. */
  function Locate(ms: Members, path: seq<seq<byte>>): Found
    requires path != []
    decreases ms
  {
    match ms
    case NoMember => Absent
    case Member(lead, name, mid, post, v, trail, tail) =>
      var rest := MoveBy(MemberLength(ms), Locate(tail, path));
      if Unescaped(name).None? then Unreadable
      else if Unescaped(name).value != path[0] then rest
      else if |path| == 1 then Hit(HeadLength(ms), |post|, v)
      else if !v.Obj? then rest
      else
        match Locate(v.members, path[1..])
        case Absent => rest
        case inner => MoveBy(HeadLength(ms) + |post| + 1 + |v.blank|, inner)
  }

  function LocateIn(d: Document, path: seq<seq<byte>>): Found {
    if path == [] then Hit(0, |d.lead|, d.root)
    else if d.root.Obj? then MoveBy(|d.lead| + 1 + |d.root.blank|, Locate(d.root.members, path))
    else Absent
  }

  // ---- White space and strings

  lemma {:induction false} BlankSkipped(data: seq<byte>, p: nat, q: nat)
    requires p <= q < |data| && (forall k :: p <= k < q ==> IsWs(data[k])) && !IsWs(data[q])
    ensures SkipBlank(data, p) == q
    decreases q - p
  {
    if p < q { BlankSkipped(data, p + 1, q); }
  }

  lemma {:induction false} BlankToEnd(data: seq<byte>, p: nat)
    requires p <= |data| && (forall k :: p <= k < |data| ==> IsWs(data[k]))
    ensures SkipBlank(data, p) == |data|
    decreases |data| - p
  {
    if p < |data| { BlankToEnd(data, p + 1); }
  }

  lemma BlankBytes(data: seq<byte>, p: nat, t: seq<byte>)
    requires At(data, p, t) && IsBlank(t)
    ensures p + |t| <= |data| && forall k :: p <= k < p + |t| ==> IsWs(data[k])
  {
    AtBytes(data, p, t);
    forall k | p <= k < p + |t| ensures IsWs(data[k]) { assert IsWs(t[k - p]); }
  }

  /** A valid string body is left exactly at the quote behind it. */
  lemma {:induction false} QuoteClosesRaw(data: seq<byte>, p: nat, raw: seq<byte>)
    requires IsRaw(raw) && p + |raw| < |data| && (forall k :: 0 <= k < |raw| ==> data[p + k] == raw[k])
    requires data[p + |raw|] == QUOTE
    ensures CloseQuote(data, p, false) == p + |raw| + 1
    decreases |raw|
  {
    if raw != [] {
      assert data[p] == raw[0];
      if raw[0] != BACKSLASH {
        QuoteClosesRaw(data, p + 1, raw[1..]);
      } else {
        assert data[p + 1] == raw[1];
        var n := if raw[1] == LOWER_U then 6 else 2;
        QuoteClosesRaw(data, p + n, raw[n..]);
        if n == 6 { PlainBytesPass(data, p + 2, p + 6, raw); }
      }
    }
  }

  lemma PlainBytesPass(data: seq<byte>, p: nat, q: nat, raw: seq<byte>)
    requires 2 <= p && q == p + 4 <= |data| && |raw| >= 6
    requires forall k :: 0 <= k < |raw| && p - 2 + k < |data| ==> data[p - 2 + k] == raw[k]
    requires forall k :: 2 <= k < 6 ==> H2I(raw[k]) >= 0
    ensures CloseQuote(data, p, false) == CloseQuote(data, q, false)
  {
    assert data[p - 2 + 2] == raw[2] && data[p - 2 + 3] == raw[3] && data[p - 2 + 4] == raw[4]
        && data[p - 2 + 5] == raw[5];
    assert CloseQuote(data, p, false) == CloseQuote(data, p + 1, false);
    assert CloseQuote(data, p + 1, false) == CloseQuote(data, p + 2, false);
    assert CloseQuote(data, p + 2, false) == CloseQuote(data, p + 3, false);
  }

  lemma QuotedCloses(data: seq<byte>, p: nat, raw: seq<byte>)
    requires IsRaw(raw) && QuotedAt(data, p, raw)
    ensures CloseQuote(data, p + 1, false) == p + |raw| + 2
    ensures data[p + 1..p + 1 + |raw|] == raw
  {
    AtBytes(data, p + 1, raw);
    assert forall k :: 0 <= k < |raw| ==> data[p + 1 + k] == raw[k];
    QuoteClosesRaw(data, p + 1, raw);
  }

  // ---- Brackets: blockEnd passes over every value, whatever brackets its strings hold

  predicate Brackets(open: byte, close: byte) {
    (open == LBRACE && close == RBRACE) || (open == LBRACKET && close == RBRACKET)
  }

  lemma {:induction false} BlockInert(data: seq<byte>, p: nat, q: nat, open: byte, close: byte, level: int)
    requires p <= q <= |data|
    requires forall k :: p <= k < q ==> data[k] != QUOTE && data[k] != open && data[k] != close
    ensures BlockClose(data, p, open, close, level) == BlockClose(data, q, open, close, level)
    decreases q - p
  {
    if p < q { BlockInert(data, p + 1, q, open, close, level); }
  }

  lemma BlockBlank(data: seq<byte>, p: nat, t: seq<byte>, open: byte, close: byte, level: int)
    requires Brackets(open, close) && At(data, p, t) && IsBlank(t)
    ensures p + |t| <= |data|
    ensures BlockClose(data, p, open, close, level) == BlockClose(data, p + |t|, open, close, level)
  {
    BlankBytes(data, p, t);
    BlockInert(data, p, p + |t|, open, close, level);
  }

  lemma BlockHead(data: seq<byte>, p: nat, ms: Members, open: byte, close: byte, level: int)
    requires Brackets(open, close) && ms.Member? && ValidMembers(ms) && StandsHead(data, p, ms)
    ensures p + HeadLength(ms) + |ms.post| <= |data|
    ensures BlockClose(data, p, open, close, level)
         == BlockClose(data, p + HeadLength(ms) + |ms.post|, open, close, level)
  {
    hide IsRaw, At, CloseQuote, IsBlank, Valid, Unescaped, SkipBlank;
    var c := p + HeadLength(ms);
    BlockBlank(data, p, ms.lead, open, close, level);
    QuotedCloses(data, p + |ms.lead|, ms.name);
    BlockBlank(data, c - 1 - |ms.mid|, ms.mid, open, close, level);
    BlockBlank(data, c, ms.post, open, close, level);
  }

  /** Inside a block, a value leaves the bracket count as it found it. */
  lemma {:induction false} BlockValue(data: seq<byte>, p: nat, v: Json, open: byte, close: byte, level: int)
    requires Brackets(open, close) && Valid(v) && Stands(data, p, v) && level >= 1
    ensures p + Length(v) <= |data|
    ensures BlockClose(data, p, open, close, level) == BlockClose(data, p + Length(v), open, close, level)
    decreases v
  {
    hide IsRaw, IsScalarToken, At, Unescaped, CloseQuote, SkipBlank, IsBlank;
    StandsFits(data, p, v);
    match v
    case Scalar(token) =>
      ScalarAt(data, p, token);
      BlockInert(data, p, p + |token|, open, close, level);
    case Str(raw) =>
      QuotedCloses(data, p, raw);
    case Arr(blank, elems) =>
      BlockBody(data, p, v, open, close, if open == LBRACKET then level + 1 else level);
    case Obj(blank, members) =>
      BlockBody(data, p, v, open, close, if open == LBRACE then level + 1 else level);
  }

  /** From behind the opening bracket of a value to its closing bracket. */
  lemma {:induction false} BlockBody(data: seq<byte>, p: nat, v: Json, open: byte, close: byte, level: int)
    requires Brackets(open, close) && (v.Arr? || v.Obj?) && Valid(v) && Stands(data, p, v) && level >= 1
    ensures BlockClose(data, p + 1, open, close, level) == BlockClose(data, p + Length(v) - 1, open, close, level)
    decreases v, 0
  {
    hide IsRaw, IsScalarToken, At, Unescaped, CloseQuote, SkipBlank, IsBlank;
    match v
    case Arr(blank, elems) =>
      BlockBlank(data, p + 1, blank, open, close, level);
      BlockElems(data, p + 1 + |blank|, elems, open, close, level);
    case Obj(blank, members) =>
      BlockBlank(data, p + 1, blank, open, close, level);
      BlockMembers(data, p + 1 + |blank|, members, open, close, level);
  }

  lemma {:induction false} BlockElems(data: seq<byte>, p: nat, es: Elems, open: byte, close: byte, level: int)
    requires Brackets(open, close) && ValidElems(es) && StandElems(data, p, es) && level >= 1
    ensures p + ElemsLength(es) <= |data|
    ensures BlockClose(data, p, open, close, level) == BlockClose(data, p + ElemsLength(es), open, close, level)
    decreases es
  {
    hide IsRaw, IsScalarToken, At, Unescaped, CloseQuote, SkipBlank, IsBlank;
    match es
    case NoElem =>
    case Elem(lead, value, trail, tail) =>
      BlockBlank(data, p, lead, open, close, level);
      BlockValue(data, p + |lead|, value, open, close, level);
      BlockBlank(data, p + |lead| + Length(value), trail, open, close, level);
      BlockElems(data, p + ElemLength(es), tail, open, close, level);
  }

  lemma {:induction false} BlockMembers(data: seq<byte>, p: nat, ms: Members, open: byte, close: byte, level: int)
    requires Brackets(open, close) && ValidMembers(ms) && StandMembers(data, p, ms) && level >= 1
    ensures p + MembersLength(ms) <= |data|
    ensures BlockClose(data, p, open, close, level) == BlockClose(data, p + MembersLength(ms), open, close, level)
    decreases ms
  {
    hide IsRaw, IsScalarToken, At, Unescaped, CloseQuote, SkipBlank, IsBlank;
    match ms
    case NoMember =>
    case Member(lead, name, mid, post, value, trail, tail) =>
      var c := p + HeadLength(ms) + |post|;
      BlockHead(data, p, ms, open, close, level);
      BlockValue(data, c, value, open, close, level);
      BlockBlank(data, c + Length(value), trail, open, close, level);
      BlockMembers(data, p + MemberLength(ms), tail, open, close, level);
  }

  /** On a well-formed array or object blockEnd stops exactly behind its matching bracket. */
  lemma BlockEndMatches(data: seq<byte>, p: nat, v: Json)
    requires Valid(v) && Stands(data, p, v) && (v.Arr? || v.Obj?)
    ensures BlockClose(data, p, data[p], if v.Arr? then RBRACKET else RBRACE, 0) == p + Length(v)
  {
    BlockBody(data, p, v, data[p], if v.Arr? then RBRACKET else RBRACE, 1);
  }

  lemma ScalarAt(data: seq<byte>, p: nat, token: seq<byte>)
    requires At(data, p, token) && IsScalarToken(token)
    ensures p + |token| <= |data| && |token| > 0 && data[p..p + |token|] == token
    ensures forall k :: p <= k < p + |token| ==> IsTokenByte(data[k])
  {
    ScalarBytes(token);
    AtBytes(data, p, token);
    forall k | p <= k < p + |token| ensures IsTokenByte(data[k]) { assert IsTokenByte(token[k - p]); }
  }

  // ---- The scan

  lemma {:induction false} ScanInert(data: seq<byte>, p: nat, q: nat, keys: Path, st: State)
    requires p <= q <= |data|
    requires forall k :: p <= k < q ==>
               data[k] != QUOTE && data[k] != COLON && data[k] != LBRACE && data[k] != RBRACE && data[k] != LBRACKET
    ensures Scan(data, p, keys, st) == Scan(data, q, keys, st)
    decreases q - p
  {
    hide CloseQuote, BlockClose, KeyStep, CloseStep, SkipBlank, NextTokenAt, Unescaped;
    if p < q {
      assert Step(data, p, keys, st) == Go(p + 1, st);
      ScanInert(data, p + 1, q, keys, st);
    }
  }

  lemma ScanBlank(data: seq<byte>, p: nat, t: seq<byte>, keys: Path, st: State)
    requires At(data, p, t) && IsBlank(t)
    ensures p + |t| <= |data| && Scan(data, p, keys, st) == Scan(data, p + |t|, keys, st)
  {
    hide Scan, At;
    BlankBytes(data, p, t);
    ScanInert(data, p, p + |t|, keys, st);
  }

  lemma ScanSkipsScalar(data: seq<byte>, p: nat, token: seq<byte>, keys: Path, st: State)
    requires IsScalarToken(token) && At(data, p, token)
    ensures p + |token| <= |data| && Scan(data, p, keys, st) == Scan(data, p + |token|, keys, st)
  {
    hide Scan, At, IsScalarToken;
    ScalarAt(data, p, token);
    ScanInert(data, p, p + |token|, keys, st);
  }

  lemma ScanSkipsString(data: seq<byte>, p: nat, raw: seq<byte>, trail: seq<byte>, keys: Path, st: State)
    requires IsRaw(raw) && QuotedAt(data, p, raw) && At(data, p + |raw| + 2, trail) && IsBlank(trail)
    requires var q := p + |raw| + 2 + |trail|; q < |data| && !IsWs(data[q]) && data[q] != COLON
    ensures Scan(data, p, keys, st) == Scan(data, p + |raw| + 2 + |trail|, keys, st)
  {
    hide CloseQuote, BlockClose, KeyStep, CloseStep, SkipBlank, Unescaped, At, IsRaw, IsBlank;
    var q := p + |raw| + 2;
    QuotedCloses(data, p, raw);
    BlankBytes(data, q, trail);
    BlankSkipped(data, q, q + |trail|);
    assert Step(data, p, keys, st) == Go(q + |trail|, st);
  }

  lemma ScanSkipsBlock(data: seq<byte>, p: nat, v: Json, keys: Path, st: State)
    requires Valid(v) && Stands(data, p, v) && (v.Arr? || (v.Obj? && !st.lastMatched))
    ensures p + Length(v) <= |data| && Scan(data, p, keys, st) == Scan(data, p + Length(v), keys, st)
  {
    hide CloseQuote, BlockClose, KeyStep, CloseStep, SkipBlank, NextTokenAt, Unescaped, Stands, Valid;
    StandsFits(data, p, v);
    StandsFirst(data, p, v);
    BlockEndMatches(data, p, v);
    assert Step(data, p, keys, st) == Go(p + Length(v), st);
  }

  lemma StandsFirst(data: seq<byte>, p: nat, v: Json)
    requires Stands(data, p, v) && !v.Scalar?
    ensures p < |data| && data[p] == match v case Str(_) => QUOTE case Arr(_, _) => LBRACKET case _ => LBRACE
  {
  }

  /** A value that is no matched object is passed over, with the white space behind it. */
  lemma ScanSkipsValue(data: seq<byte>, p: nat, v: Json, trail: seq<byte>, keys: Path, st: State)
    requires Valid(v) && Stands(data, p, v) && At(data, p + Length(v), trail) && IsBlank(trail)
    requires v.Obj? ==> !st.lastMatched
    requires v.Str? ==> var q := p + Length(v) + |trail|; q < |data| && !IsWs(data[q]) && data[q] != COLON
    ensures p + Length(v) + |trail| <= |data|
    ensures Scan(data, p, keys, st) == Scan(data, p + Length(v) + |trail|, keys, st)
  {
    hide Scan, At, IsBlank, IsRaw, IsScalarToken, QuotedAt, StandElems, StandMembers, ValidElems, ValidMembers;
    match v
    case Scalar(token) =>
      ScanSkipsScalar(data, p, token, keys, st);
      ScanBlank(data, p + Length(v), trail, keys, st);
    case Str(raw) =>
      ScanSkipsString(data, p, raw, trail, keys, st);
    case _ =>
      ScanSkipsBlock(data, p, v, keys, st);
      ScanBlank(data, p + Length(v), trail, keys, st);
  }

  lemma NameStep(data: seq<byte>, q: nat, e: nat, c: nat, keys: Path, st: State)
    requires q + 2 <= e < c <= |data| && data[q] == QUOTE && CloseQuote(data, q + 1, false) == e
    requires SkipBlank(data, e) == c - 1 && data[c - 1] == COLON
    ensures Scan(data, q, keys, st) ==
            match KeyStep(data[q + 1..e - 1], keys, st)
            case None => -1
            case Some(next) => if next.keyLevel == |keys| then c else Scan(data, c, keys, next)
  {
    hide CloseQuote, BlockClose, KeyStep, CloseStep, SkipBlank, Unescaped;
  }

  /** The name of a member brings the scan just behind the colon. */
  lemma ScanName(data: seq<byte>, p: nat, ms: Members, keys: Path, st: State)
    requires ms.Member? && ValidMembers(ms) && StandsHead(data, p, ms)
    ensures p + HeadLength(ms) <= |data|
    ensures Scan(data, p, keys, st) ==
            match KeyStep(ms.name, keys, st)
            case None => -1
            case Some(next) =>
              if next.keyLevel == |keys| then p + HeadLength(ms) else Scan(data, p + HeadLength(ms), keys, next)
  {
    hide Scan, CloseQuote, SkipBlank, Unescaped, KeyStep, At, IsRaw, IsBlank, Valid;
    var q, c := p + |ms.lead|, p + HeadLength(ms);
    var e := c - 1 - |ms.mid|;
    ScanBlank(data, p, ms.lead, keys, st);
    QuotedCloses(data, q, ms.name);
    BlankBytes(data, e, ms.mid);
    BlankSkipped(data, e, c - 1);
    assert data[q + 1..e - 1] == ms.name;
    NameStep(data, q, e, c, keys, st);
  }

  lemma ScanOpens(data: seq<byte>, p: nat, keys: Path, st: State)
    requires p < |data| && data[p] == LBRACE && st.lastMatched
    ensures Scan(data, p, keys, st) == Scan(data, p + 1, keys, st.(level := st.level + 1))
  {
    hide CloseQuote, BlockClose, KeyStep, CloseStep, SkipBlank, Unescaped, NextTokenAt;
    assert Step(data, p, keys, st) == Go(p + 1, st.(level := st.level + 1));
  }

  lemma ScanCloses(data: seq<byte>, p: nat, keys: Path, st: State)
    requires p < |data| && data[p] == RBRACE
    ensures Scan(data, p, keys, st) == Scan(data, p + 1, keys, CloseStep(st))
  {
    hide CloseQuote, BlockClose, KeyStep, CloseStep, SkipBlank, Unescaped, NextTokenAt;
    assert Step(data, p, keys, st) == Go(p + 1, CloseStep(st));
  }

  /** A string that ends the text ends the search. */
  lemma ScanLastString(data: seq<byte>, p: nat, raw: seq<byte>, trail: seq<byte>, keys: Path, st: State)
    requires IsRaw(raw) && QuotedAt(data, p, raw) && At(data, p + |raw| + 2, trail) && IsBlank(trail)
    requires |data| == p + |raw| + 2 + |trail|
    ensures Scan(data, p, keys, st) == -1
  {
    hide CloseQuote, BlockClose, KeyStep, CloseStep, SkipBlank, Unescaped, At, IsRaw, IsBlank;
    var q := p + |raw| + 2;
    QuotedCloses(data, p, raw);
    BlankBytes(data, q, trail);
    BlankToEnd(data, q);
    assert Step(data, p, keys, st) == Stop(-1);
  }

  /** A search from `p` that returns `r` agrees with `f`, being `otherwise` when `f` is absent. */
  predicate Finds(r: int, p: nat, f: Found, otherwise: int) {
    r == match f
         case Absent => otherwise
         case Unreadable => -1
         case Hit(at, _, _) => p + at
  }

  /** Where the members of an object value begin, from the beginning of its own member. */
  function InnerAt(ms: Members): nat
    requires ms.Member?
  {
    HeadLength(ms) + |ms.post| + if ms.value.Obj? then 1 + |ms.value.blank| else 0
  }

  /** What the search of a member's value gives: only an object under a matched name is searched. */
  function Inner(ms: Members, keys: Path, st: State): Found
    requires ms.Member?
  {
    if st.lastMatched && ms.value.Obj? && 0 <= st.level < |keys|
    then Locate(ms.value.members, keys[st.level..])
    else Absent
  }

  /** The heart of the scanner: over the members of an object at level `level`, with `level - 1` names of the
      path matched around it, the scan does what Locate does; when it leaves the object empty-handed,
      keyLevel is again at least `level - 1` and has not reached the end of the path. */
  lemma {:induction false} ScanMembers(data: seq<byte>, p: nat, ms: Members, keys: Path, st: State)
    returns (out: State)
    requires ValidMembers(ms) && StandMembers(data, p, ms)
    requires p + MembersLength(ms) < |data| && data[p + MembersLength(ms)] == RBRACE
    requires 1 <= st.level <= |keys| && st.level - 1 <= st.keyLevel < |keys|
    ensures out.level == st.level && st.level - 1 <= out.keyLevel < |keys|
    ensures Finds(Scan(data, p, keys, st), p, Locate(ms, keys[st.level - 1..]),
                  Scan(data, p + MembersLength(ms), keys, out))
    decreases ms, 1
  {
    hide *;
    out := st;
    if ms.NoMember? {
      NoMembers(data, p, ms, keys, st);
    } else {
      MemberParts(data, p, ms);
      ScanName(data, p, ms, keys, st);
      LocateStep(ms, keys, st);
      var next := KeyStep(ms.name, keys, st);
      if next.None? || next.value.keyLevel == |keys| {
        var done := Scan(data, p + MembersLength(ms), keys, out);
        FindsHere(p, if next.None? then Unreadable else Hit(HeadLength(ms), |ms.post|, ms.value), done);
      } else {
        var after := ScanMemberValue(data, p, ms, keys, next.value);
        out := ScanMembers(data, p + MemberLength(ms), ms.tail, keys, after);
        var rest, done := Scan(data, p + MemberLength(ms), keys, after), Scan(data, p + MembersLength(ms), keys, out);
        FindsMember(Scan(data, p, keys, st), rest, done, p, ms, Locate(ms.tail, keys[st.level - 1..]),
            Inner(ms, keys, next.value));
      }
    }
  }

  lemma NoMembers(data: seq<byte>, p: nat, ms: Members, keys: Path, st: State)
    requires p <= |data| && ms.NoMember? && 1 <= st.level <= |keys|
    ensures Finds(Scan(data, p, keys, st), p, Locate(ms, keys[st.level - 1..]),
                  Scan(data, p + MembersLength(ms), keys, st))
  {
    hide Scan;
  }

  lemma FindsHere(p: nat, f: Found, otherwise: int)
    requires f != Absent
    ensures Finds(if f.Hit? then p + f.at else -1, p, f, otherwise)
  {
  }

  /** The answer for a member and the ones behind it, from that for its value and that for the rest. */
  lemma FindsMember(found: int, rest: int, done: int, p: nat, ms: Members, tail: Found, inner: Found)
    requires ms.Member? && Finds(rest, p + MemberLength(ms), tail, done) && Finds(found, p + InnerAt(ms), inner, rest)
    ensures var here := if inner == Absent then MoveBy(MemberLength(ms), tail) else MoveBy(InnerAt(ms), inner);
            Finds(found, p, here, done)
  {
    hide MemberLength, InnerAt;
  }

  lemma MemberParts(data: seq<byte>, p: nat, ms: Members)
    requires ms.Member? && ValidMembers(ms) && StandMembers(data, p, ms)
    ensures ValidMembers(ms.tail) && StandMembers(data, p + MemberLength(ms), ms.tail) && StandsHead(data, p, ms)
    ensures MembersLength(ms) == MemberLength(ms) + MembersLength(ms.tail)
  {
    hide Valid, At, Stands, IsRaw, IsBlank, Length;
  }

  /** What the name of a member makes of the lookup, next to what it makes of the scanner's state. */
  lemma LocateStep(ms: Members, keys: Path, st: State)
    requires ms.Member? && 1 <= st.level <= |keys| && st.level - 1 <= st.keyLevel < |keys|
    ensures var past := MoveBy(MemberLength(ms), Locate(ms.tail, keys[st.level - 1..]));
      var here := Locate(ms, keys[st.level - 1..]);
      match KeyStep(ms.name, keys, st)
      case None => here == Unreadable
      case Some(next) =>
        && next.level == st.level && st.level - 1 <= next.keyLevel <= |keys|
        && (next.lastMatched ==> st.level <= next.keyLevel)
        && here ==
             if next.keyLevel == |keys| then Hit(HeadLength(ms), |ms.post|, ms.value)
             else if Inner(ms, keys, next) == Absent then past
             else MoveBy(InnerAt(ms), Inner(ms, keys, next))
  {
    hide Unescaped, Length;
    assert keys[st.level - 1..][1..] == keys[st.level..];
  }

  /** From behind the colon of a member to the next member. */
  lemma {:induction false} ScanMemberValue(data: seq<byte>, p: nat, ms: Members, keys: Path, st: State)
    returns (out: State)
    requires ms.Member? && ValidMembers(ms) && StandMembers(data, p, ms)
    requires p + MembersLength(ms) < |data| && data[p + MembersLength(ms)] == RBRACE
    requires 1 <= st.level <= |keys| && st.level - 1 <= st.keyLevel < |keys|
    requires st.lastMatched ==> st.level <= st.keyLevel
    ensures out.level == st.level && st.level - 1 <= out.keyLevel < |keys|
    ensures p + MemberLength(ms) <= |data| && p + HeadLength(ms) <= |data|
    ensures Finds(Scan(data, p + HeadLength(ms), keys, st), p + InnerAt(ms), Inner(ms, keys, st),
                  Scan(data, p + MemberLength(ms), keys, out))
    decreases ms, 0
  {
    hide Scan, Stands, Valid, At, IsRaw, IsBlank, Locate, Length;
    var c := p + HeadLength(ms) + |ms.post|;
    ScanBlank(data, p + HeadLength(ms), ms.post, keys, st);
    out := st;
    if ms.value.Obj? && st.lastMatched {
      out := ScanObject(data, c, ms.value, ms.trail, keys, st);
    } else {
      ScanSkipsValue(data, c, ms.value, ms.trail, keys, st);
    }
    if ms.tail.Member? {
      ScanInert(data, p + MemberLength(ms) - 1, p + MemberLength(ms), keys, out);
    }
  }

  /** The same over a matched object, its braces and the white space behind it. */
  lemma {:induction false} ScanObject(data: seq<byte>, p: nat, v: Json, trail: seq<byte>, keys: Path, st: State)
    returns (out: State)
    requires v.Obj? && Valid(v) && Stands(data, p, v) && At(data, p + Length(v), trail) && IsBlank(trail)
    requires 0 <= st.level < |keys| && st.level <= st.keyLevel < |keys| && st.lastMatched
    ensures out.level == st.level && st.level - 1 <= out.keyLevel < |keys|
    ensures p + Length(v) + |trail| <= |data|
    ensures Finds(Scan(data, p, keys, st), p + 1 + |v.blank|, Locate(v.members, keys[st.level..]),
                  Scan(data, p + Length(v) + |trail|, keys, out))
    decreases v, 0
  {
    hide Scan, Locate, At, IsRaw, IsBlank, StandMembers, ValidMembers, MembersLength;
    var inside := st.(level := st.level + 1);
    ScanOpens(data, p, keys, st);
    ScanBlank(data, p + 1, v.blank, keys, inside);
    var last := ScanMembers(data, p + 1 + |v.blank|, v.members, keys, inside);
    out := CloseStep(last);
    ScanCloses(data, p + Length(v) - 1, keys, last);
    ScanBlank(data, p + Length(v), trail, keys, out);
  }

  lemma ScanEnds(data: seq<byte>, keys: Path)
    ensures forall st :: Scan(data, |data|, keys, st) == -1
  {
  }

  /** searchKeys on a whole text: the position Locate gives, or -1. */
  lemma SearchLocates(data: seq<byte>, d: Document, keys: Path)
    requires ValidDocument(d) && DocumentStands(data, d)
    ensures Search(data, keys) == match LocateIn(d, keys) case Hit(at, _, _) => at case _ => -1
  {
    hide Scan, Locate, At, IsRaw, IsBlank, IsScalarToken, StandElems, StandMembers, ValidElems, ValidMembers;
    if |keys| > 0 {
      var p := |d.lead|;
      ScanBlank(data, 0, d.lead, keys, START);
      if d.root.Obj? {
        var out := ScanObject(data, p, d.root, d.trail, keys, START);
        assert keys[0..] == keys;
      } else if d.root.Str? {
        ScanLastString(data, p, d.root.raw, d.trail, keys, START);
      } else {
        ScanSkipsValue(data, p, d.root, d.trail, keys, START);
      }
      ScanEnds(data, keys);
    }
  }

  // ---- The value found

  function JsonType(v: Json): ValueType {
    match v
    case Scalar(token) => if token == TRUE || token == FALSE then Boolean else if token == NULL then Null else Number
    case Str(_) => String
    case Arr(_, _) => Array
    case Obj(_, _) => Object
  }

  /** The bytes Get hands out for a value: its text, and for a string what stands between the quotes. */
  function Handed(v: Json): seq<byte> {
    if v.Str? then v.raw else Text(v)
  }

  lemma TypedOnScalar(data: seq<byte>, p: nat, token: seq<byte>)
    requires IsScalarToken(token) && At(data, p, token)
    requires p + |token| < |data| ==> EndsToken(data[p + |token|])
    ensures p < p + |token| <= |data| && !IsWs(data[p])
    ensures TypedAt(data, p) == Typed(data[p..p + |token|], JsonType(Scalar(token)), p + |token|, NoError)
  {
    hide At, IsNumber, CloseQuote, BlockClose, TokenStop;
    ScalarBytes(token);
    ScalarAt(data, p, token);
    StopsAt(data, p, p + |token|);
    assert token[0] == data[p];
  }

  lemma TypedOnValue(data: seq<byte>, p: nat, v: Json)
    requires Valid(v) && Stands(data, p, v)
    requires p + Length(v) < |data| ==> EndsToken(data[p + Length(v)])
    ensures Length(v) > 0 && p + Length(v) <= |data| && !IsWs(data[p])
    ensures TypedAt(data, p) == Typed(data[p..p + Length(v)], JsonType(v), p + Length(v), NoError)
  {
    hide CloseQuote, BlockClose, TokenStop, At, IsRaw, IsBlank, IsScalarToken, ScalarType;
    hide StandElems, StandMembers, ValidElems, ValidMembers;
    StandsFits(data, p, v);
    match v
    case Scalar(token) =>
      TypedOnScalar(data, p, token);
    case Str(raw) =>
      QuotedCloses(data, p, raw);
    case _ =>
      StandsFirst(data, p, v);
      BlockEndMatches(data, p, v);
  }

  lemma {:induction false} StopsAt(data: seq<byte>, p: nat, q: nat)
    requires p <= q <= |data| && (forall k :: p <= k < q ==> !EndsToken(data[k])) && (q < |data| ==> EndsToken(data[q]))
    ensures TokenStop(data, p) == q
    decreases q - p
  {
    if p < q { StopsAt(data, p + 1, q); }
  }

  /** A hit stands in the text where it says, and a byte that ends scalars stands behind it. */
  ghost predicate HitHolds(data: seq<byte>, p: nat, f: Found)
    requires f.Hit?
  {
    var c := p + f.at + f.blank;
    && Valid(f.value) && Stands(data, c, f.value) && c <= |data|
    && (forall k :: p + f.at <= k < c ==> IsWs(data[k]))
    && (c + Length(f.value) < |data| ==> EndsToken(data[c + Length(f.value)]))
  }

  lemma HitHere(data: seq<byte>, p: nat, ms: Members)
    requires ms.Member? && ValidMembers(ms) && StandMembers(data, p, ms)
    requires p + MembersLength(ms) < |data| && data[p + MembersLength(ms)] == RBRACE
    ensures HitHolds(data, p, Hit(HeadLength(ms), |ms.post|, ms.value))
  {
    hide At, IsRaw, IsBlank, Stands, Valid, QuotedAt;
    var c := p + HeadLength(ms) + |ms.post|;
    BlankBytes(data, c - |ms.post|, ms.post);
    AfterBlank(data, c + Length(ms.value), ms.trail);
  }

  lemma ObjParts(data: seq<byte>, p: nat, v: Json)
    requires v.Obj? && Valid(v) && Stands(data, p, v)
    ensures ValidMembers(v.members) && StandMembers(data, p + 1 + |v.blank|, v.members)
    ensures var q := p + 1 + |v.blank| + MembersLength(v.members); q < |data| && data[q] == RBRACE
  {
  }

  lemma {:induction false} HitStands(data: seq<byte>, p: nat, ms: Members, path: seq<seq<byte>>)
    requires ValidMembers(ms) && StandMembers(data, p, ms) && path != []
    requires p + MembersLength(ms) < |data| && data[p + MembersLength(ms)] == RBRACE
    requires Locate(ms, path).Hit?
    ensures HitHolds(data, p, Locate(ms, path))
    decreases ms
  {
    hide Unescaped, At, IsRaw, IsBlank, HitHolds, Stands, Valid, StandsHead, Length;
    var v, c := ms.value, p + HeadLength(ms) + |ms.post|;
    if Unescaped(ms.name).value == path[0] && |path| == 1 {
      HitHere(data, p, ms);
    } else if Unescaped(ms.name).value == path[0] && v.Obj? && Locate(v.members, path[1..]).Hit? {
      ObjParts(data, c, v);
      HitStands(data, c + 1 + |v.blank|, v.members, path[1..]);
      HitMoved(data, c + 1 + |v.blank|, p, Locate(v.members, path[1..]));
    } else {
      HitStands(data, p + MemberLength(ms), ms.tail, path);
      HitMoved(data, p + MemberLength(ms), p, Locate(ms.tail, path));
    }
  }

  lemma HitMoved(data: seq<byte>, q: nat, p: nat, f: Found)
    requires p <= q && f.Hit? && HitHolds(data, q, f)
    ensures HitHolds(data, p, MoveBy(q - p, f))
  {
    hide Stands, Valid;
  }

  lemma AfterBlank(data: seq<byte>, p: nat, trail: seq<byte>)
    requires At(data, p, trail) && IsBlank(trail)
    ensures p + |trail| <= |data| && (trail != [] ==> EndsToken(data[p]))
  {
    BlankBytes(data, p, trail);
  }

  lemma HitStandsIn(data: seq<byte>, d: Document, path: seq<seq<byte>>)
    requires ValidDocument(d) && DocumentStands(data, d) && LocateIn(d, path).Hit?
    ensures HitHolds(data, 0, LocateIn(d, path))
  {
    hide IsRaw, IsScalarToken, At, Unescaped, CloseQuote, SkipBlank, IsBlank;
    if path == [] {
      BlankBytes(data, 0, d.lead);
      AfterBlank(data, |d.lead| + Length(d.root), d.trail);
    } else {
      HitStands(data, |d.lead| + 1 + |d.root.blank|, d.root.members, path);
    }
  }

  lemma StandsSlice(data: seq<byte>, p: nat, v: Json)
    requires Stands(data, p, v)
    ensures |Text(v)| == Length(v) && p + Length(v) <= |data| && data[p..p + Length(v)] == Text(v)
  {
    TextStands(data, p, v);
    AtBytes(data, p, Text(v));
  }

  /** Get on a well-formed text: the text and type of the value the tree search finds, with its position, or
      "not found". */
  lemma GetLocates(d: Document, keys: Path)
    requires ValidDocument(d)
    ensures GetAt(DocumentText(d), keys) ==
            match LocateIn(d, keys)
            case Hit(at, blank, v) => Got(Handed(v), JsonType(v), at + blank, at + blank + |Text(v)|, NoError)
            case _ => Got([], NotExist, -1, -1, KeyPathNotFound)
    ensures var f := LocateIn(d, keys);
            f.Hit? ==> var p := f.at + f.blank;
                       p + |Text(f.value)| <= |DocumentText(d)|
                       && DocumentText(d)[p..p + |Text(f.value)|] == Text(f.value)
  {
    hide Search, Locate, TypedAt, SkipBlank, DocumentStands, Stands, Valid, DocumentText;
    var f, data := LocateIn(d, keys), DocumentText(d);
    DocumentTextStands(data, d);
    SearchLocates(data, d, keys);
    if f.Hit? {
      HitStandsIn(data, d, keys);
      var p := f.at + f.blank;
      TypedOnValue(data, p, f.value);
      BlankSkipped(data, f.at, p);
      StandsSlice(data, p, f.value);
      assert TypedAt(data, p).value == Text(f.value);
      if f.value.Str? { assert Quoted(f.value.raw)[1..|f.value.raw| + 1] == f.value.raw; }
    }
  }

  // ---- Parsing and walking the path

  /** Walking a path down the tree by decoded names. */
  function Walk(v: Json, path: seq<seq<byte>>): Option<Json>
    decreases v, 1
  {
    if path == [] then Some(v)
    else if v.Obj? then WalkMembers(v.members, path)
    else None
  }

  function WalkMembers(ms: Members, path: seq<seq<byte>>): Option<Json>
    requires path != []
    decreases ms, 0
  {
    if ms.NoMember? then None
    else if Unescaped(ms.name) == Some(path[0]) then Walk(ms.value, path[1..])
    else WalkMembers(ms.tail, path)
  }

  predicate Names(ms: Members, name: Option<seq<byte>>) {
    ms.Member? && (Unescaped(ms.name) == name || Names(ms.tail, name))
  }

  /** No object of the tree has two members whose names decode alike. */
  predicate Distinct(v: Json) {
    match v
    case Arr(_, elems) => DistinctElems(elems)
    case Obj(_, members) => DistinctMembers(members)
    case _ => true
  }

  predicate DistinctElems(es: Elems) {
    es.Elem? ==> Distinct(es.value) && DistinctElems(es.tail)
  }

  predicate DistinctMembers(ms: Members) {
    ms.Member? ==>
      && (Unescaped(ms.name).Some? ==> !Names(ms.tail, Unescaped(ms.name)))
      && Distinct(ms.value) && DistinctMembers(ms.tail)
  }

  /** Every name in the tree decodes. */
  predicate Readable(v: Json) {
    v.Obj? ==> ReadableMembers(v.members)
  }

  predicate ReadableMembers(ms: Members) {
    ms.Member? ==> Unescaped(ms.name).Some? && Readable(ms.value) && ReadableMembers(ms.tail)
  }

  lemma {:induction false} UnnamedIsAbsent(ms: Members, path: seq<seq<byte>>)
    requires path != [] && !Names(ms, Some(path[0]))
    ensures !Locate(ms, path).Hit? && WalkMembers(ms, path).None?
  {
    if ms.Member? { UnnamedIsAbsent(ms.tail, path); }
  }

  lemma {:induction false} LocateWalks(ms: Members, path: seq<seq<byte>>)
    requires path != [] && DistinctMembers(ms)
    ensures match Locate(ms, path)
            case Hit(_, _, v) => WalkMembers(ms, path) == Some(v)
            case Absent => WalkMembers(ms, path).None?
            case Unreadable => !ReadableMembers(ms)
    decreases ms
  {
    if ms.Member? && Unescaped(ms.name).Some? {
      LocateWalks(ms.tail, path);
      if Unescaped(ms.name).value == path[0] {
        UnnamedIsAbsent(ms.tail, path);
        if |path| > 1 && ms.value.Obj? {
          LocateWalks(ms.value.members, path[1..]);
        }
      }
    }
  }

  // ---- Malformed names on the way

  /** A malformed name stands before every member of this name. */
  predicate Bars(ms: Members, name: seq<byte>) {
    ms.Member? && Unescaped(ms.name) != Some(name) && (Unescaped(ms.name).None? || Bars(ms.tail, name))
  }

  predicate BarsAt(v: Json, path: seq<seq<byte>>, n: nat)
    requires n < |path|
  {
    var o := Walk(v, path[..n]);
    o.Some? && o.value.Obj? && Bars(o.value.members, path[n])
  }

  /** In one of the objects that the path leads through, a malformed name stands before the member it goes on with. */
  ghost predicate Barred(v: Json, path: seq<seq<byte>>) {
    exists n :: 0 <= n < |path| && BarsAt(v, path, n)
  }

  lemma {:induction false} WalkMembersSplit(ms: Members, path: seq<seq<byte>>)
    requires path != []
    ensures WalkMembers(ms, path) ==
            match WalkMembers(ms, [path[0]]) case None => None case Some(u) => Walk(u, path[1..])
  {
    hide Unescaped;
    var first: seq<seq<byte>> := [path[0]];
    assert first[1..] == [];
    if ms.Member? { WalkMembersSplit(ms.tail, path); }
  }

  lemma BarredStep(v: Json, path: seq<seq<byte>>)
    requires v.Obj? && path != []
    ensures var u := WalkMembers(v.members, [path[0]]);
            Barred(v, path) <==> Bars(v.members, path[0]) || (u.Some? && Barred(u.value, path[1..]))
  {
    hide Bars, WalkMembers;
    var u, rest := WalkMembers(v.members, [path[0]]), path[1..];
    assert path[..0] == [];
    assert BarsAt(v, path, 0) <==> Bars(v.members, path[0]);
    forall n: nat | 1 <= n < |path|
      ensures BarsAt(v, path, n) <==> u.Some? && BarsAt(u.value, rest, n - 1)
    {
      WalkMembersSplit(v.members, path[..n]);
      assert path[..n][1..] == rest[..n - 1];
    }
    if u.Some? && Barred(u.value, rest) {
      var n :| 0 <= n < |rest| && BarsAt(u.value, rest, n);
      assert BarsAt(v, path, n + 1);
    }
  }

  /** Towards a value that exists, the search goes the way of the walk, unless it meets a malformed name first. */
  lemma {:induction false} WalkIsLocated(ms: Members, path: seq<seq<byte>>)
    requires path != [] && WalkMembers(ms, path).Some?
    ensures WalkMembers(ms, [path[0]]).Some?
    ensures var f := Locate(ms, path);
            if Bars(ms, path[0]) || Barred(WalkMembers(ms, [path[0]]).value, path[1..]) then f == Unreadable
            else f.Hit? && f.value == WalkMembers(ms, path).value
    decreases ms
  {
    hide Barred, Unescaped;
    WalkMembersSplit(ms, path);
    if Unescaped(ms.name) == Some(path[0]) {
      if |path| > 1 {
        WalkIsLocated(ms.value.members, path[1..]);
        BarredStep(ms.value, path[1..]);
      } else {
        EmptyIsNotBarred(ms.value, path[1..]);
      }
    } else if Unescaped(ms.name).Some? {
      WalkIsLocated(ms.tail, path);
    }
  }

  lemma EmptyIsNotBarred(v: Json, path: seq<seq<byte>>)
    requires path == []
    ensures !Barred(v, path)
  {
  }

  /** For a value that exists, the search of the whole text finds it, or meets a malformed name first exactly when one
      stands in its way. */
  lemma BarredInDocument(d: Document, keys: Path)
    requires Walk(d.root, keys).Some?
    ensures LocateIn(d, keys) == Unreadable <==> Barred(d.root, keys)
    ensures !Barred(d.root, keys) ==> LocateIn(d, keys).Hit? && LocateIn(d, keys).value == Walk(d.root, keys).value
  {
    hide Barred, Locate, Bars;
    if keys == [] {
      EmptyIsNotBarred(d.root, keys);
    } else {
      WalkIsLocated(d.root.members, keys);
      BarredStep(d.root, keys);
    }
  }

  lemma {:induction false} ReadableBarsNothing(ms: Members, name: seq<byte>)
    requires ReadableMembers(ms)
    ensures !Bars(ms, name)
  {
    if ms.Member? { ReadableBarsNothing(ms.tail, name); }
  }

  lemma {:induction false} ReadableBelow(ms: Members, path: seq<seq<byte>>)
    requires path != [] && ReadableMembers(ms) && WalkMembers(ms, path).Some?
    ensures Readable(WalkMembers(ms, path).value)
    decreases ms
  {
    hide Unescaped;
    if Unescaped(ms.name) != Some(path[0]) {
      ReadableBelow(ms.tail, path);
    } else if |path| > 1 {
      ReadableBelow(ms.value.members, path[1..]);
    }
  }

  lemma ReadableIsNotBarred(v: Json, path: seq<seq<byte>>)
    requires Readable(v)
    ensures !Barred(v, path)
  {
    hide Bars, WalkMembers, ReadableMembers;
    forall n: nat | n < |path| ensures !BarsAt(v, path, n) {
      var o := Walk(v, path[..n]);
      if o.Some? && o.value.Obj? {
        if n > 0 { ReadableBelow(v.members, path[..n]); }
        ReadableBarsNothing(o.value.members, path[n]);
      }
    }
  }

  /** The law of the scanner, on every well-formed text: when parsing and walking the path gives a value, Get hands out
      that value, or reports "not found" exactly when a malformed name stands in its way. When it gives none, Get
      reports "not found" on texts without duplicate names. */
  lemma GetWalks(d: Document, keys: Path)
    requires ValidDocument(d)
    ensures var g, w := GetAt(DocumentText(d), keys), Walk(d.root, keys);
            && (w.Some? && !Barred(d.root, keys) ==>
                  g.err == NoError && g.value == Handed(w.value) && g.dataType == JsonType(w.value)
                  && DocumentText(d)[g.offset..g.end] == Text(w.value))
            && (w.Some? && Barred(d.root, keys) ==> g.err == KeyPathNotFound)
            && (w.None? && Distinct(d.root) ==> g.err == KeyPathNotFound)
    ensures Readable(d.root) ==> !Barred(d.root, keys)
  {
    hide Barred, Locate, Text, DocumentText, Unescaped;
    GetLocates(d, keys);
    if Walk(d.root, keys).Some? {
      BarredInDocument(d, keys);
    } else if Distinct(d.root) && d.root.Obj? {
      LocateWalks(d.root.members, keys);
    }
    if Readable(d.root) { ReadableIsNotBarred(d.root, keys); }
  }

  // {"\ud800":0,"a":1}: a lone surrogate in an earlier name hides the member "a"
  const LONE: seq<byte> := [BACKSLASH, LOWER_U, 0x64, 0x38, 0x30, 0x30]
  const PLAIN_A: Members := Member([], [0x61], [], [], Scalar([0x31]), [], NoMember)
  const HIDING: Document := Document([], Obj([], Member([], LONE, [], [], Scalar([0x30]), [], PLAIN_A)), [])

  lemma HidingIsValid()
    ensures ValidDocument(HIDING)
  {
    assert LONE[6..] == [];
    assert IsRaw(LONE);
    assert [0x31][1..] == [] && [0x30][1..] == [] && [0x61][1..] == [];
    assert Digits([0x31]) == 1 && Digits([0x30]) == 1;
    assert IsNumber([0x31]) && IsNumber([0x30]);
    assert ValidMembers(PLAIN_A);
  }

  lemma LoneIsMalformed()
    ensures Unescaped(LONE).None?
  {
    assert LONE[6..] == [];
    assert DecodeSingle(LONE) == Some(0xD800);
  }

  lemma LoneSurrogateHidesLaterNames()
    ensures ValidDocument(HIDING) && Distinct(HIDING.root)
    ensures Walk(HIDING.root, [[0x61]]) == Some(Scalar([0x31]))
    ensures GetAt(DocumentText(HIDING), [[0x61]]).err == KeyPathNotFound
  {
    HidingIsValid();
    LoneIsMalformed();
    UnescapedPlain([0x61]);
    hide Unescaped, GetAt, DocumentText, ValidDocument;
    var keys: Path := [[0x61]];
    assert keys[1..] == [];
    assert WalkMembers(PLAIN_A, keys) == Some(Scalar([0x31]));
    assert DistinctMembers(PLAIN_A);
    assert DistinctMembers(HIDING.root.members);
    assert Locate(HIDING.root.members, keys) == Unreadable;
    GetLocates(HIDING, keys);
  }
}
