/** Set on one plain key (src/json/parser.go) and the attribute store of a multi-node request built on it
    (src/proxy/multi.go): Set and Get form a lens on well-formed object texts. */
module JsonSet {
  import opened Bytes
  import opened JsonEscape
  import opened JsonText
  import opened JsonStands
  import opened JsonScan
  import opened JsonLookup

  // ---- The text that Set inserts

  /** A key that is written into the text as it is: not empty, no quote, no backslash, no leading bracket. */
  predicate Plain(key: seq<byte>) {
    key != [] && key[0] != LBRACKET && !Has(key, BACKSLASH) && !Has(key, QUOTE)
  }

  type Key = key: seq<byte> | |key| > 0 && key[0] != LBRACKET witness [0]

  /** The components of a path as Set gets them: names, and array indices written with a leading bracket. */
  type Components = keys: seq<seq<byte>> | forall k :: 0 <= k < |keys| ==> |keys[k]| > 0

  predicate IsIndex(key: seq<byte>)
    requires key != []
  {
    key[0] == LBRACKET
  }

  function Name(key: seq<byte>): seq<byte> {
    [QUOTE] + key + [QUOTE, COLON]
  }

  function Opening(key: seq<byte>): seq<byte>
    requires key != []
  {
    if IsIndex(key) then [LBRACKET] else [LBRACE] + Name(key)
  }

  /** What opens a new object or array for each component. */
  function Openings(keys: Components): seq<byte> {
    if keys == [] then [] else Opening(keys[0]) + Openings(keys[1..])
  }

  function Closing(key: seq<byte>): byte
    requires key != []
  {
    if IsIndex(key) then RBRACKET else RBRACE
  }

  /** The brackets that close them again, the innermost first. */
  function Closings(keys: Components): (s: seq<byte>)
    ensures |s| == |keys|
  {
    if keys == [] then [] else Closings(keys[1..]) + [Closing(keys[0])]
  }

  function HeadText(key: seq<byte>, comma: bool, braced: bool): seq<byte>
    requires key != []
  {
    (if comma then [COMMA] else []) +
    (if IsIndex(key) && !comma then [LBRACKET]
     else (if braced then [LBRACE] else []) + if IsIndex(key) then [] else Name(key))
  }

  function TailText(key: seq<byte>, comma: bool, braced: bool): seq<byte>
    requires key != []
  {
    if IsIndex(key) then if comma then [] else [RBRACKET] else if braced then [RBRACE] else []
  }

  /** {"k1":{"k2":…value…}}, with the outer braces only for an object that replaces something, and with brackets
      where a component is an index. */
  function InsertText(keys: Components, value: seq<byte>, comma: bool, braced: bool): seq<byte>
    requires |keys| > 0
  {
    HeadText(keys[0], comma, braced) + Openings(keys[1..]) + value + Closings(keys[1..])
    + TailText(keys[0], comma, braced)
  }

  lemma OpeningLength(keys: Components, i: nat)
    requires i < |keys|
    ensures |Openings(keys[i..])| == |Openings(keys[i + 1..])| + if IsIndex(keys[i]) then 1 else |keys[i]| + 4
  {
    assert keys[i..][1..] == keys[i + 1..];
  }

  method CalcAllocateSpace(keys: Components, value: seq<byte>, comma: bool, braced: bool) returns (lk: nat)
    requires |keys| > 0
    ensures lk == |InsertText(keys, value, comma, braced)|
  {
    hide Opening;
    var isIndex := keys[0][0] == LBRACKET;
    lk := 0;
    if comma {
      lk := lk + 1;
    }
    if isIndex && !comma {
      lk := lk + 2;
    } else {
      if braced {
        lk := lk + 1;
      }
      if !isIndex {
        lk := lk + |keys[0]| + 3;
      }
    }
    lk := lk + |value|;
    var i, start := 1, lk;
    while i < |keys|
      invariant 1 <= i <= |keys|
      invariant lk + |Openings(keys[i..])| + (|keys| - i) == start + |Openings(keys[1..])| + (|keys| - 1)
    {
      OpeningLength(keys, i);
      if keys[i][0] == LBRACKET {
        lk := lk + 2;
      } else {
        lk := lk + |keys[i]| + 5;
      }
      i := i + 1;
    }
    assert keys[i..] == [];
    if braced && !isIndex {
      lk := lk + 1;
    }
  }

  /** WriteToBuffer at a moving offset. */
  method Put(buffer: array<byte>, offset: nat, s: seq<byte>) returns (offset': nat)
    requires offset + |s| <= buffer.Length
    modifies buffer
    ensures offset' == offset + |s| && buffer[..offset'] == old(buffer[..offset]) + s
  {
    CopyInto(buffer, offset, s);
    assert buffer[..offset + |s|] == buffer[..offset] + buffer[offset..offset + |s|];
    return offset + |s|;
  }

  method PutName(buffer: array<byte>, at: nat, key: seq<byte>) returns (offset: nat)
    requires at + |Name(key)| <= buffer.Length
    modifies buffer
    ensures offset == at + |Name(key)| && buffer[..offset] == old(buffer[..at]) + Name(key)
  {
    offset := Put(buffer, at, [QUOTE]);
    offset := Put(buffer, offset, key);
    offset := Put(buffer, offset, [QUOTE, COLON]);
  }

  method PutHead(buffer: array<byte>, key: seq<byte>, comma: bool, braced: bool) returns (offset: nat)
    requires key != [] && |HeadText(key, comma, braced)| <= buffer.Length
    modifies buffer
    ensures offset == |HeadText(key, comma, braced)| && buffer[..offset] == HeadText(key, comma, braced)
  {
    hide Name;
    offset := 0;
    if comma {
      offset := Put(buffer, offset, [COMMA]);
    }
    if key[0] == LBRACKET && !comma {
      offset := Put(buffer, offset, [LBRACKET]);
    } else {
      if braced {
        offset := Put(buffer, offset, [LBRACE]);
      }
      if key[0] != LBRACKET {
        offset := PutName(buffer, offset, key);
      }
    }
  }

  method PutOpening(buffer: array<byte>, at: nat, key: seq<byte>) returns (offset: nat)
    requires key != [] && at + |Opening(key)| <= buffer.Length
    modifies buffer
    ensures offset == at + |Opening(key)| && buffer[..offset] == old(buffer[..at]) + Opening(key)
  {
    hide Name;
    if key[0] == LBRACKET {
      offset := Put(buffer, at, [LBRACKET]);
    } else {
      offset := Put(buffer, at, [LBRACE]);
      offset := PutName(buffer, offset, key);
    }
  }

  /** The loop of createInsertComponent over the inner keys. */
  method PutOpenings(buffer: array<byte>, at: nat, keys: Components) returns (offset: nat)
    requires |keys| > 0 && at + |Openings(keys[1..])| <= buffer.Length
    modifies buffer
    ensures offset == at + |Openings(keys[1..])| && buffer[..offset] == old(buffer[..at]) + Openings(keys[1..])
  {
    hide Opening;
    offset := at;
    ghost var done := [];
    var i := 1;
    while i < |keys|
      invariant 1 <= i <= |keys|
      invariant done + Openings(keys[i..]) == Openings(keys[1..])
      invariant offset == at + |done| && buffer[..offset] == old(buffer[..at]) + done
    {
      assert keys[i..][1..] == keys[i + 1..];
      offset := PutOpening(buffer, offset, keys[i]);
      done := done + Opening(keys[i]);
      i := i + 1;
    }
    assert done == Openings(keys[1..]);
  }

  /** The loop of createInsertComponent over the closing brackets. */
  method PutClosings(buffer: array<byte>, at: nat, keys: Components) returns (offset: nat)
    requires |keys| > 0 && at + |keys| - 1 <= buffer.Length
    modifies buffer
    ensures offset == at + |keys| - 1 && buffer[..offset] == old(buffer[..at]) + Closings(keys[1..])
  {
    offset := at;
    var i := |keys| - 1;
    while i > 0
      invariant 0 <= i < |keys| && offset == at + |keys| - 1 - i
      invariant buffer[..offset] == old(buffer[..at]) + Closings(keys[i + 1..])
    {
      assert keys[i..][1..] == keys[i + 1..];
      if keys[i][0] == LBRACKET {
        offset := Put(buffer, offset, [RBRACKET]);
      } else {
        offset := Put(buffer, offset, [RBRACE]);
      }
      i := i - 1;
    }
  }

  /** createInsertComponent fills its buffer exactly. */
  method CreateInsertComponent(keys: Components, value: seq<byte>, comma: bool, braced: bool)
    returns (buffer: array<byte>)
    requires |keys| > 0
    ensures fresh(buffer) && buffer[..] == InsertText(keys, value, comma, braced)
  {
    hide HeadText, Openings, Closings;
    var isIndex := keys[0][0] == LBRACKET;
    var lk := CalcAllocateSpace(keys, value, comma, braced);
    buffer := new byte[lk](_ => 0);
    var offset := PutHead(buffer, keys[0], comma, braced);
    offset := PutOpenings(buffer, offset, keys);
    offset := Put(buffer, offset, value);
    offset := PutClosings(buffer, offset, keys);
    if isIndex && !comma {
      offset := Put(buffer, offset, [RBRACKET]);
    }
    if braced && !isIndex {
      offset := Put(buffer, offset, [RBRACE]);
    }
    assert buffer[..] == buffer[..offset];
  }

  // ---- Set

  /** The last position that holds no white space, or -1. */
  function LastTokenAt(data: seq<byte>, n: nat): (r: int)
    requires n <= |data|
    ensures -1 <= r < n
  {
    if n == 0 then -1 else if IsWs(data[n - 1]) then LastTokenAt(data, n - 1) else n - 1
  }

  lemma {:induction false} LastTokenIs(data: seq<byte>, n: nat, r: int)
    requires -1 <= r < n <= |data| || (r == -1 && n == 0)
    requires (forall k :: r < k < n ==> IsWs(data[k])) && (r >= 0 ==> !IsWs(data[r]))
    ensures LastTokenAt(data, n) == r
  {
    if n > 0 && r < n - 1 { LastTokenIs(data, n - 1, r); }
  }

  /** Set on one key: None stands for the error returns. */
  function SetAt(data: seq<byte>, value: seq<byte>, key: Key): Option<seq<byte>> {
    var g := GetAt(data, [key]);
    if g.err == NoError then Some(data[..g.offset] + value + data[g.end..])
    else if g.err != KeyPathNotFound then None
    else
      var first := NextTokenAt(data, 0);
      if first == -1 || data[first] != LBRACE then None
      else
        var next := NextTokenAt(data, first + 1);
        var comma := next == -1 || data[next] != RBRACE;
        var end := LastTokenAt(data, |data|);
        if end == -1 then None else Some(data[..end] + InsertText([key], value, comma, false) + data[end..])
  }

  method Set(data: seq<byte>, setValue: seq<byte>, key: Key) returns (r: Option<seq<byte>>)
    ensures r == SetAt(data, setValue, key)
  {
    hide GetAt, InsertText, LastTokenAt;
    var g := InternalGet(data, [key]);
    if g.err != NoError {
      if g.err != KeyPathNotFound {
        return None;
      }
      // no sub-path of a single key exists: depth stays 0 and the end offset -1
      var firstToken := NextToken(data, 0);
      if firstToken < 0 || data[firstToken] != LBRACE {
        return None;
      }
      var comma := true;
      var next := NextToken(data, firstToken + 1);
      var secondToken := firstToken + 1 + next;
      if data[secondToken] == RBRACE {
        comma := false;
      }
      var endOffset := LastToken(data);
      LastTokenIs(data, |data|, endOffset);
      var component := CreateInsertComponent([key], setValue, comma, false);
      return Some(data[..endOffset] + component[..] + data[endOffset..]);
    }
    var startComponent, endComponent := data[..g.offset], data[g.end..];
    return Some(startComponent + setValue + endComponent);
  }

  // ---- Set on trees

  function Replace(ms: Members, key: seq<byte>, e: Document): Members {
    match ms
    case NoMember => ms
    case Member(lead, name, mid, post, v, trail, tail) =>
      if Unescaped(name) == Some(key) then Member(lead, name, mid, post + e.lead, e.root, e.trail + trail, tail)
      else Member(lead, name, mid, post, v, trail, Replace(tail, key, e))
  }

  function Append(ms: Members, key: seq<byte>, e: Document): Members {
    match ms
    case NoMember => Member([], key, [], e.lead, e.root, e.trail, NoMember)
    case Member(lead, name, mid, post, v, trail, tail) =>
      Member(lead, name, mid, post, v, trail, Append(tail, key, e))
  }

  /** The tree of an object text after a member is set: its first member of that name gets the value, or a new
      member goes to the end. */
  function SetMember(ms: Members, key: seq<byte>, e: Document): Members {
    if Locate(ms, [key]).Hit? then Replace(ms, key, e) else Append(ms, key, e)
  }

  function SetIn(d: Document, key: seq<byte>, e: Document): Document
    requires d.root.Obj?
  {
    Document(d.lead, Obj(d.root.blank, SetMember(d.root.members, key, e)), d.trail)
  }

  ghost predicate Spliced(t: seq<byte>, i: nat, n: nat, mid: seq<byte>, result: seq<byte>) {
    i + n <= |t| && result == t[..i] + mid + t[i + n..]
  }

  lemma SplicedBehind(p: seq<byte>, t: seq<byte>, i: nat, n: nat, mid: seq<byte>, result: seq<byte>)
    requires Spliced(t, i, n, mid, result)
    ensures Spliced(p + t, |p| + i, n, mid, p + result)
  {
    assert (p + t)[..|p| + i] == p + t[..i];
    assert (p + t)[|p| + i + n..] == t[i + n..];
    assert p + (t[..i] + mid + t[i + n..]) == (p + t[..i]) + mid + t[i + n..];
  }

  /** Replacing in the tree is cutting and splicing in the text. */
  lemma {:induction false} ReplaceText(ms: Members, key: seq<byte>, e: Document)
    requires Locate(ms, [key]).Hit?
    ensures var f := Locate(ms, [key]);
            Spliced(MembersText(ms), f.at + f.blank, |Text(f.value)|, DocumentText(e), MembersText(Replace(ms, key, e)))
  {
    hide Unescaped, DocumentText, Text, Spliced;
    if Unescaped(ms.name).value == key {
      hide MembersText;
      ReplaceHead(ms, key, e);
    } else {
      ReplaceText(ms.tail, key, e);
      MemberLengthIs(ms);
      var p := ms.lead + Quoted(ms.name) + ms.mid + [COLON] + ms.post + Text(ms.value) + ms.trail
               + Separator(ms.tail.NoMember?);
      var f := Locate(ms.tail, [key]);
      SplicedBehind(p, MembersText(ms.tail), f.at + f.blank, |Text(f.value)|, DocumentText(e),
                    MembersText(Replace(ms.tail, key, e)));
      assert Replace(ms, key, e).tail.NoMember? == ms.tail.NoMember?;
    }
  }

  lemma MemberLengthIs(ms: Members)
    requires ms.Member?
    ensures var head := ms.lead + Quoted(ms.name) + ms.mid + [COLON] + ms.post;
            |head| == HeadLength(ms) + |ms.post|
            && |head + Text(ms.value) + ms.trail + Separator(ms.tail.NoMember?)| == MemberLength(ms)
  {
    TextStands([], 0, ms.value);
  }

  lemma SplicedMiddle(h: seq<byte>, post: seq<byte>, v: seq<byte>, rest: seq<byte>, e: seq<byte>, lead: seq<byte>,
                      w: seq<byte>, trail: seq<byte>)
    requires e == lead + w + trail
    ensures Spliced(((h + post) + v) + rest, |h| + |post|, |v|, e, ((h + (post + lead)) + w) + (trail + rest))
  {
    var t := ((h + post) + v) + rest;
    assert t[..|h| + |post|] == h + post;
    assert t[|h| + |post| + |v|..] == rest;
  }

  lemma ReplaceHead(ms: Members, key: seq<byte>, e: Document)
    requires ms.Member? && Unescaped(ms.name) == Some(key)
    ensures Spliced(MembersText(ms), HeadLength(ms) + |ms.post|, |Text(ms.value)|, DocumentText(e),
                    MembersText(Replace(ms, key, e)))
  {
    hide Unescaped, Text, Spliced;
    var h := ms.lead + Quoted(ms.name) + ms.mid + [COLON];
    var rest := ms.trail + (Separator(ms.tail.NoMember?) + MembersText(ms.tail));
    var v, w := Text(ms.value), Text(e.root);
    assert MembersText(ms) == ((h + ms.post) + v) + rest;
    assert MembersText(Replace(ms, key, e)) == ((h + (ms.post + e.lead)) + w) + (e.trail + rest);
    SplicedMiddle(h, ms.post, v, rest, DocumentText(e), e.lead, w, e.trail);
  }

  lemma {:induction false} AppendText(ms: Members, key: Key, e: Document)
    ensures MembersText(Append(ms, key, e)) == MembersText(ms) + HeadText(key, ms.Member?, false) + DocumentText(e)
  {
    hide Text, HeadText, DocumentText, Quoted;
    match ms
    case NoMember =>
      FirstMemberText(key, e);
    case Member(lead, name, mid, post, v, trail, tail) =>
      AppendText(tail, key, e);
      var p := lead + Quoted(name) + mid + [COLON] + post + Text(v) + trail;
      HeadComma(key);
      assert MembersText(ms) == p + Separator(tail.NoMember?) + MembersText(tail);
      assert MembersText(Append(ms, key, e)) == p + [COMMA] + MembersText(Append(tail, key, e));
      Regroup(p, MembersText(tail), HeadText(key, tail.Member?, false), HeadText(key, true, false), DocumentText(e),
              tail.NoMember?);
  }

  lemma FirstMemberText(key: Key, e: Document)
    ensures MembersText(Append(NoMember, key, e)) == [] + HeadText(key, false, false) + DocumentText(e)
  {
    hide Text, HeadText, Quoted;
    var w := Text(e.root);
    assert MembersText(Append(NoMember, key, e))
        == ((((((([] + Quoted(key)) + []) + [COLON]) + e.lead) + w) + e.trail) + []) + [];
    HeadIsName(key);
  }

  lemma HeadIsName(key: Key)
    ensures HeadText(key, false, false) == Quoted(key) + [COLON]
  {
  }

  lemma HeadComma(key: Key)
    ensures HeadText(key, true, false) == [COMMA] + HeadText(key, false, false)
  {
  }

  lemma Regroup(p: seq<byte>, t: seq<byte>, head: seq<byte>, comma: seq<byte>, e: seq<byte>, first: bool)
    requires if first then t == [] && comma == [COMMA] + head else comma == head
    ensures p + [COMMA] + (t + head + e) == (p + Separator(first) + t) + comma + e
  {
  }

  lemma SplicedAhead(t: seq<byte>, q: seq<byte>, i: nat, n: nat, mid: seq<byte>, result: seq<byte>)
    requires Spliced(t, i, n, mid, result)
    ensures Spliced(t + q, i, n, mid, result + q)
  {
    assert (t + q)[..i] == t[..i] && (t + q)[i + n..] == t[i + n..] + q;
  }

  /** The two halves of an object text around its members. */
  function Before(d: Document): seq<byte>
    requires d.root.Obj?
  {
    d.lead + [LBRACE] + d.root.blank
  }

  lemma ObjectText(d: Document)
    requires d.root.Obj?
    ensures DocumentText(d) == (Before(d) + MembersText(d.root.members)) + ([RBRACE] + d.trail)
  {
  }

  lemma SetReplaces(d: Document, key: Key, e: Document)
    requires ValidDocument(d) && d.root.Obj? && LocateIn(d, [key]).Hit?
    ensures SetAt(DocumentText(d), DocumentText(e), key) == Some(DocumentText(SetIn(d, key, e)))
  {
    hide Locate, Replace, MembersText, Text, GetAt, Valid, DocumentText;
    var ms := d.root.members;
    GetLocates(d, [key]);
    ReplaceText(ms, key, e);
    var f := Locate(ms, [key]);
    ObjectText(d);
    ObjectText(SetIn(d, key, e));
    var i, n := f.at + f.blank, |Text(f.value)|;
    var after := MembersText(Replace(ms, key, e));
    SplicedBehind(Before(d), MembersText(ms), i, n, DocumentText(e), after);
    SplicedAhead(Before(d) + MembersText(ms), [RBRACE] + d.trail, |Before(d)| + i, n, DocumentText(e),
                 Before(d) + after);
  }

  /** The tokens that Set looks at when the key is new: the opening brace, what follows it, the closing brace. */
  lemma SetTokens(data: seq<byte>, d: Document)
    requires ValidDocument(d) && d.root.Obj? && DocumentStands(data, d)
    ensures |d.lead| + 1 <= |data| && NextTokenAt(data, 0) == |d.lead| && data[|d.lead|] == LBRACE
    ensures var next := NextTokenAt(data, |d.lead| + 1);
            next != -1 && (data[next] == RBRACE <==> d.root.members.NoMember?)
    ensures LastTokenAt(data, |data|) == |d.lead| + Length(d.root) - 1
  {
    hide Length, Valid, ValidMembers, Stands, StandMembers, At, IsBlank, SkipBlank, LastTokenAt;
    var p := |d.lead|;
    ObjectEdges(data, p, d.root);
    BlankBytes(data, 0, d.lead);
    BlankSkipped(data, 0, p);
    BlankBytes(data, p + Length(d.root), d.trail);
    LastTokenIs(data, |data|, p + Length(d.root) - 1);
  }

  lemma ObjectEdges(data: seq<byte>, p: nat, v: Json)
    requires v.Obj? && Valid(v) && Stands(data, p, v)
    ensures 2 <= Length(v) && p + Length(v) <= |data|
    ensures data[p] == LBRACE && data[p + Length(v) - 1] == RBRACE
    ensures var next := NextTokenAt(data, p + 1);
            next != -1 && (data[next] == RBRACE <==> v.members.NoMember?)
  {
    hide At, IsBlank, SkipBlank, IsRaw, Unescaped;
    var q := p + 1 + |v.blank|;
    BlankBytes(data, p + 1, v.blank);
    if v.members.NoMember? {
      BlankSkipped(data, p + 1, q);
    } else {
      BlankBytes(data, q, v.members.lead);
      BlankSkipped(data, p + 1, q + |v.members.lead|);
    }
  }

  lemma SetAppends(d: Document, key: Key, e: Document)
    requires ValidDocument(d) && d.root.Obj? && !LocateIn(d, [key]).Hit?
    ensures SetAt(DocumentText(d), DocumentText(e), key) == Some(DocumentText(SetIn(d, key, e)))
  {
    hide Locate, Append, MembersText, Text, GetAt, DocumentText, NextTokenAt, LastTokenAt, Length, Stands, Valid;
    var data, ms := DocumentText(d), d.root.members;
    GetLocates(d, [key]);
    DocumentTextStands(data, d);
    SetTokens(data, d);
    AppendText(ms, key, e);
    ObjectText(d);
    ObjectText(SetIn(d, key, e));
    var end := |d.lead| + Length(d.root) - 1;
    assert Before(SetIn(d, key, e)) == Before(d);
    assert end == |Before(d) + MembersText(ms)|;
    assert data[..end] == Before(d) + MembersText(ms) && data[end..] == [RBRACE] + d.trail;
    InsertOne(key, DocumentText(e), ms.Member?);
    var head := HeadText(key, ms.Member?, false);
    assert (Before(d) + MembersText(ms)) + (head + DocumentText(e))
        == Before(d) + (MembersText(ms) + head + DocumentText(e));
  }

  lemma InsertOne(key: Key, value: seq<byte>, comma: bool)
    ensures InsertText([key], value, comma, false) == HeadText(key, comma, false) + value
  {
    assert [key][1..] == [];
  }

  /** On every well-formed object text Set does to the text what SetIn does to the tree. */
  lemma SetEdits(d: Document, key: Key, e: Document)
    requires ValidDocument(d) && d.root.Obj?
    ensures SetAt(DocumentText(d), DocumentText(e), key) == Some(DocumentText(SetIn(d, key, e)))
  {
    if LocateIn(d, [key]).Hit? { SetReplaces(d, key, e); } else { SetAppends(d, key, e); }
  }

  /** On other well-formed texts Set reports an error. */
  lemma SetNeedsObject(d: Document, key: Key, value: seq<byte>)
    requires ValidDocument(d) && !d.root.Obj?
    ensures SetAt(DocumentText(d), value, key) == None
  {
    hide Locate, Text, GetAt, LastTokenAt, IsRaw, IsScalarToken, StandElems, ValidElems;
    var data, p := DocumentText(d), |d.lead|;
    GetLocates(d, [key]);
    DocumentTextStands(data, d);
    BlankBytes(data, 0, d.lead);
    match d.root {
      case Scalar(token) =>
        ScalarAt(data, p, token);
        BlankSkipped(data, 0, p);
      case Str(_) =>
        StandsFirst(data, p, d.root);
        BlankSkipped(data, 0, p);
      case Arr(_, _) =>
        StandsFirst(data, p, d.root);
        BlankSkipped(data, 0, p);
    }
  }

  // ---- Set keeps the text well-formed

  lemma {:induction false} PlainIsRaw(key: seq<byte>)
    requires !Has(key, BACKSLASH) && !Has(key, QUOTE)
    ensures IsRaw(key)
  {
    if key != [] {
      assert !Has(key[1..], BACKSLASH) && !Has(key[1..], QUOTE) by {
        assert forall k :: 0 <= k < |key| - 1 ==> key[1..][k] == key[k + 1];
      }
      PlainIsRaw(key[1..]);
    }
  }

  lemma {:induction false} ReplaceValid(ms: Members, key: seq<byte>, e: Document)
    requires ValidMembers(ms) && ValidDocument(e)
    ensures ValidMembers(Replace(ms, key, e))
    ensures StrictMembers(ms) && Strict(e.root) ==> StrictMembers(Replace(ms, key, e))
  {
    hide IsRaw, Unescaped, Valid, Strict;
    if ms.Member? && Unescaped(ms.name) != Some(key) { ReplaceValid(ms.tail, key, e); }
  }

  lemma {:induction false} AppendValid(ms: Members, key: seq<byte>, e: Document)
    requires ValidMembers(ms) && ValidDocument(e) && IsRaw(key)
    ensures ValidMembers(Append(ms, key, e))
    ensures StrictMembers(ms) && Strict(e.root) && NoControl(key) ==> StrictMembers(Append(ms, key, e))
  {
    hide IsRaw, Unescaped, Valid, Strict;
    if ms.Member? { AppendValid(ms.tail, key, e); }
  }

  // ---- The text inserted for several components

  /** A value inside new objects and arrays, one for each component, the first outermost. */
  function Nest(keys: Components, e: Document): Document {
    if keys == [] then e
    else
      var inner := Nest(keys[1..], e);
      if IsIndex(keys[0]) then Document([], Arr([], Elem(inner.lead, inner.root, inner.trail, NoElem)), [])
      else Document([], Obj([], Member([], keys[0], [], inner.lead, inner.root, inner.trail, NoMember)), [])
  }

  lemma NestStep(keys: Components, e: Document)
    requires keys != []
    ensures DocumentText(Nest(keys, e))
         == Opening(keys[0]) + DocumentText(Nest(keys[1..], e)) + [Closing(keys[0])]
  {
    var inner := Nest(keys[1..], e);
    hide Text;
    if IsIndex(keys[0]) {
      ArrayText(inner);
      BareText(Arr([], Elem(inner.lead, inner.root, inner.trail, NoElem)));
    } else {
      MemberText(keys[0], inner);
      BareText(Obj([], Member([], keys[0], [], inner.lead, inner.root, inner.trail, NoMember)));
    }
  }

  lemma BareText(v: Json)
    ensures DocumentText(Document([], v, [])) == Text(v)
  {
    hide Text;
    var t := Text(v);
    assert [] + t + [] == t;
  }

  lemma {:induction false} NestText(keys: Components, e: Document)
    ensures Openings(keys) + DocumentText(e) + Closings(keys) == DocumentText(Nest(keys, e))
  {
    hide DocumentText, Opening;
    if keys == [] {
      assert [] + DocumentText(e) + [] == DocumentText(e);
    } else {
      NestText(keys[1..], e);
      NestStep(keys, e);
      hide Nest;
      Rebracket(Opening(keys[0]), Openings(keys[1..]), DocumentText(e), Closings(keys[1..]), [Closing(keys[0])]);
    }
  }

  lemma Rebracket(a: seq<byte>, b: seq<byte>, c: seq<byte>, d: seq<byte>, e: seq<byte>)
    ensures (a + b) + c + (d + e) == a + ((b + c) + d) + e
  {
  }

  lemma ArrayText(d: Document)
    ensures Text(Arr([], Elem(d.lead, d.root, d.trail, NoElem))) == [LBRACKET] + DocumentText(d) + [RBRACKET]
  {
    var w := Text(d.root);
    assert ElemsText(Elem(d.lead, d.root, d.trail, NoElem)) == d.lead + w + d.trail + [] + [];
  }

  lemma MemberText(key: seq<byte>, d: Document)
    ensures Text(Obj([], Member([], key, [], d.lead, d.root, d.trail, NoMember)))
         == ([LBRACE] + Name(key)) + DocumentText(d) + [RBRACE]
  {
    var w := Text(d.root);
    assert MembersText(Member([], key, [], d.lead, d.root, d.trail, NoMember))
        == [] + Quoted(key) + [] + [COLON] + d.lead + w + d.trail + [] + [];
    assert Name(key) == Quoted(key) + [COLON];
  }

  /** What is inserted for several components is one member, or one element, that holds the value inside as many
      objects and arrays as there are components left. */
  lemma InsertNests(keys: Components, e: Document, comma: bool, braced: bool)
    requires |keys| > 0
    ensures InsertText(keys, DocumentText(e), comma, braced)
         == HeadText(keys[0], comma, braced) + DocumentText(Nest(keys[1..], e)) + TailText(keys[0], comma, braced)
  {
    hide HeadText, TailText, Openings, Closings, DocumentText, Nest;
    NestText(keys[1..], e);
    assert ((HeadText(keys[0], comma, braced) + Openings(keys[1..])) + DocumentText(e)) + Closings(keys[1..])
        == HeadText(keys[0], comma, braced) + ((Openings(keys[1..]) + DocumentText(e)) + Closings(keys[1..]));
  }

  // ---- Set and the paths of the text

  /** A key that Set can put in: plain, or the name of a member that the search reaches. */
  predicate Settable(ms: Members, key: Key) {
    Plain(key) || (Names(ms, Some(key)) && !Bars(ms, key))
  }

  lemma {:induction false} HitIsNamed(ms: Members, key: Key)
    ensures Locate(ms, [key]).Hit? <==> Names(ms, Some(key)) && !Bars(ms, key)
    ensures Locate(ms, [key]) == Unreadable <==> Bars(ms, key)
  {
    hide Unescaped;
    if ms.Member? { HitIsNamed(ms.tail, key); }
  }

  /** Two searches with the same outcome, wherever in their texts. */
  predicate Alike(f: Found, g: Found) {
    if f.Hit? && g.Hit? then f.value == g.value else f == g
  }

  /** The outcome of a search depends on a member's name and value, and on the outcome behind it. */
  lemma LocateMember(ms: Members, ms': Members, path: seq<seq<byte>>)
    requires ms.Member? && ms'.Member? && path != [] && ms.name == ms'.name
    requires ms.value == ms'.value || (Unescaped(ms.name).Some? && Unescaped(ms.name).value != path[0])
    requires Alike(Locate(ms.tail, path), Locate(ms'.tail, path))
    ensures Alike(Locate(ms, path), Locate(ms', path))
  {
    hide Unescaped, MemberLength, HeadLength;
  }

  lemma AlikeItself(f: Found)
    ensures Alike(f, f)
  {
  }

  /** Paths under another name do not notice Set. */
  lemma {:induction false} ReplacedElsewhere(ms: Members, key: Key, e: Document, path: seq<seq<byte>>)
    requires path != [] && path[0] != key
    ensures Alike(Locate(Replace(ms, key, e), path), Locate(ms, path))
  {
    hide Unescaped, Locate, Alike;
    AlikeItself(Locate(ms, path));
    if ms.Member? {
      AlikeItself(Locate(ms.tail, path));
      if Unescaped(ms.name) != Some(key) { ReplacedElsewhere(ms.tail, key, e, path); }
      LocateMember(Replace(ms, key, e), ms, path);
    }
  }

  lemma {:induction false} AppendedElsewhere(ms: Members, key: Key, e: Document, path: seq<seq<byte>>)
    requires Plain(key) && path != [] && path[0] != key
    ensures Alike(Locate(Append(ms, key, e), path), Locate(ms, path))
  {
    hide Unescaped, Locate, Alike;
    if ms.Member? {
      AppendedElsewhere(ms.tail, key, e, path);
      LocateMember(Append(ms, key, e), ms, path);
    } else {
      OneElsewhere(key, e, path);
    }
  }

  lemma OneElsewhere(key: Key, e: Document, path: seq<seq<byte>>)
    requires Plain(key) && path != [] && path[0] != key
    ensures Alike(Locate(Append(NoMember, key, e), path), Locate(NoMember, path))
  {
    UnescapedPlain(key);
    hide Unescaped;
  }

  /** The members behind the first one of a name. */
  function Behind(ms: Members, name: seq<byte>): Members {
    if ms.NoMember? then ms else if Unescaped(ms.name) == Some(name) then ms.tail else Behind(ms.tail, name)
  }

  /** Paths under the name that is set lead into the new value, and on to later members of that name when they end
      in it; a malformed name before the member's place ends every search. */
  lemma {:induction false} LocateThrough(ms: Members, key: Key, e: Document, path: seq<seq<byte>>)
    requires Settable(ms, key) && path != [] && path[0] == key
    ensures Locate(ms, [key]) == Unreadable <==> Bars(ms, key)
    ensures var f, inner := Locate(SetMember(ms, key, e), path), LocateIn(e, path[1..]);
            if Bars(ms, key) then f == Unreadable
            else Alike(f, if inner == Absent then Locate(Behind(ms, key), path) else inner)
  {
    if Plain(key) { UnescapedPlain(key); }
    HitIsNamed(ms, key);
    hide Unescaped, Plain;
    if ms.Member? && Unescaped(ms.name).Some? && Unescaped(ms.name).value != key {
      HitIsNamed(ms.tail, key);
      LocateThrough(ms.tail, key, e, path);
    }
  }

  /** The same answer of Get: error, value and type, but not the offsets. */
  predicate Same(g: Got, h: Got) {
    g.err == h.err && g.value == h.value && g.dataType == h.dataType
  }

  lemma AlikeSame(d: Document, p: Path, e: Document, q: Path)
    requires ValidDocument(d) && ValidDocument(e)
    requires Alike(LocateIn(d, p), LocateIn(e, q)) || (!LocateIn(d, p).Hit? && !LocateIn(e, q).Hit?)
    ensures Same(GetAt(DocumentText(d), p), GetAt(DocumentText(e), q))
  {
    hide LocateIn, GetAt, DocumentText, ValidDocument;
    GetLocates(d, p);
    GetLocates(e, q);
  }

  lemma {:induction false} BehindIsValid(ms: Members, key: seq<byte>)
    requires ValidMembers(ms)
    ensures ValidMembers(Behind(ms, key))
  {
    hide IsRaw, Unescaped, Valid;
    if ms.Member? { BehindIsValid(ms.tail, key); }
  }

  /** The object of the members behind the first one of a name, as a text of its own. */
  function Rest(d: Document, key: seq<byte>): Document
    requires d.root.Obj?
  {
    Document([], Obj([], Behind(d.root.members, key)), [])
  }

  /** The lens law, for all well-formed texts and all keys that Set can put in: the text stays well-formed. Afterwards
      a path that starts with another name reads as before. A path that starts with the key reads as the rest of it
      does in the new value; if that ends nowhere, it is looked for in later members of the key's name; and it is not
      found if a malformed name stands before the key's member. */
  lemma SetThenGet(d: Document, key: Key, e: Document, path: Path)
    requires ValidDocument(d) && d.root.Obj? && ValidDocument(e) && Settable(d.root.members, key) && |path| > 0
    ensures var d' := SetIn(d, key, e);
            && SetAt(DocumentText(d), DocumentText(e), key) == Some(DocumentText(d'))
            && ValidDocument(d') && (Strict(d.root) && Strict(e.root) && NoControl(key) ==> Strict(d'.root))
    ensures var got := GetAt(DocumentText(SetIn(d, key, e)), path);
            if path[0] != key then Same(got, GetAt(DocumentText(d), path))
            else if Bars(d.root.members, key) then got.err == KeyPathNotFound
            else if LocateIn(e, path[1..]) == Absent then Same(got, GetAt(DocumentText(Rest(d, key)), path))
            else Same(got, GetAt(DocumentText(e), path[1..]))
  {
    hide *;
    SetEdits(d, key, e);
    SetIsValid(d, key, e);
    var d' := SetIn(d, key, e);
    if path[0] != key {
      ElsewhereIn(d, key, e, path);
      AlikeSame(d', path, d, path);
    } else {
      ThroughIn(d, key, e, path);
      if Bars(d.root.members, key) {
        NotHit(d', path);
      } else if LocateIn(e, path[1..]) == Absent {
        RestIsValid(d, key);
        AlikeSame(d', path, Rest(d, key), path);
      } else {
        AlikeSame(d', path, e, path[1..]);
      }
    }
  }

  lemma SetIsValid(d: Document, key: Key, e: Document)
    requires ValidDocument(d) && d.root.Obj? && ValidDocument(e) && Settable(d.root.members, key)
    ensures var d' := SetIn(d, key, e);
            ValidDocument(d') && (Strict(d.root) && Strict(e.root) && NoControl(key) ==> Strict(d'.root))
  {
    hide Locate, Append, Replace, IsRaw, Names, Bars;
    HitIsNamed(d.root.members, key);
    ReplaceValid(d.root.members, key, e);
    if Plain(key) {
      PlainIsRaw(key);
      AppendValid(d.root.members, key, e);
    }
  }

  /** A new member with a name that is no string body is no well-formed member. */
  lemma {:induction false} AppendInvalid(ms: Members, key: Key, e: Document)
    requires !IsRaw(key)
    ensures !ValidMembers(Append(ms, key, e))
  {
    hide IsRaw;
    if ms.Member? { AppendInvalid(ms.tail, key, e); }
  }

  /** Set keeps the tree well-formed exactly when the key is the name of a member that the search reaches, or can be
      written between quotes as it is. */
  lemma SetValidExactly(d: Document, key: Key, e: Document)
    requires ValidDocument(d) && d.root.Obj? && ValidDocument(e)
    ensures var ms := d.root.members;
            ValidDocument(SetIn(d, key, e)) <==> (Names(ms, Some(key)) && !Bars(ms, key)) || IsRaw(key)
  {
    hide Locate, Append, Replace, IsRaw, Names, Bars;
    HitIsNamed(d.root.members, key);
    ReplaceValid(d.root.members, key, e);
    if IsRaw(key) { AppendValid(d.root.members, key, e); } else { AppendInvalid(d.root.members, key, e); }
  }

  lemma ElsewhereIn(d: Document, key: Key, e: Document, path: Path)
    requires d.root.Obj? && Settable(d.root.members, key) && |path| > 0 && path[0] != key
    ensures Alike(LocateIn(SetIn(d, key, e), path), LocateIn(d, path))
  {
    hide Locate, Append, Replace, Names, Bars;
    HitIsNamed(d.root.members, key);
    ReplacedElsewhere(d.root.members, key, e, path);
    if Plain(key) { AppendedElsewhere(d.root.members, key, e, path); }
  }

  lemma ThroughIn(d: Document, key: Key, e: Document, path: Path)
    requires d.root.Obj? && Settable(d.root.members, key) && |path| > 0 && path[0] == key
    ensures var f, inner := LocateIn(SetIn(d, key, e), path), LocateIn(e, path[1..]);
            if Bars(d.root.members, key) then f == Unreadable
            else Alike(f, if inner == Absent then LocateIn(Rest(d, key), path) else inner)
  {
    hide Locate, Append, Replace, Bars;
    LocateThrough(d.root.members, key, e, path);
  }

  lemma NotHit(d: Document, path: Path)
    requires ValidDocument(d) && !LocateIn(d, path).Hit?
    ensures GetAt(DocumentText(d), path).err == KeyPathNotFound
  {
    hide LocateIn, GetAt, DocumentText, ValidDocument;
    GetLocates(d, path);
  }

  lemma RestIsValid(d: Document, key: Key)
    requires ValidDocument(d) && d.root.Obj?
    ensures ValidDocument(Rest(d, key))
  {
    BehindIsValid(d.root.members, key);
  }

  /** A path under the key reads as in the new value exactly when it leads somewhere there, or nowhere in later members
      of the key's name either; and, behind a malformed name, when it cannot be read in the new value. */
  lemma SetReadsNewValue(d: Document, key: Key, e: Document, path: Path)
    requires ValidDocument(d) && d.root.Obj? && ValidDocument(e) && Settable(d.root.members, key)
    requires |path| > 0 && path[0] == key
    ensures var inNew := GetAt(DocumentText(e), path[1..]);
            Same(GetAt(DocumentText(SetIn(d, key, e)), path), inNew) <==>
              if Bars(d.root.members, key) then inNew.err == KeyPathNotFound
              else LocateIn(e, path[1..]) != Absent || GetAt(DocumentText(Rest(d, key)), path).err == KeyPathNotFound
  {
    hide Bars, GetAt, DocumentText, SetIn, SetAt, ValidDocument, Strict, LocateIn, Settable;
    SetThenGet(d, key, e, path);
    SetIsValid(d, key, e);
    RestIsValid(d, key);
    NotFoundAlike(SetIn(d, key, e), path);
    NotFoundAlike(e, path[1..]);
    NotFoundAlike(Rest(d, key), path);
  }

  /** Every "not found" is the same answer. */
  lemma NotFoundAlike(d: Document, path: Path)
    requires ValidDocument(d)
    ensures var g := GetAt(DocumentText(d), path);
            && (g.err == KeyPathNotFound ==> g.value == [] && g.dataType == NotExist)
            && (LocateIn(d, path) == Absent ==> g.err == KeyPathNotFound)
  {
    hide LocateIn, GetAt, DocumentText, ValidDocument;
    GetLocates(d, path);
  }

  // {"a":{},"a":{"b":1}}: with "a" set to {}, the path a, b still reads 1
  const EMPTY: Document := Document([], Obj([], NoMember), [])
  const WITH_B: Members := Member([], [0x62], [], [], Scalar([0x31]), [], NoMember)
  const SECOND_A: Members := Member([], [0x61], [], [], Obj([], WITH_B), [], NoMember)
  const TWICE: Document := Document([], Obj([], Member([], [0x61], [], [], Obj([], NoMember), [], SECOND_A)), [])

  lemma LaterMemberIsRead()
    ensures ValidDocument(TWICE) && ValidDocument(EMPTY) && Plain([0x61])
    ensures GetAt(DocumentText(EMPTY), [[0x62]]).err == KeyPathNotFound
    ensures var got := GetAt(DocumentText(SetIn(TWICE, [0x61], EMPTY)), [[0x61], [0x62]]);
            got.err == NoError && got.value == [0x31]
  {
    hide GetAt, DocumentText, SetIn, LocateIn, IsScalarToken;
    TwiceIsValid();
    TwiceUnchanged();
    TwiceLocated();
    GetLocates(EMPTY, [[0x62]]);
    GetLocates(TWICE, [[0x61], [0x62]]);
  }

  lemma TwiceIsValid()
    ensures ValidDocument(TWICE)
  {
    assert [0x31][1..] == [] && [0x61][1..] == [] && [0x62][1..] == [];
    assert Digits([0x31]) == 1;
    assert IsNumber([0x31]);
    assert IsRaw([0x61]) && IsRaw([0x62]);
    assert ValidMembers(WITH_B);
    assert ValidMembers(SECOND_A);
  }

  /** The search at a member of the name that the path begins with. */
  lemma LocateNamed(ms: Members, path: seq<seq<byte>>)
    requires ms.Member? && path != [] && Unescaped(ms.name) == Some(path[0])
    ensures var f := Locate(ms, path);
            if |path| == 1 then f.Hit? && f.value == ms.value
            else ms.value.Obj? ==>
                   var inner := Locate(ms.value.members, path[1..]);
                   Alike(f, if inner == Absent then Locate(ms.tail, path) else inner)
  {
    hide Unescaped, MemberLength, HeadLength;
  }

  lemma TwiceUnchanged()
    ensures SetIn(TWICE, [0x61], EMPTY) == TWICE
  {
    UnescapedPlain([0x61]);
    hide Unescaped;
    var first := TWICE.root.members;
    assert Locate(first, [[0x61]]).Hit? by { LocateNamed(first, [[0x61]]); }
    var none: seq<byte> := [];
    assert none + none == none;
    assert Replace(first, [0x61], EMPTY) == first;
    hide Replace, Locate;
  }

  lemma TwiceLocated()
    ensures var f := LocateIn(TWICE, [[0x61], [0x62]]); f.Hit? && f.value == Scalar([0x31])
    ensures LocateIn(EMPTY, [[0x62]]) == Absent
  {
    UnescapedPlain([0x61]);
    UnescapedPlain([0x62]);
    hide Unescaped;
    assert Locate(NoMember, [[0x62]]) == Absent;
    hide Locate;
    var ab: Path := [[0x61], [0x62]];
    assert ab[1..] == [[0x62]];
    LocateNamed(WITH_B, [[0x62]]);
    LocateNamed(SECOND_A, ab);
    LocateNamed(TWICE.root.members, ab);
  }

  /** What was set under a key that keeps the text well-formed is read back exactly when no malformed name stands
      before the key's place, and the key is the name of a member already or holds no backslash. */
  lemma SetReadBack(d: Document, key: Key, e: Document)
    requires ValidDocument(d) && d.root.Obj? && ValidDocument(e) && ValidDocument(SetIn(d, key, e))
    ensures var ms := d.root.members;
            Reads(GetAt(DocumentText(SetIn(d, key, e)), [key]), Some(e.root)) <==>
              !Bars(ms, key) && (Names(ms, Some(key)) || !Has(key, BACKSLASH))
  {
    hide Bars, GetAt, DocumentText, ValidDocument, Locate, Append, Replace, Unescaped;
    LocateSet(d.root.members, key, e);
    GetLocates(SetIn(d, key, e), [key]);
  }

  lemma LocateSet(ms: Members, key: Key, e: Document)
    ensures var f := Locate(SetMember(ms, key, e), [key]);
            if !Bars(ms, key) && (Names(ms, Some(key)) || !Has(key, BACKSLASH)) then f.Hit? && f.value == e.root
            else !f.Hit?
  {
    hide Locate, Append, Replace, Unescaped, Bars, Names;
    HitIsNamed(ms, key);
    if Locate(ms, [key]).Hit? { ReplacedFound(ms, key, e); } else { AppendedFound(ms, key, e); }
  }

  lemma {:induction false} ReplacedFound(ms: Members, key: Key, e: Document)
    requires Locate(ms, [key]).Hit?
    ensures var f := Locate(Replace(ms, key, e), [key]); f.Hit? && f.value == e.root
  {
    hide Unescaped;
    if Unescaped(ms.name).value != key { ReplacedFound(ms.tail, key, e); }
  }

  lemma {:induction false} AppendedFound(ms: Members, key: Key, e: Document)
    requires !Locate(ms, [key]).Hit?
    ensures var f := Locate(Append(ms, key, e), [key]);
            if !Bars(ms, key) && !Has(key, BACKSLASH) then f.Hit? && f.value == e.root else !f.Hit?
  {
    UnescapedIsKey(key);
    hide Unescaped;
    if ms.Member? && Unescaped(ms.name).Some? { AppendedFound(ms.tail, key, e); }
  }

  /** A name reads as it is written exactly when it holds no backslash. */
  lemma UnescapedIsKey(key: Key)
    ensures Unescaped(key) == Some(key) <==> !Has(key, BACKSLASH)
  {
    if Has(key, BACKSLASH) {
      if Unescaped(key).Some? { UnescapedShrinks(key); }
    } else {
      UnescapedPlain(key);
    }
  }

  // ---- The same in terms of parsing and walking

  /** After Set every path reads either through the new value or as before. */
  lemma {:induction false} WalkSet(ms: Members, key: Key, e: Document, path: seq<seq<byte>>)
    requires Settable(ms, key) && path != [] && Locate(ms, [key]) != Unreadable
    ensures WalkMembers(SetMember(ms, key, e), path) ==
            if path[0] == key then Walk(e.root, path[1..]) else WalkMembers(ms, path)
  {
    if Plain(key) { UnescapedPlain(key); }
    HitIsNamed(ms, key);
    hide Plain, Unescaped, Walk;
    if ms.Member? && Unescaped(ms.name).value != key {
      HitIsNamed(ms.tail, key);
      WalkSet(ms.tail, key, e, path);
    }
  }

  lemma {:induction false} NamesSet(ms: Members, key: Key, e: Document, name: seq<byte>)
    requires Settable(ms, key) && Locate(ms, [key]) != Unreadable
    ensures Names(SetMember(ms, key, e), Some(name)) <==> Names(ms, Some(name)) || name == key
  {
    if Plain(key) { UnescapedPlain(key); }
    HitIsNamed(ms, key);
    hide Unescaped, Plain;
    if ms.Member? && Unescaped(ms.name).value != key {
      HitIsNamed(ms.tail, key);
      NamesSet(ms.tail, key, e, name);
    }
  }

  lemma {:induction false} DistinctSet(ms: Members, key: Key, e: Document)
    requires Settable(ms, key) && DistinctMembers(ms) && ReadableMembers(ms) && Distinct(e.root) && Readable(e.root)
    requires Locate(ms, [key]) != Unreadable
    ensures DistinctMembers(SetMember(ms, key, e)) && ReadableMembers(SetMember(ms, key, e))
  {
    if Plain(key) { UnescapedPlain(key); }
    HitIsNamed(ms, key);
    hide Plain, Unescaped, Distinct, Readable;
    if ms.Member? && Unescaped(ms.name).value != key {
      HitIsNamed(ms.tail, key);
      DistinctSet(ms.tail, key, e);
      NamesSet(ms.tail, key, e, Unescaped(ms.name).value);
    }
  }

  /** What Get reports about the value that a walk finds. */
  ghost predicate Reads(g: Got, w: Option<Json>) {
    match w
    case None => g.err == KeyPathNotFound
    case Some(v) => g.err == NoError && g.value == Handed(v) && g.dataType == JsonType(v)
  }

  /** A well-formed text in which no object has duplicate or malformed names. */
  ghost predicate Clean(d: Document) {
    ValidDocument(d) && Distinct(d.root) && Readable(d.root)
  }

  /** The lens law on texts without duplicate or malformed names: every path that starts with the key walks down the
      new value, and every other path walks as before. */
  lemma SetThenWalk(d: Document, key: Key, e: Document, path: Path)
    requires Clean(d) && d.root.Obj? && Clean(e) && Settable(d.root.members, key) && |path| > 0
    ensures var d' := SetIn(d, key, e);
            && Clean(d') && d'.root.Obj?
            && Reads(GetAt(DocumentText(d'), path),
                     if path[0] == key then Walk(e.root, path[1..]) else Walk(d.root, path))
  {
    hide Locate, Append, Replace, GetAt, DocumentText, Unescaped, IsRaw;
    var ms, d' := d.root.members, SetIn(d, key, e);
    SetIsValid(d, key, e);
    LocateWalks(ms, [key]);
    DistinctSet(ms, key, e);
    WalkSet(ms, key, e, path);
    GetWalks(d', path);
  }

  // ---- The attribute store of a multi-node request

  const EMPTY_OBJECT: seq<byte> := [LBRACE, RBRACE]

  /** completePart on the stored text; an error of Set leaves the store empty, as in the source. */
  function Completed(data: seq<byte>, attr: seq<byte>, part: seq<byte>): seq<byte>
    requires attr != [] ==> attr[0] != LBRACKET
  {
    if part == [] || attr == [] then data
    else match SetAt(data, part, attr) case None => [] case Some(t) => t
  }

  class MultiContext {
    var data: seq<byte>

    constructor ()
      ensures data == EMPTY_OBJECT
    {
      data := EMPTY_OBJECT;
    }

    method CompletePart(attr: seq<byte>, part: seq<byte>)
      requires attr != [] ==> attr[0] != LBRACKET
      modifies this
      ensures data == Completed(old(data), attr, part)
    {
      if |part| > 0 && |attr| > 0 {
        var r := Set(data, part, attr);
        data := match r case None => [] case Some(t) => t;
      }
    }

    /** What the path reads as is the law AttributesReadAsLastStored. */
    method GetAttr(paths: Path) returns (value: seq<byte>)
      ensures value == (var g := GetAt(data, paths); if g.err == NoError then g.value else [])
    {
      var g := InternalGet(data, paths);
      if g.err != NoError {
        return [];
      }
      return g.value;
    }
  }

  type Attr = a: seq<byte> | a == [] || a[0] != LBRACKET

  /** A call of completePart; an empty body is none. */
  datatype Part = Part(attr: Attr, body: Option<Document>)

  /** An empty attribute or an empty body is not stored. */
  predicate Stores(p: Part) {
    p.attr != [] && p.body.Some?
  }

  /** Any well-formed body under a plain attribute, or a part that is not stored. */
  ghost predicate GoodPart(p: Part) {
    Stores(p) ==> Plain(p.attr) && ValidDocument(p.body.value)
  }

  function BodyText(p: Part): seq<byte> {
    match p.body case None => [] case Some(doc) => DocumentText(doc)
  }

  /** The stored text after the parts, oldest first. */
  function Stored(parts: seq<Part>): seq<byte>
  {
    if parts == [] then EMPTY_OBJECT
    else
      var last := parts[|parts| - 1];
      Completed(Stored(parts[..|parts| - 1]), last.attr, BodyText(last))
  }

  /** The body last stored under an attribute. */
  function LastPart(parts: seq<Part>, attr: seq<byte>): Option<Document> {
    if parts == [] then None
    else
      var last := parts[|parts| - 1];
      if Stores(last) && last.attr == attr then last.body else LastPart(parts[..|parts| - 1], attr)
  }

  /** The tree of the store. */
  function StoredTree(parts: seq<Part>): (d: Document)
    ensures d.root.Obj?
  {
    if parts == [] then Document([], Obj([], NoMember), [])
    else
      var before, last := StoredTree(parts[..|parts| - 1]), parts[|parts| - 1];
      if Stores(last) then SetIn(before, last.attr, last.body.value) else before
  }

  /** The store's own names: plain and distinct, whatever the names inside the bodies are. */
  predicate StoreNames(ms: Members) {
    ms.Member? ==> Plain(ms.name) && !Names(ms.tail, Some(ms.name)) && StoreNames(ms.tail)
  }

  lemma {:induction false} NothingBehind(ms: Members, key: Key, path: Path)
    requires StoreNames(ms) && |path| > 0 && path[0] == key
    ensures !Bars(ms, key) && Locate(Behind(ms, key), path) == Absent
  {
    hide Unescaped;
    if ms.Member? {
      UnescapedPlain(ms.name);
      if ms.name == key { UnnamedIsMissed(ms.tail, path); } else { NothingBehind(ms.tail, key, path); }
    }
  }

  lemma {:induction false} UnnamedIsMissed(ms: Members, path: Path)
    requires StoreNames(ms) && |path| > 0 && !Names(ms, Some(path[0]))
    ensures Locate(ms, path) == Absent
  {
    hide Unescaped;
    if ms.Member? {
      UnescapedPlain(ms.name);
      UnnamedIsMissed(ms.tail, path);
    }
  }

  lemma {:induction false} StoreNamesSet(ms: Members, key: Key, e: Document)
    requires StoreNames(ms) && Plain(key)
    ensures StoreNames(SetMember(ms, key, e))
    ensures forall name :: Names(SetMember(ms, key, e), Some(name)) ==> Names(ms, Some(name)) || name == key
  {
    UnescapedPlain(key);
    hide Unescaped;
    if ms.Member? {
      UnescapedPlain(ms.name);
      if ms.name != key { StoreNamesSet(ms.tail, key, e); }
    }
  }

  lemma TextNotEmpty(d: Document)
    requires ValidDocument(d)
    ensures DocumentText(d) != []
  {
    if d.root.Scalar? { ScalarBytes(d.root.token); }
  }

  lemma NothingStored()
    ensures Stored([]) == DocumentText(StoredTree([])) && ValidDocument(StoredTree([]))
    ensures StoreNames(StoredTree([]).root.members)
    ensures forall path: Path :: |path| > 0 ==> LocateIn(StoredTree([]), path) == Absent
  {
  }

  lemma OnePartMore(d: Document, attr: Key, doc: Document, path: Path)
    requires ValidDocument(d) && d.root.Obj? && StoreNames(d.root.members) && |path| > 0
    requires Plain(attr) && ValidDocument(doc)
    ensures Completed(DocumentText(d), attr, DocumentText(doc)) == DocumentText(SetIn(d, attr, doc))
    ensures ValidDocument(SetIn(d, attr, doc)) && StoreNames(SetMember(d.root.members, attr, doc))
    ensures Alike(LocateIn(SetIn(d, attr, doc), path),
                  if path[0] == attr then LocateIn(doc, path[1..]) else LocateIn(d, path))
  {
    hide SetAt, SetMember, Locate, Bars, StoreNames, DocumentText, ValidDocument, Plain;
    SetEdits(d, attr, doc);
    SetIsValid(d, attr, doc);
    StoreNamesSet(d.root.members, attr, doc);
    TextNotEmpty(doc);
    if path[0] == attr {
      ThroughIn(d, attr, doc, path);
      NothingBehind(d.root.members, attr, path);
    } else {
      ElsewhereIn(d, attr, doc, path);
    }
  }

  /** A part that is not stored leaves the store as it is. */
  lemma NothingMore(data: seq<byte>, p: Part)
    requires !Stores(p)
    ensures Completed(data, p.attr, BodyText(p)) == data
  {
  }

  lemma {:induction false} StoredIsTree(parts: seq<Part>, path: Path)
    requires (forall k :: 0 <= k < |parts| ==> GoodPart(parts[k])) && |path| > 0
    ensures Stored(parts) == DocumentText(StoredTree(parts)) && ValidDocument(StoredTree(parts))
    ensures StoreNames(StoredTree(parts).root.members)
    ensures Alike(LocateIn(StoredTree(parts), path),
                  match LastPart(parts, path[0]) case None => Absent case Some(doc) => LocateIn(doc, path[1..]))
  {
    hide Completed, SetMember, LocateIn, StoreNames, ValidDocument, DocumentText, Plain;
    if parts == [] {
      NothingStored();
    } else {
      var before, last := parts[..|parts| - 1], parts[|parts| - 1];
      assert forall k :: 0 <= k < |before| ==> before[k] == parts[k];
      StoredIsTree(before, path);
      if Stores(last) {
        OnePartMore(StoredTree(before), last.attr, last.body.value, path);
      } else {
        NothingMore(Stored(before), last);
      }
    }
  }

  lemma {:induction false} LastPartIsStored(parts: seq<Part>, attr: seq<byte>)
    ensures var last := LastPart(parts, attr);
            last.Some? ==>
              exists k :: 0 <= k < |parts| && parts[k].attr == attr && Stores(parts[k]) && parts[k].body == last
  {
    if parts != [] {
      var n := |parts| - 1;
      if Stores(parts[n]) && parts[n].attr == attr {
        assert parts[n].body == LastPart(parts, attr);
      } else {
        LastPartIsStored(parts[..n], attr);
        assert forall k :: 0 <= k < n ==> parts[..n][k] == parts[k];
      }
    }
  }

  /** After any parts, in any order and with any repetitions, the store is well-formed, each path reads as the rest of
      it does in the body last stored under its first name, and an attribute never stored is not found. The bodies may
      hold any names, duplicate and malformed ones included; empty bodies and attributes leave everything as it is. */
  lemma {:induction false} AttributesReadAsLastStored(parts: seq<Part>, path: Path)
    requires (forall k :: 0 <= k < |parts| ==> GoodPart(parts[k])) && |path| > 0
    ensures Stored(parts) == DocumentText(StoredTree(parts)) && ValidDocument(StoredTree(parts))
    ensures var got := GetAt(Stored(parts), path);
            match LastPart(parts, path[0])
            case None => got.err == KeyPathNotFound
            case Some(doc) => Same(got, GetAt(DocumentText(doc), path[1..]))
  {
    hide *;
    StoredIsTree(parts, path);
    LastPartIsStored(parts, path[0]);
    match LastPart(parts, path[0])
    case None => AbsentIsNotFound(StoredTree(parts), path);
    case Some(doc) =>
      var k :| 0 <= k < |parts| && Stores(parts[k]) && parts[k].body == Some(doc);
      GoodPartIsValid(parts[k]);
      AlikeSame(StoredTree(parts), path, doc, path[1..]);
  }

  lemma GoodPartIsValid(p: Part)
    requires GoodPart(p) && Stores(p)
    ensures p.body.Some? && ValidDocument(p.body.value)
  {
  }

  lemma AbsentIsNotFound(d: Document, path: Path)
    requires ValidDocument(d) && Alike(LocateIn(d, path), Absent)
    ensures GetAt(DocumentText(d), path).err == KeyPathNotFound
  {
    hide LocateIn, GetAt, DocumentText, ValidDocument;
    NotHit(d, path);
  }

  /** In terms of parsing and walking, for bodies without duplicate or malformed names. */
  lemma {:induction false} AttributesWalk(parts: seq<Part>, path: Path)
    requires |path| > 0
    requires forall k :: 0 <= k < |parts| && Stores(parts[k]) ==> Plain(parts[k].attr) && Clean(parts[k].body.value)
    ensures Reads(GetAt(Stored(parts), path),
                  match LastPart(parts, path[0]) case None => None case Some(doc) => Walk(doc.root, path[1..]))
  {
    hide Stored, StoredTree, GetAt, Walk, LastPart, Locate, DocumentText, Distinct, Readable, ValidDocument, Plain;
    hide Barred;
    AttributesReadAsLastStored(parts, path);
    LastPartIsStored(parts, path[0]);
    match LastPart(parts, path[0])
    case None =>
    case Some(doc) =>
      var k :| 0 <= k < |parts| && Stores(parts[k]) && parts[k].body == Some(doc);
      GetWalks(doc, path[1..]);
  }
}
