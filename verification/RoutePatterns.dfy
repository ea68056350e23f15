/** Printing route patterns, and what the parser makes of the print. */
module RoutePatterns {
  import opened Bytes
  import opened RouteParser

  /** A segment of a pattern: fixed text, or a typed part with an optional argument name. */
  datatype Segment = Fixed(value: seq<byte>) | Var(kind: VarKind, arg: Option<seq<byte>>)

  datatype VarKind = NumberVar | StringVar | EnumVar(values: seq<seq<byte>>)

  // ---- Printing

  function Join(values: seq<seq<byte>>): seq<byte> {
    if values == [] then [] else if |values| == 1 then values[0] else values[0] + [VERTICAL] + Join(values[1..])
  }

  function KindText(k: VarKind): seq<byte> {
    match k
    case NumberVar => [LPAREN] + NUMBER + [RPAREN]
    case StringVar => [LPAREN] + STRING + [RPAREN]
    case EnumVar(values) => [LPAREN] + ENUM + [COLON] + Join(values) + [RPAREN]
  }

  function Text(s: Segment): seq<byte> {
    match s
    case Fixed(value) => value
    case Var(kind, arg) => KindText(kind) + if arg.Some? then [COLON] + arg.value else []
  }

  function Printed(segs: seq<Segment>): seq<byte> {
    if segs == [] then [] else [SLASH] + Text(segs[0]) + Printed(segs[1..])
  }

  /** Text free of meta characters. */
  predicate Plain(x: seq<byte>) {
    forall i :: 0 <= i < |x| ==> Kind(x[i]) == Unknown
  }

  /** Fixed text is not empty; an enum has two values or more. */
  predicate Printable(s: Segment) {
    match s
    case Fixed(value) => value != [] && Plain(value)
    case Var(kind, arg) =>
      && (arg.Some? ==> Plain(arg.value))
      && (kind.EnumVar? ==> |kind.values| >= 2 && forall i :: 0 <= i < |kind.values| ==> Plain(kind.values[i]))
  }

  // ---- The nodes of a pattern

  function KindNode(k: VarKind): Node {
    match k
    case NumberVar => Typed(NumberType)
    case StringVar => Typed(StringType)
    case EnumVar(values) => Typed(EnumType).(enums := values)
  }

  function NodeOf(s: Segment): Node {
    match s
    case Fixed(value) => Const(value)
    case Var(kind, arg) => KindNode(kind).(argName := arg)
  }

  function NodesOf(segs: seq<Segment>): seq<Node> {
    if segs == [] then [] else [SLASH_NODE, NodeOf(segs[0])] + NodesOf(segs[1..])
  }

  /** What the parser makes of them: after a typed segment without an argument name (`bare`) the slash is not taken
      out of the text, and becomes part of a fixed segment that follows. */
  function NodesRead(segs: seq<Segment>, bare: bool): seq<Node> {
    if segs == [] then []
    else
      var s := segs[0];
      [SLASH_NODE, NodeRead(s, bare)] + NodesRead(segs[1..], s.Var? && s.arg.None?)
  }

  function NodeRead(s: Segment, bare: bool): Node {
    if bare && s.Fixed? then Const([SLASH] + s.value) else NodeOf(s)
  }

  // ---- Single rounds of the parser

  lemma {:induction false} StopAt(input: seq<byte>, i: nat, t: nat)
    requires i <= t <= |input| && forall j :: i <= j < t ==> Kind(input[j]) == Unknown
    requires t < |input| ==> Kind(input[t]) != Unknown
    ensures Stop(input, i) == t
    decreases t - i
  {
    hide Kind;
    if i < t { StopAt(input, i + 1, t); }
  }

  predicate At(input: seq<byte>, p: nat, x: seq<byte>) {
    p + |x| <= |input| && input[p..p + |x|] == x
  }

  /** A part of what stands at `p`. */
  lemma Part(input: seq<byte>, p: nat, text: seq<byte>, i: nat, x: seq<byte>)
    requires At(input, p, text) && At(text, i, x)
    ensures At(input, p + i, x)
    ensures i + |x| < |text| ==> input[p + i + |x|] == text[i + |x|]
  {
    assert forall k :: 0 <= k < |text| ==> input[p + k] == input[p..p + |text|][k] == text[k];
    assert forall k :: 0 <= k < |x| ==> x[k] == text[i..i + |x|][k] && input[p + (i + k)] == x[k];
  }

  /** The parser reads up to the token at `t`. */
  lemma Read(input: seq<byte>, m: Machine, t: nat)
    requires m.sp <= m.bp <= t <= |input| && Plain(input[m.bp..t])
    requires t < |input| ==> Kind(input[t]) != Unknown
    ensures Turn(input, m) == TurnAt(m, TokenAt(input, t), t, input[m.sp..t])
  {
    hide Kind;
    forall j | m.bp <= j < t ensures Kind(input[j]) == Unknown { assert input[j] == input[m.bp..t][j - m.bp]; }
    StopAt(input, m.bp, t);
  }

  /** One round that goes on. */
  lemma Goes(input: seq<byte>, m: Machine, t: nat, m': Machine)
    requires m.sp <= m.bp <= t < |input| && Plain(input[m.bp..t]) && Kind(input[t]) != Unknown
    requires TurnAt(m, Kind(input[t]), t, input[m.sp..t]) == On(m') && m'.bp == t + 1 && m'.sp <= m'.bp
    ensures Run(input, m) == Run(input, m')
  {
    hide TurnAt, Kind;
    Read(input, m, t);
  }

  /** The end of the pattern. */
  lemma Ends(input: seq<byte>, m: Machine)
    requires m.sp <= m.bp <= |input| && Plain(input[m.bp..]) && m.prev != Unknown
    requires Close(m, input[m.sp..]).Some?
    ensures Run(input, m) == Nodes(Close(m, input[m.sp..]).value)
  {
    hide Kind;
    assert input[m.bp..|input|] == input[m.bp..] && input[m.sp..|input|] == input[m.sp..];
    Read(input, m, |input|);
  }

  lemma Kinds()
    ensures Kind(SLASH) == Slash && Kind(LPAREN) == LParen && Kind(RPAREN) == RParen && Kind(VERTICAL) == Vertical
    ensures Kind(COLON) == Token.Colon && Plain(NUMBER) && Plain(STRING) && Plain(ENUM)
  {
  }

  /** The parser behind a closing parenthesis at `t`. */
  function Closed(t: nat, nodes: seq<Node>): Machine {
    Machine(t + 1, t + 1, RParen, t, nodes)
  }

  /** The values of an enum, up to the parenthesis. */
  lemma {:induction false} ReadsValues(input: seq<byte>, m: Machine, values: seq<seq<byte>>, t: nat)
    requires m.sp == m.bp && LastIs(m.nodes, EnumType) && values != []
    requires (m.prev == Token.Colon && |values| >= 2) || m.prev == Vertical
    requires forall i :: 0 <= i < |values| ==> Plain(values[i])
    requires t == m.bp + |Join(values)| && At(input, m.bp, Join(values) + [RPAREN])
    ensures var last := m.nodes[|m.nodes| - 1];
      Run(input, m) == Run(input, Closed(t, m.nodes[|m.nodes| - 1 := last.(enums := last.enums + values)]))
    decreases |values|
  {
    hide Kind, Run;
    Kinds();
    var v := values[0];
    var u := m.bp + |v|;
    var joined := Join(values) + [RPAREN];
    if |values| == 1 {
      Part(input, m.bp, joined, 0, v);
      assert values == [v];
      Goes(input, m, u, Closed(u, WithEnum(m.nodes, v)));
    } else {
      var rest := values[1..];
      assert joined == v + ([VERTICAL] + (Join(rest) + [RPAREN]));
      Part(input, m.bp, joined, 0, v);
      Part(input, m.bp, joined, |v| + 1, Join(rest) + [RPAREN]);
      var m' := Machine(u + 1, u + 1, Vertical, u, WithEnum(m.nodes, v));
      Goes(input, m, u, m');
      ReadsValues(input, m', rest, t);
      assert values == [v] + rest;
      var last := m.nodes[|m.nodes| - 1];
      assert (last.enums + [v]) + rest == last.enums + values;
      var after := m.nodes[|m.nodes| - 1 := last.(enums := last.enums + values)];
      assert m'.nodes[|m.nodes| - 1 := m'.nodes[|m.nodes| - 1].(enums := last.enums + values)] == after;
    }
  }

  /** A type's name and the parenthesis behind it. */
  lemma ReadsWord(input: seq<byte>, m: Machine, word: seq<byte>, nt: NodeType, t: nat)
    requires (word == NUMBER && nt == NumberType) || (word == STRING && nt == StringType)
    requires m.prev == LParen && m.sp == m.bp && t == m.bp + |word| && t < |input| && input[t] == RPAREN
        && At(input, m.bp, word)
    ensures Run(input, m) == Run(input, Closed(t, m.nodes + [Typed(nt)]))
  {
    hide Kind, Run;
    Kinds();
    Goes(input, m, t, Closed(t, m.nodes + [Typed(nt)]));
  }

  /** A typed part, from behind its slash. */
  lemma ReadsKind(input: seq<byte>, m: Machine, k: VarKind, t: nat)
    requires m.sp <= m.bp && m.prev == Slash && Printable(Var(k, None))
    requires At(input, m.bp, KindText(k)) && t == m.bp + |KindText(k)| - 1
    ensures Run(input, m) == Run(input, Closed(t, m.nodes + [KindNode(k)]))
  {
    hide Kind, Run;
    Kinds();
    var p := m.bp;
    var text := KindText(k);
    Part(input, p, text, 0, []);
    var m1 := Machine(p + 1, p + 1, LParen, p, m.nodes);
    Goes(input, m, p, m1);
    match k
    case NumberVar =>
      Part(input, p, text, 1, NUMBER);
      ReadsWord(input, m1, NUMBER, NumberType, t);
    case StringVar =>
      Part(input, p, text, 1, STRING);
      ReadsWord(input, m1, STRING, StringType, t);
    case EnumVar(values) =>
      Part(input, p, text, 1, ENUM);
      Part(input, p, text, 6, Join(values) + [RPAREN]);
      var m2 := Machine(p + 6, p + 6, Token.Colon, p + 5, m.nodes + [Typed(EnumType)]);
      Goes(input, m1, p + 5, m2);
      ReadsValues(input, m2, values, t);
      var n := |m.nodes|;
      assert m2.nodes[n].enums + values == values;
      assert m2.nodes[n := m2.nodes[n].(enums := values)] == m.nodes + [KindNode(k)];
  }

  /** What the parser may stand at when a segment begins at `p`: the start, a constant read (its text still pending),
      an argument name read likewise, or a closed parenthesis. */
  ghost predicate AtSegment(input: seq<byte>, m: Machine, p: nat) {
    && m.sp <= m.bp <= p <= |input| && Plain(input[m.bp..p])
    && match m.prev
       case Unknown => m == START && p == 0
       case Slash => m.bp < p && m.prevIndex + 1 == m.bp
       case Colon => m.nodes != [] && !LastIs(m.nodes, ConstType)
       case RParen => m.sp == m.bp == p
       case _ => false
  }

  /** The slash of the next segment. */
  function Slashed(input: seq<byte>, m: Machine, p: nat): Machine
    requires m.sp <= p <= |input| && Close(m, input[m.sp..p]).Some?
  {
    Machine(p + 1, if m.prev == RParen then p else p + 1, Slash, p, Close(m, input[m.sp..p]).value + [SLASH_NODE])
  }

  lemma ReadsSlash(input: seq<byte>, m: Machine, p: nat)
    requires AtSegment(input, m, p) && p < |input| && input[p] == SLASH
    ensures Close(m, input[m.sp..p]).Some? && Run(input, m) == Run(input, Slashed(input, m, p))
  {
    hide Run;
    Kinds();
    Goes(input, m, p, Slashed(input, m, p));
  }

  /** The parser behind a typed segment that ends at `p`. */
  function AfterVar(m: Machine, kind: VarKind, arg: Option<seq<byte>>, p: nat): Machine {
    var nodes := m.nodes + [KindNode(kind)];
    if arg.None? || |arg.value| >= p then Closed(if p > 0 then p - 1 else 0, nodes)
    else Machine(p - |arg.value|, p - |arg.value|, Token.Colon, p - |arg.value| - 1, nodes)
  }

  lemma ReadsVar(input: seq<byte>, m: Machine, kind: VarKind, arg: Option<seq<byte>>, p: nat)
    requires m.sp <= m.bp && m.prev == Slash && Printable(Var(kind, arg))
    requires At(input, m.bp, Text(Var(kind, arg))) && p == m.bp + |Text(Var(kind, arg))|
    ensures var m' := AfterVar(m, kind, arg, p);
      Run(input, m) == Run(input, m') && AtSegment(input, m', p)
  {
    hide *;
    var k := |KindText(kind)|;
    VarParts(input, m.bp, kind, arg);
    var t: nat := m.bp + k - 1;
    PrintableKind(kind, arg);
    ReadsKind(input, m, kind, t);
    var nodes := m.nodes + [KindNode(kind)];
    AfterVarIs(input, m, kind, arg, p, t);
    if arg.Some? {
      ReadsArg(input, t, nodes, arg.value);
    }
  }

  lemma AfterVarIs(input: seq<byte>, m: Machine, kind: VarKind, arg: Option<seq<byte>>, p: nat, t: nat)
    requires p <= |input| && t + 1 == if arg.Some? then p - 1 - |arg.value| else p
    ensures var nodes := m.nodes + [KindNode(kind)];
      && AfterVar(m, kind, arg, p)
          == (if arg.Some? then Machine(t + 2, t + 2, Token.Colon, t + 1, nodes) else Closed(t, nodes))
      && (arg.None? ==> AtSegment(input, AfterVar(m, kind, arg, p), p))
      && !LastIs(nodes, ConstType)
  {
    hide Kind;
    assert input[p..p] == [];
  }

  lemma PrintableKind(kind: VarKind, arg: Option<seq<byte>>)
    requires Printable(Var(kind, arg))
    ensures Printable(Var(kind, None)) && (arg.Some? ==> Plain(arg.value))
  {
  }

  lemma VarParts(input: seq<byte>, p: nat, kind: VarKind, arg: Option<seq<byte>>)
    requires At(input, p, Text(Var(kind, arg)))
    ensures var k := |KindText(kind)|;
      && k > 0 && At(input, p, KindText(kind)) && p + |Text(Var(kind, arg))| <= |input|
      && |Text(Var(kind, arg))| == (if arg.Some? then k + 1 + |arg.value| else k)
      && (arg.Some? ==> p + k < |input| && input[p + k] == COLON && At(input, p + k + 1, arg.value))
  {
    var x := KindText(kind);
    assert |x| > 0;
    hide KindText, At;
    if arg.Some? {
      assert Text(Var(kind, arg)) == x + ([COLON] + arg.value);
      Split(input, p, x, [COLON] + arg.value);
      Split(input, p + |x|, [COLON], arg.value);
      One(input, p + |x|, COLON);
    } else {
      assert Text(Var(kind, arg)) == x + [];
      Split(input, p, x, []);
    }
  }

  lemma Split(input: seq<byte>, p: nat, x: seq<byte>, y: seq<byte>)
    requires At(input, p, x + y)
    ensures At(input, p, x) && At(input, p + |x|, y) && p + |x| + |y| <= |input|
  {
    assert input[p..p + |x|] == (x + y)[..|x|] == x;
    assert input[p + |x|..p + |x| + |y|] == (x + y)[|x|..] == y;
  }

  lemma One(input: seq<byte>, p: nat, c: byte)
    ensures At(input, p, [c]) ==> p < |input| && input[p] == c
  {
    if At(input, p, [c]) { assert input[p] == input[p..p + 1][0]; }
  }

  lemma ReadsArg(input: seq<byte>, t: nat, nodes: seq<Node>, arg: seq<byte>)
    requires t + 1 < |input| && input[t + 1] == COLON && At(input, t + 2, arg) && Plain(arg)
    requires nodes != [] && !LastIs(nodes, ConstType)
    ensures var m' := Machine(t + 2, t + 2, Token.Colon, t + 1, nodes);
      Run(input, Closed(t, nodes)) == Run(input, m') && AtSegment(input, m', t + 2 + |arg|)
  {
    hide Run, Kind;
    Kinds();
    assert input[t + 1..t + 1] == [];
    Goes(input, Closed(t, nodes), t + 1, Machine(t + 2, t + 2, Token.Colon, t + 1, nodes));
  }

  /** Closing what is pending behind a typed segment completes its node. */
  lemma VarCloses(input: seq<byte>, m: Machine, kind: VarKind, arg: Option<seq<byte>>, p: nat)
    requires m.sp <= m.bp && At(input, m.bp, Text(Var(kind, arg))) && p == m.bp + |Text(Var(kind, arg))|
    ensures var m' := AfterVar(m, kind, arg, p);
      m'.sp <= p && Close(m', input[m'.sp..p]) == Some(m.nodes + [NodeOf(Var(kind, arg))])
  {
    var text := Text(Var(kind, arg));
    var k := |KindText(kind)|;
    if arg.Some? {
      Part(input, m.bp, text, k + 1, arg.value);
      var n := |m.nodes|;
      assert (m.nodes + [KindNode(kind)])[n := NodeOf(Var(kind, arg))] == m.nodes + [NodeOf(Var(kind, arg))];
    }
  }

  lemma InOrder(input: seq<byte>, m: Machine, p: nat)
    requires AtSegment(input, m, p)
    ensures m.sp <= m.bp <= p <= |input|
  {
  }

  lemma ReadsFixed(input: seq<byte>, m: Machine, p: nat, value: seq<byte>, bare: bool)
    requires bare <==> m.prev == RParen
    requires AtSegment(input, m, p) && p < |input| && Close(m, input[m.sp..p]).Some?
    requires input[p] == SLASH && At(input, p + 1, value) && Printable(Fixed(value))
    ensures var m1 := Slashed(input, m, p);
      var p' := p + 1 + |value|;
      && AtSegment(input, m1, p') && m1.prev == Slash
      && Close(m1, input[m1.sp..p'])
         == Some(Close(m, input[m.sp..p]).value + [SLASH_NODE] + [NodeRead(Fixed(value), bare)])
  {
    hide Kind;
    var m1 := Slashed(input, m, p);
    var p' := p + 1 + |value|;
    assert input[p + 1..p'] == value;
    assert bare ==> input[p..p'] == [SLASH] + value by { FromSlash(input, p, value); }
    assert m1.sp == if bare then p else p + 1;
  }

  lemma FromSlash(input: seq<byte>, p: nat, value: seq<byte>)
    requires p < |input| && input[p] == SLASH && At(input, p + 1, value)
    ensures input[p..p + 1 + |value|] == [SLASH] + value
  {
    var x := input[p..p + 1 + |value|];
    assert x[1..] == input[p + 1..p + 1 + |value|];
    assert x == [x[0]] + x[1..];
  }

  /** A whole segment, from its slash. */
  lemma ReadsSegment(input: seq<byte>, m: Machine, p: nat, seg: Segment, bare: bool) returns (m': Machine)
    requires bare <==> m.prev == RParen
    requires AtSegment(input, m, p) && p < |input| && input[p] == SLASH && At(input, p + 1, Text(seg)) && Printable(seg)
    ensures AtSegment(input, m', p + 1 + |Text(seg)|) && m'.prev != Unknown
    ensures m'.sp <= m'.bp <= p + 1 + |Text(seg)| <= |input|
    ensures Close(m, input[m.sp..p]).Some? && Run(input, m) == Run(input, m')
    ensures m'.prev == RParen <==> seg.Var? && seg.arg.None?
    ensures Close(m', input[m'.sp..p + 1 + |Text(seg)|])
         == Some(Close(m, input[m.sp..p]).value + [SLASH_NODE] + [NodeRead(seg, bare)])
  {
    hide *;
    InOrder(input, m, p);
    ReadsSlash(input, m, p);
    SlashedIs(input, m, p);
    SegmentIs(seg, bare);
    var m1 := Slashed(input, m, p);
    var p' := p + 1 + |Text(seg)|;
    if seg.Fixed? {
      m' := m1;
      ReadsFixed(input, m, p, seg.value, bare);
      InOrder(input, m', p');
    } else {
      m' := AfterVar(m1, seg.kind, seg.arg, p');
      AfterVarPrev(m1, seg.kind, seg.arg, p');
      ReadsVar(input, m1, seg.kind, seg.arg, p');
      VarCloses(input, m1, seg.kind, seg.arg, p');
      InOrder(input, m', p');
    }
  }

  lemma SlashedIs(input: seq<byte>, m: Machine, p: nat)
    requires AtSegment(input, m, p) && Close(m, input[m.sp..p]).Some?
    ensures var m1 := Slashed(input, m, p);
      m1.sp <= m1.bp == p + 1 && m1.prev == Slash && m1.nodes == Close(m, input[m.sp..p]).value + [SLASH_NODE]
  {
  }

  lemma SegmentIs(seg: Segment, bare: bool)
    ensures seg.Fixed? ==> Text(seg) == seg.value && seg == Fixed(seg.value)
    ensures seg.Var? ==> NodeRead(seg, bare) == NodeOf(seg) && seg == Var(seg.kind, seg.arg)
    ensures seg.Var? && seg.arg.Some? ==> |Text(seg)| > |seg.arg.value|
  {
  }

  lemma AfterVarPrev(m: Machine, kind: VarKind, arg: Option<seq<byte>>, p: nat)
    requires arg.Some? ==> |arg.value| < p
    ensures var m' := AfterVar(m, kind, arg, p);
            m'.prev != Unknown && (m'.prev == RParen <==> arg.None?) && m'.sp <= m'.bp
  {
  }

  lemma ReadsNothing(input: seq<byte>, m: Machine, p: nat)
    requires AtSegment(input, m, p) && m.prev != Unknown && input[p..] == []
    ensures Close(m, input[m.sp..p]).Some? && Run(input, m) == Nodes(Close(m, input[m.sp..p]).value + [])
  {
    hide Run, Kind;
    assert p == |input| && input[m.bp..] == input[m.bp..p] && input[m.sp..] == input[m.sp..p];
    Ends(input, m);
    var nodes := Close(m, input[m.sp..p]).value;
    assert nodes + [] == nodes;
  }

  lemma NothingRead(bare: bool)
    ensures NodesRead([], bare) == [] && Printed([]) == []
  {
  }

  lemma {:induction false} ReadsSegments(input: seq<byte>, m: Machine, p: nat, segs: seq<Segment>, bare: bool)
    requires AtSegment(input, m, p) && (m.prev == Unknown ==> segs != []) && (bare <==> m.prev == RParen)
    requires forall i :: 0 <= i < |segs| ==> Printable(segs[i])
    requires input[p..] == Printed(segs)
    ensures Close(m, input[m.sp..p]).Some?
    ensures Run(input, m) == Nodes(Close(m, input[m.sp..p]).value + NodesRead(segs, bare))
    decreases |segs|
  {
    hide *;
    InOrder(input, m, p);
    NothingRead(bare);
    if segs == [] {
      ReadsNothing(input, m, p);
    } else {
      var b := segs[0].Var? && segs[0].arg.None?;
      FirstSegment(input, p, segs);
      var m' := ReadsSegment(input, m, p, segs[0], bare);
      ReadsSegments(input, m', p + 1 + |Text(segs[0])|, segs[1..], b);
      Assemble(Close(m, input[m.sp..p]).value, segs, bare);
    }
  }

  lemma Assemble(nodes: seq<Node>, segs: seq<Segment>, bare: bool)
    requires segs != []
    ensures (nodes + [SLASH_NODE] + [NodeRead(segs[0], bare)]) + NodesRead(segs[1..], segs[0].Var? && segs[0].arg.None?)
         == nodes + NodesRead(segs, bare)
  {
  }

  lemma FirstSegment(input: seq<byte>, p: nat, segs: seq<Segment>)
    requires p <= |input| && segs != [] && input[p..] == Printed(segs)
    ensures p < |input| && input[p] == SLASH && At(input, p + 1, Text(segs[0]))
    ensures p + 1 + |Text(segs[0])| <= |input| && input[p + 1 + |Text(segs[0])|..] == Printed(segs[1..])
  {
    SplitFront(input, p, Text(segs[0]), Printed(segs[1..]));
  }

  lemma SplitFront(input: seq<byte>, p: nat, x: seq<byte>, rest: seq<byte>)
    requires p <= |input| && input[p..] == [SLASH] + x + rest
    ensures p < |input| && input[p] == SLASH && At(input, p + 1, x) && input[p + 1 + |x|..] == rest
  {
    var w := input[p..];
    assert |w| == 1 + |x| + |rest| && forall k :: 0 <= k < |w| ==> w[k] == input[p + k];
    assert forall k :: 0 <= k < |x| ==> x[k] == w[1 + k];
    assert forall k :: 0 <= k < |rest| ==> rest[k] == w[1 + |x| + k];
  }

  // ---- Main results

  /** What the parser makes of any printed pattern. */
  lemma PrintedIsRead(segs: seq<Segment>)
    requires segs != [] && forall i :: 0 <= i < |segs| ==> Printable(segs[i])
    ensures Parsed(Printed(segs)) == Nodes(NodesRead(segs, false))
  {
    hide Run, Kind, NodesRead, Printable, Printed;
    var input := Printed(segs);
    PrintedEnd(segs);
    assert input[0..] == input && input[0..0] == [];
    ReadsSegments(input, START, 0, segs, false);
    assert [] + NodesRead(segs, false) == NodesRead(segs, false);
  }

  /** A printed pattern does not end in a slash. */
  lemma {:induction false} PrintedEnd(segs: seq<Segment>)
    requires segs != [] && forall i :: 0 <= i < |segs| ==> Printable(segs[i])
    ensures var input := Printed(segs); |input| > 1 && input[|input| - 1] != SLASH
  {
    Kinds();
    hide Kind;
    TextEnd(segs[0]);
    if |segs| > 1 { PrintedEnd(segs[1..]); }
  }

  lemma TextEnd(s: Segment)
    requires Printable(s)
    ensures |Text(s)| > 0 && Text(s)[|Text(s)| - 1] != SLASH
  {
    Kinds();
    hide Kind;
    if s.Fixed? { assert Kind(s.value[|s.value| - 1]) == Unknown; }
    else if s.arg.Some? && |s.arg.value| > 0 { assert Kind(s.arg.value[|s.arg.value| - 1]) == Unknown; }
  }

  /** No typed segment without an argument name is followed by a fixed one. */
  predicate Named(segs: seq<Segment>) {
    forall i :: 0 <= i < |segs| - 1 && segs[i].Var? && segs[i].arg.None? ==> !segs[i + 1].Fixed?
  }

  lemma {:induction false} ReadAsMeant(segs: seq<Segment>, bare: bool)
    ensures NodesRead(segs, bare) == NodesOf(segs) <==> Named(segs) && !(bare && segs != [] && segs[0].Fixed?)
  {
    if segs != [] {
      var seg, rest := segs[0], segs[1..];
      var b := seg.Var? && seg.arg.None?;
      ReadAsMeant(rest, b);
      assert NodesRead(segs, bare) == [SLASH_NODE, NodeRead(seg, bare)] + NodesRead(rest, b);
      assert NodesOf(segs) == [SLASH_NODE, NodeOf(seg)] + NodesOf(rest);
      assert NodesRead(segs, bare)[1] == NodeRead(seg, bare) && NodesOf(segs)[1] == NodeOf(seg);
      assert NodesRead(segs, bare)[2..] == NodesRead(rest, b) && NodesOf(segs)[2..] == NodesOf(rest);
      assert Named(segs) <==> Named(rest) && !(b && rest != [] && rest[0].Fixed?) by { NamedRest(segs); }
    }
  }

  lemma NamedRest(segs: seq<Segment>)
    requires segs != []
    ensures Named(segs) <==>
      Named(segs[1..]) && !(segs[0].Var? && segs[0].arg.None? && |segs| > 1 && segs[1].Fixed?)
  {
    var rest := segs[1..];
    forall i | 0 <= i < |rest| - 1 && Named(segs) && rest[i].Var? && rest[i].arg.None? ensures !rest[i + 1].Fixed? {
      assert segs[i + 1] == rest[i] && segs[i + 1 + 1] == rest[i + 1];
    }
    if Named(rest) {
      forall i | 0 < i < |segs| - 1 && segs[i].Var? && segs[i].arg.None? ensures !segs[i + 1].Fixed? {
        assert rest[i - 1] == segs[i] && rest[i - 1 + 1] == segs[i + 1];
      }
    }
  }

  /** A printed pattern is read back as the nodes it was printed from exactly when no typed segment without an
      argument name comes right before a fixed one. */
  lemma PatternRoundTrip(segs: seq<Segment>)
    requires segs != [] && forall i :: 0 <= i < |segs| ==> Printable(segs[i])
    ensures Parsed(Printed(segs)) == Nodes(NodesOf(segs)) <==> Named(segs)
  {
    PrintedIsRead(segs);
    ReadAsMeant(segs, false);
  }
}
