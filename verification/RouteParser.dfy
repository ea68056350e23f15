/** The pattern parser of the route tree, src/route/parser.go and src/route/scanner.go. */
module RouteParser {
  import opened Bytes

  const EOI: byte := 0x1A
  const SLASH: byte := 0x2F
  const LPAREN: byte := 0x28
  const RPAREN: byte := 0x29
  const VERTICAL: byte := 0x7C

  const NUMBER: seq<byte> := [0x6E, 0x75, 0x6D, 0x62, 0x65, 0x72]
  const STRING: seq<byte> := [0x73, 0x74, 0x72, 0x69, 0x6E, 0x67]
  const ENUM: seq<byte> := [0x65, 0x6E, 0x75, 0x6D]

  datatype Token = Unknown | Slash | LParen | RParen | Vertical | Colon | Eof

  datatype NodeType = NumberType | EnumType | ConstType | StringType | SlashType

  datatype Node = Node(nt: NodeType, value: seq<byte>, enums: seq<seq<byte>>, argName: Option<seq<byte>>)

  datatype Result = Nodes(nodes: seq<Node>) | SyntaxError

  const SLASH_NODE: Node := Node(SlashType, [SLASH], [], None)

  function Const(value: seq<byte>): Node { Node(ConstType, value, [], None) }

  function Typed(nt: NodeType): Node { Node(nt, [], [], None) }

  // ---- The scanner

  function Kind(c: byte): Token {
    if c == SLASH then Slash
    else if c == LPAREN then LParen
    else if c == VERTICAL then Vertical
    else if c == COLON then Token.Colon
    else if c == RPAREN then RParen
    else if c == EOI then Eof
    else Unknown
  }

  /** Where the next token is: a meta character, or the end. */
  function Stop(input: seq<byte>, i: nat): (t: nat)
    requires i <= |input|
    ensures i <= t <= |input|
    ensures forall j :: i <= j < t ==> Kind(input[j]) == Unknown
    ensures t < |input| ==> Kind(input[t]) != Unknown
    decreases |input| - i
  {
    if i == |input| || Kind(input[i]) != Unknown then i else Stop(input, i + 1)
  }

  function TokenAt(input: seq<byte>, t: nat): Token {
    if t < |input| then Kind(input[t]) else Eof
  }

  class Scanner {
    const input: seq<byte>
    var token: Token
    var bp: int
    var sp: nat
    var ch: byte

    ghost predicate Valid()
      reads this
    {
      && 0 <= sp <= bp && sp <= |input| && 0 <= bp <= |input| + 1
      && ch == if bp < |input| then input[bp] else EOI
    }

    constructor (input: seq<byte>)
      ensures Valid() && this.input == input && bp == 0 && sp == 0
    {
      this.input, token, sp := input, Unknown, 0;
      bp, ch := -1, EOI;
      new;
      Next();
    }

    method Next()
      requires -1 <= bp <= |input|
      modifies this`bp, this`ch
      ensures bp == old(bp) + 1 && ch == if bp < |input| then input[bp] else EOI
    {
      bp := bp + 1;
      ch := if bp < |input| then input[bp] else EOI;
    }

    method NextToken()
      requires Valid() && bp <= |input|
      modifies this`token, this`bp, this`ch
      ensures Valid() && bp == Stop(input, old(bp)) + 1 && token == TokenAt(input, bp - 1)
    {
      while true
        invariant Valid() && bp <= |input| && Stop(input, old(bp)) == Stop(input, bp)
        decreases |input| - bp
      {
        var kind := Kind(ch);
        if kind != Unknown {
          token := kind;
          Next();
          return;
        }
        Next();
      }
    }

    /** The text since the last call, up to the current token. */
    method ScanString() returns (value: seq<byte>)
      requires Valid() && 1 <= bp && sp < bp <= |input| + 1
      modifies this`sp
      ensures value == input[old(sp)..bp - 1] && sp == bp
      ensures bp <= |input| ==> Valid()
    {
      value := input[sp..bp - 1];
      sp := bp;
    }
  }

  // ---- The parser

  /** The parser between two tokens: the scanner's positions, the token before and where it was, the nodes so far. */
  datatype Machine = Machine(bp: nat, sp: nat, prev: Token, prevIndex: int, nodes: seq<Node>)

  datatype Outcome = On(m: Machine) | Done(r: Result)

  predicate LastIs(nodes: seq<Node>, nt: NodeType) {
    nodes != [] && nodes[|nodes| - 1].nt == nt
  }

  /** The last node, as the parser changes it. */
  function WithArg(nodes: seq<Node>, value: seq<byte>): seq<Node>
    requires nodes != []
  {
    nodes[|nodes| - 1 := nodes[|nodes| - 1].(argName := Some(value))]
  }

  function WithEnum(nodes: seq<Node>, value: seq<byte>): seq<Node>
    requires nodes != []
  {
    var last := nodes[|nodes| - 1];
    nodes[|nodes| - 1 := last.(enums := last.enums + [value])]
  }

  /** What the text before a slash or the end adds to the nodes; None is a syntax error. */
  function Close(m: Machine, text: seq<byte>): Option<seq<Node>> {
    if m.prev == Slash then Some(m.nodes + [Const(text)])
    else if m.prev == Token.Colon then
      if m.nodes != [] && !LastIs(m.nodes, ConstType) then Some(WithArg(m.nodes, text)) else None
    else Some(m.nodes)
  }

  /** One round of parse's loop. */
  function Turn(input: seq<byte>, m: Machine): Outcome
    requires m.sp <= m.bp <= |input|
  {
    var t := Stop(input, m.bp);
    TurnAt(m, TokenAt(input, t), t, input[m.sp..t])
  }

  /** The round for `token` at `t`, `text` being what ScanString would return. */
  function TurnAt(m: Machine, token: Token, t: nat, text: seq<byte>): Outcome {
    var go := Machine(t + 1, t + 1, token, t, m.nodes);
    match token
    case Slash =>
      var closed := Close(m, text);
      if closed.None? || (m.prev == Slash && t == m.prevIndex + 1) then Done(SyntaxError)
      else
        var read := m.prev == Slash || m.prev == Token.Colon || m.prev == Unknown;
        On(go.(sp := if read then t + 1 else m.sp, nodes := closed.value + [SLASH_NODE]))
    case LParen => if m.prev != Slash then Done(SyntaxError) else On(go)
    case Colon =>
      if m.prev == LParen then
        if text != ENUM then Done(SyntaxError) else On(go.(nodes := m.nodes + [Typed(EnumType)]))
      else if m.prev != RParen then Done(SyntaxError)
      else On(go)
    case Vertical =>
      if (m.prev == Token.Colon || m.prev == Vertical) && LastIs(m.nodes, EnumType)
      then On(go.(nodes := WithEnum(m.nodes, text)))
      else Done(SyntaxError)
    case RParen =>
      if m.prev == LParen then
        if text == STRING then On(go.(nodes := m.nodes + [Typed(StringType)]))
        else if text == NUMBER then On(go.(nodes := m.nodes + [Typed(NumberType)]))
        else Done(SyntaxError)
      else if m.prev == Vertical && LastIs(m.nodes, EnumType) then On(go.(nodes := WithEnum(m.nodes, text)))
      else Done(SyntaxError)
    case _ =>
      var closed := Close(m, text);
      if closed.None? || m.prev == Unknown then Done(SyntaxError) else Done(Nodes(closed.value))
  }

  lemma OnLParen(m: Machine, t: nat, text: seq<byte>)
    ensures TurnAt(m, LParen, t, text) ==
            if m.prev == Slash then On(Machine(t + 1, t + 1, LParen, t, m.nodes)) else Done(SyntaxError)
  {
  }

  lemma OnEof(m: Machine, t: nat, text: seq<byte>)
    ensures TurnAt(m, Eof, t, text)
         == Done(if Close(m, text).None? || m.prev == Unknown then SyntaxError else Nodes(Close(m, text).value))
  {
  }

  function Run(input: seq<byte>, m: Machine): Result
    requires m.sp <= m.bp <= |input|
    decreases |input| - m.bp
  {
    match Turn(input, m)
    case Done(r) => r
    case On(m') => if m.bp < m'.bp <= |input| && m'.sp <= m'.bp then Run(input, m') else SyntaxError
  }

  const START: Machine := Machine(0, 0, Unknown, -1, [])

  /** newParser: one slash at the end is dropped. */
  function Stripped(pattern: seq<byte>): seq<byte> {
    if |pattern| > 1 && pattern[|pattern| - 1] == SLASH then pattern[..|pattern| - 1] else pattern
  }

  function Parsed(pattern: seq<byte>): Result {
    var input := Stripped(pattern);
    if input == [SLASH] then Nodes([SLASH_NODE]) else Run(input, START)
  }

  class Parser {
    const input: seq<byte>
    const lexer: Scanner
    var nodes: seq<Node>

    constructor (pattern: seq<byte>)
      ensures input == Stripped(pattern) && nodes == [] && fresh(lexer)
      ensures lexer.Valid() && lexer.input == input && lexer.bp == 0 && lexer.sp == 0
    {
      var stripped := pattern;
      if |pattern| > 1 && pattern[|pattern| - 1] == SLASH {
        stripped := pattern[..|pattern| - 1];
      }
      input, nodes := stripped, [];
      lexer := new Scanner(stripped);
    }

    method AddEnum(value: seq<byte>)
      requires nodes != []
      modifies this
      ensures nodes == WithEnum(old(nodes), value)
    {
      var last := nodes[|nodes| - 1];
      nodes := nodes[|nodes| - 1 := last.(enums := last.enums + [value])];
    }

    method SetArgName(value: seq<byte>)
      requires nodes != []
      modifies this
      ensures nodes == WithArg(old(nodes), value)
    {
      nodes := nodes[|nodes| - 1 := nodes[|nodes| - 1].(argName := Some(value))];
    }

    /** What a slash and the end have in common: the pending constant or argument name becomes part of the nodes. */
    method CloseText(prev: Token) returns (ok: bool)
      requires lexer.Valid() && lexer.input == input && lexer.sp < lexer.bp
      modifies this, lexer`sp
      ensures var m := Machine(old(lexer.bp), old(lexer.sp), prev, 0, old(nodes));
        var closed := Close(m, input[old(lexer.sp)..lexer.bp - 1]);
        ok == closed.Some? && (ok ==> nodes == closed.value)
      ensures lexer.sp == if ok && (prev == Slash || prev == Token.Colon) then lexer.bp else old(lexer.sp)
    {
      if prev == Slash {
        var value := lexer.ScanString();
        nodes := nodes + [Const(value)];
      } else if prev == Token.Colon {
        if nodes != [] && nodes[|nodes| - 1].nt != ConstType {
          var value := lexer.ScanString();
          SetArgName(value);
        } else {
          return false;
        }
      }
      return true;
    }

    ghost function At(prev: Token, prevIndex: int): Machine
      requires lexer.Valid()
      reads this, lexer
    {
      Machine(lexer.bp, lexer.sp, prev, prevIndex, nodes)
    }

    /** The scanner stands behind token `t`, with the text since `m` to be read. */
    ghost predicate Scanned(m: Machine, t: nat)
      reads this, lexer
    {
      && lexer.Valid() && lexer.input == input && m.bp <= t <= |input|
      && lexer.bp == t + 1 && lexer.sp == m.sp <= m.bp && nodes == m.nodes
    }

    method OnSlash(prev: Token, prevIndex: int, ghost m: Machine, ghost t: nat) returns (ok: bool)
      requires Scanned(m, t) && t < |input| && m.prev == prev && m.prevIndex == prevIndex
      modifies this, lexer`sp
      ensures lexer.Valid()
      ensures TurnAt(m, Slash, t, input[m.sp..t]) == if ok then On(At(Slash, t)) else Done(SyntaxError)
    {
      if prev == Slash && lexer.bp - 1 == prevIndex + 1 {
        return false;
      }
      ok := CloseText(prev);
      if !ok {
        return false;
      }
      if prev == Unknown {
        var _ := lexer.ScanString();
      }
      nodes := nodes + [SLASH_NODE];
    }

    method OnColon(prev: Token, ghost m: Machine, ghost t: nat) returns (ok: bool)
      requires Scanned(m, t) && t < |input| && m.prev == prev
      modifies this, lexer`sp
      ensures lexer.Valid()
      ensures TurnAt(m, Token.Colon, t, input[m.sp..t]) == if ok then On(At(Token.Colon, t)) else Done(SyntaxError)
    {
      if prev == LParen {
        var value := lexer.ScanString();
        if value != ENUM {
          return false;
        }
        nodes := nodes + [Typed(EnumType)];
      } else if prev != RParen {
        return false;
      } else {
        var _ := lexer.ScanString();
      }
      return true;
    }

    method OnVertical(prev: Token, ghost m: Machine, ghost t: nat) returns (ok: bool)
      requires Scanned(m, t) && t < |input| && m.prev == prev
      modifies this, lexer`sp
      ensures lexer.Valid()
      ensures TurnAt(m, Vertical, t, input[m.sp..t]) == if ok then On(At(Vertical, t)) else Done(SyntaxError)
    {
      if (prev == Token.Colon || prev == Vertical) && nodes != [] && nodes[|nodes| - 1].nt == EnumType {
        var value := lexer.ScanString();
        AddEnum(value);
        return true;
      }
      return false;
    }

    method OnRParen(prev: Token, ghost m: Machine, ghost t: nat) returns (ok: bool)
      requires Scanned(m, t) && t < |input| && m.prev == prev
      modifies this, lexer`sp
      ensures lexer.Valid()
      ensures TurnAt(m, RParen, t, input[m.sp..t]) == if ok then On(At(RParen, t)) else Done(SyntaxError)
    {
      if prev == LParen {
        var value := lexer.ScanString();
        if value == STRING {
          nodes := nodes + [Typed(StringType)];
        } else if value == NUMBER {
          nodes := nodes + [Typed(NumberType)];
        } else {
          return false;
        }
        return true;
      }
      if prev == Vertical && nodes != [] && nodes[|nodes| - 1].nt == EnumType {
        var value := lexer.ScanString();
        AddEnum(value);
        return true;
      }
      return false;
    }

    /** One round of the loop; None when the loop goes on. */
    method Round(prev: Token, prevIndex: int) returns (r: Option<Result>)
      requires lexer.Valid() && lexer.input == input && lexer.bp <= |input|
      modifies this, lexer
      ensures r.Some? ==> Turn(input, old(At(prev, prevIndex))) == Done(r.value)
      ensures r.None? ==> lexer.Valid() && old(lexer.bp) < lexer.bp <= |input|
      ensures r.None? ==> Turn(input, old(At(prev, prevIndex))) == On(At(lexer.token, lexer.bp - 1))
    {
      hide TurnAt, Kind;
      ghost var m := At(prev, prevIndex);
      lexer.NextToken();
      ghost var t: nat := lexer.bp - 1;
      assert lexer.token == TokenAt(input, t) && (lexer.token == Eof || t < |input|);
      var ok := false;
      if lexer.token == Slash {
        ok := OnSlash(prev, prevIndex, m, t);
      } else if lexer.token == LParen {
        if prev == Slash {
          var _ := lexer.ScanString();
          ok := true;
        }
        OnLParen(m, t, input[m.sp..t]);
      } else if lexer.token == Token.Colon {
        ok := OnColon(prev, m, t);
      } else if lexer.token == Vertical {
        ok := OnVertical(prev, m, t);
      } else if lexer.token == RParen {
        ok := OnRParen(prev, m, t);
      } else {
        ok := CloseText(prev);
        OnEof(m, t, input[m.sp..t]);
        return Some(if ok && prev != Unknown then Nodes(nodes) else SyntaxError);
      }
      return if ok then None else Some(SyntaxError);
    }

    method Parse() returns (r: Result)
      requires nodes == [] && lexer.Valid() && lexer.input == input && lexer.bp == 0 && lexer.sp == 0
      modifies this, lexer
      ensures r == if input == [SLASH] then Nodes([SLASH_NODE]) else Run(input, START)
    {
      hide Turn;
      if |input| == 1 && input[0] == SLASH {
        return Nodes([SLASH_NODE]);
      }
      var prev, prevIndex := Unknown, -1;
      while true
        invariant lexer.Valid() && lexer.bp <= |input|
        invariant Run(input, START) == Run(input, At(prev, prevIndex))
        decreases |input| - lexer.bp
      {
        var result := Round(prev, prevIndex);
        if result.Some? {
          return result.value;
        }
        prev, prevIndex := lexer.token, lexer.bp - 1;
      }
    }
  }
}
