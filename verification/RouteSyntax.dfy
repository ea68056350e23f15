/** Which route patterns the parser of src/route/parser.go accepts. */
module RouteSyntax {
  import opened Bytes
  import opened RouteParser
  import opened RoutePatterns

  /** A meta character and where it stands. */
  datatype Mark = Mark(token: Token, pos: nat)

  /** The meta characters from `i` on, up to the end or to a byte that the scanner takes for it. */
  function Marks(input: seq<byte>, i: nat): (ms: seq<Mark>)
    requires i <= |input|
    ensures forall k :: 0 <= k < |ms| ==> i <= ms[k].pos < |input|
    decreases |input| - i
  {
    if i == |input| || Kind(input[i]) == Eof then []
    else if Kind(input[i]) == Unknown then Marks(input, i + 1)
    else [Mark(Kind(input[i]), i)] + Marks(input, i + 1)
  }

  /** The text between two meta characters. */
  function Between(input: seq<byte>, p: Mark, x: Mark): seq<byte> {
    if p.pos < x.pos <= |input| then input[p.pos + 1..x.pos] else []
  }

  /** The colon `k` opens the values of an enum, or stands behind the parenthesis that closes one. */
  predicate AtEnum(ms: seq<Mark>, k: nat)
    requires k < |ms|
  {
    k > 0 && (ms[k - 1].token == LParen || (ms[k - 1].token == RParen && k > 1 && ms[k - 2].token == Vertical))
  }

  /** The grammar, one meta character at a time: what may stand before it, and the text in between where it matters. */
  predicate Fits(input: seq<byte>, ms: seq<Mark>, k: nat)
    requires k < |ms|
  {
    var x := ms[k];
    if k == 0 then x.token == Slash
    else
      var p := ms[k - 1];
      match x.token
      case Slash => p.token == Slash ==> Between(input, p, x) != []
      case LParen => p.token == Slash
      case Colon => p.token == RParen || (p.token == LParen && Between(input, p, x) == ENUM)
      case Vertical => p.token == Vertical || (p.token == Token.Colon && AtEnum(ms, k - 1))
      case RParen => p.token == Vertical || (p.token == LParen && Between(input, p, x) in [NUMBER, STRING])
      case _ => false
  }

  /** The parser when it has taken the first `k` meta characters. */
  ghost predicate Took(input: seq<byte>, m: Machine, ms: seq<Mark>, k: nat) {
    && 0 < k <= |ms| && m.sp <= m.bp <= |input| && Marks(input, m.bp) == ms[k..]
    && m.bp == ms[k - 1].pos + 1 && m.prev == ms[k - 1].token && m.prevIndex == ms[k - 1].pos
    && m.prev != Unknown && m.prev != Eof && (m.prev == LParen ==> m.sp == m.bp)
    && (m.prev == Token.Colon || m.prev == RParen || m.prev == Vertical ==>
          m.nodes != [] && !LastIs(m.nodes, ConstType))
    && (m.prev == Vertical ==> LastIs(m.nodes, EnumType))
    && (m.prev == Token.Colon ==> (LastIs(m.nodes, EnumType) <==> AtEnum(ms, k - 1)))
    && (m.prev == RParen ==> (LastIs(m.nodes, EnumType) <==> k > 1 && ms[k - 2].token == Vertical))
  }

  /** The scanner finds the first of the meta characters. */
  lemma {:induction false} FirstMark(input: seq<byte>, i: nat)
    requires i <= |input|
    ensures var t, ms := Stop(input, i), Marks(input, i);
            if ms == [] then TokenAt(input, t) == Eof
            else
              && t < |input| && ms == [Mark(Kind(input[t]), t)] + Marks(input, t + 1)
              && Kind(input[t]) != Unknown && Kind(input[t]) != Eof
    decreases |input| - i
  {
    if i < |input| && Kind(input[i]) == Unknown { FirstMark(input, i + 1); }
  }

  lemma {:induction false} TurnFits(input: seq<byte>, m: Machine, ms: seq<Mark>, k: nat, t: nat)
    requires Took(input, m, ms, k) && k < |ms| && ms[k].pos == t && m.bp <= t < |input|
    requires ms[k].token != Unknown && ms[k].token != Eof && Marks(input, t + 1) == ms[k + 1..]
    ensures match TurnAt(m, ms[k].token, t, input[m.sp..t])
            case Done(r) => r == SyntaxError && !Fits(input, ms, k)
            case On(m') => Fits(input, ms, k) && Took(input, m', ms, k + 1) && m.bp < m'.bp
  {
    hide Marks, Kind;
  }

  /** One round: the next meta character is taken exactly when it fits. */
  lemma {:induction false} TakesOne(input: seq<byte>, m: Machine, ms: seq<Mark>, k: nat)
    requires Took(input, m, ms, k) && k < |ms|
    ensures match Turn(input, m)
            case Done(r) => r == SyntaxError && !Fits(input, ms, k)
            case On(m') => Fits(input, ms, k) && Took(input, m', ms, k + 1) && m.bp < m'.bp
  {
    FirstMark(input, m.bp);
    var t := Stop(input, m.bp);
    assert ms[k..] == [ms[k]] + ms[k + 1..];
    assert ms[k] == Mark(Kind(input[t]), t) && Marks(input, t + 1) == ms[k + 1..];
    hide Marks, Stop, Kind, TokenAt;
    TurnFits(input, m, ms, k, t);
  }

  lemma {:induction false} TakesRest(input: seq<byte>, m: Machine, ms: seq<Mark>, k: nat)
    requires Took(input, m, ms, k)
    ensures Run(input, m).Nodes? <==> forall l :: k <= l < |ms| ==> Fits(input, ms, l)
    decreases |ms| - k
  {
    if k < |ms| {
      TakesOne(input, m, ms, k);
      hide Turn, Fits;
      if Turn(input, m).On? { TakesRest(input, Turn(input, m).m, ms, k + 1); }
    } else {
      FirstMark(input, m.bp);
    }
  }

  /** The first round. */
  lemma {:induction false} Begins(input: seq<byte>)
    ensures var ms := Marks(input, 0);
            match Turn(input, START)
            case Done(r) => r == SyntaxError && (ms == [] || !Fits(input, ms, 0))
            case On(m') => ms != [] && Fits(input, ms, 0) && Took(input, m', ms, 1)
  {
    FirstMark(input, 0);
    hide Marks, Stop, Kind;
  }

  /** A pattern is accepted exactly when it has a meta character and every one of them fits: no other pattern is a
      syntax error, and none of those is taken. */
  lemma AcceptedExactly(pattern: seq<byte>)
    ensures var input := Stripped(pattern); var ms := Marks(input, 0);
            Parsed(pattern).Nodes? <==> ms != [] && forall k :: 0 <= k < |ms| ==> Fits(input, ms, k)
  {
    var input := Stripped(pattern);
    var ms := Marks(input, 0);
    Begins(input);
    if input == [SLASH] {
      assert ms == [Mark(Slash, 0)];
    } else {
      hide Turn, Fits, Marks;
      if Turn(input, START).On? {
        TakesRest(input, Turn(input, START).m, ms, 1);
      }
    }
  }

  /** The grammar is looser than it reads: a parenthesis that is never closed and all behind it, and the text between
      a slash and its parenthesis, count for nothing. So "/a(number" is accepted, as the root. */
  lemma UnclosedIsRoot(x: seq<byte>, y: seq<byte>)
    requires Plain(x) && Plain(y)
    ensures Parsed([SLASH] + x + [LPAREN] + y) == Nodes([SLASH_NODE])
  {
    Kinds();
    hide Kind, Run;
    var input := [SLASH] + x + [LPAREN] + y;
    assert Stripped(input) == input by {
      if y != [] { assert Kind(y[|y| - 1]) == Unknown; }
    }
    assert input[0..0] == [] && input[1..1 + |x|] == x && input[2 + |x|..] == y && input[1 + |x|] == LPAREN;
    var m1 := Machine(1, 1, Slash, 0, [SLASH_NODE]);
    Goes(input, START, 0, m1);
    var m2 := Machine(2 + |x|, 2 + |x|, LParen, 1 + |x|, [SLASH_NODE]);
    Goes(input, m1, 1 + |x|, m2);
    Ends(input, m2);
  }
}
