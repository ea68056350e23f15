/** The byte scanner of src/json/parser.go. Each loop is a method proved against a function of the remaining
    bytes; JsonLookup proves what those functions compute on well-formed texts. */
module JsonScan {
  import opened Bytes
  import opened JsonEscape
  import opened JsonText

  datatype ValueType = NotExist | String | Number | Object | Array | Boolean | Null | Unknown

  datatype Error =
    | NoError | KeyPathNotFound | UnknownValueType | MalformedJson | MalformedString | MalformedArray
    | MalformedObject

  type Path = keys: seq<seq<byte>> | forall k :: 0 <= k < |keys| ==> |keys[k]| > 0 && keys[k][0] != LBRACKET

  /** A slice data[from:] of the source is the whole text and a start here; what the source computes relative to
      a slice stays relative, and the functions give positions in the text. */
  function Rel(from: nat, at: int): int {
    if at == -1 then -1 else at - from
  }

  // ---- White space and scalar tokens

  /** The first position from `i` on that holds no white space. */
  function SkipBlank(data: seq<byte>, i: nat): (r: nat)
    requires i <= |data|
    ensures i <= r <= |data|
    ensures forall k :: i <= k < r ==> IsWs(data[k])
    ensures r < |data| ==> !IsWs(data[r])
    decreases |data| - i
  {
    if i < |data| && IsWs(data[i]) then SkipBlank(data, i + 1) else i
  }

  function NextTokenAt(data: seq<byte>, i: nat): int
    requires i <= |data|
  {
    if SkipBlank(data, i) == |data| then -1 else SkipBlank(data, i)
  }

  method NextToken(data: seq<byte>, from: nat) returns (r: int)
    requires from <= |data|
    ensures r == Rel(from, NextTokenAt(data, from))
  {
    var i := from;
    while i < |data|
      invariant from <= i <= |data|
      invariant SkipBlank(data, from) == SkipBlank(data, i)
    {
      if !IsWs(data[i]) {
        return i - from;
      }
      i := i + 1;
    }
    return -1;
  }

  /** Where the last byte that is not white space is, or -1. */
  method LastToken(data: seq<byte>) returns (r: int)
    ensures r == -1 ==> IsBlank(data)
    ensures r != -1 ==> 0 <= r < |data| && !IsWs(data[r]) && forall k :: r < k < |data| ==> IsWs(data[k])
  {
    r := |data| - 1;
    while r >= 0
      invariant -1 <= r < |data|
      invariant forall k :: r < k < |data| ==> IsWs(data[k])
    {
      if !IsWs(data[r]) {
        return;
      }
      r := r - 1;
    }
  }

  predicate EndsToken(c: byte) {
    IsWs(c) || c == COMMA || c == RBRACE || c == RBRACKET
  }

  /** The first position from `i` on that ends a scalar, or the end of the text. */
  function TokenStop(data: seq<byte>, i: nat): (r: nat)
    requires i <= |data|
    ensures i <= r <= |data|
    ensures forall k :: i <= k < r ==> !EndsToken(data[k])
    ensures r < |data| ==> EndsToken(data[r])
    decreases |data| - i
  {
    if i == |data| || EndsToken(data[i]) then i else TokenStop(data, i + 1)
  }

  method TokenEnd(data: seq<byte>, from: nat) returns (r: nat)
    requires from <= |data|
    ensures r == TokenStop(data, from) - from
  {
    var i := from;
    while i < |data|
      invariant from <= i <= |data|
      invariant TokenStop(data, from) == TokenStop(data, i)
    {
      if EndsToken(data[i]) {
        return i - from;
      }
      i := i + 1;
    }
    return |data| - from;
  }

  // ---- Strings

  /** One pass over the inside of a string: just behind the first quote that no backslash escapes, or -1.
      `esc` says whether the byte at `i` is escaped. */
  function CloseQuote(data: seq<byte>, i: nat, esc: bool): (r: int)
    requires i <= |data|
    ensures r == -1 || (i < r <= |data| && data[r - 1] == QUOTE)
    decreases |data| - i
  {
    if i == |data| then -1
    else if esc then CloseQuote(data, i + 1, false)
    else if data[i] == QUOTE then i + 1
    else CloseQuote(data, i + 1, data[i] == BACKSLASH)
  }

  predicate HasBackslash(data: seq<byte>, from: nat, to: nat)
    requires to <= |data|
  {
    exists k :: from <= k < to && data[k] == BACKSLASH
  }

  /** How many backslashes stand directly before position `i`, none of them before `from`. */
  function BackslashRun(data: seq<byte>, from: nat, i: nat): (n: nat)
    requires from <= i <= |data|
    ensures n <= i - from
    ensures n > 0 ==> HasBackslash(data, from, i)
  {
    if i == from || data[i - 1] != BACKSLASH then 0 else 1 + BackslashRun(data, from, i - 1)
  }

  lemma {:induction false} RunIsAll(data: seq<byte>, from: nat, i: nat, n: nat)
    requires from <= i <= |data| && n <= i - from
    requires forall k :: i - n <= k < i ==> data[k] == BACKSLASH
    requires i - n == from || data[i - n - 1] != BACKSLASH
    ensures BackslashRun(data, from, i) == n
  {
    if n > 0 { RunIsAll(data, from, i - 1, n - 1); }
  }

  /** stringEnd: looks at the backslashes before each quote, backwards and two at a time, instead of carrying
      the escape state along; it finds the quote that the one-pass automaton finds. */
  method StringEnd(data: seq<byte>, from: nat) returns (r: int, escaped: bool)
    requires from <= |data|
    ensures r == Rel(from, CloseQuote(data, from, false))
    ensures escaped == HasBackslash(data, from, if r == -1 then |data| else from + r - 1)
  {
    escaped := false;
    var i := from;
    while i < |data|
      invariant from <= i <= |data|
      invariant escaped == HasBackslash(data, from, i)
      invariant CloseQuote(data, from, false) == CloseQuote(data, i, BackslashRun(data, from, i) % 2 == 1)
    {
      var c := data[i];
      if c == QUOTE {
        if !escaped {
          return i + 1 - from, false;
        }
        var even := EvenBackslashesBefore(data, from, i);
        if even {
          return i + 1 - from, true;
        }
      } else if c == BACKSLASH {
        escaped := true;
      }
      i := i + 1;
    }
    return -1, escaped;
  }

  /** The inner loop of stringEnd. */
  method EvenBackslashesBefore(data: seq<byte>, from: nat, i: nat) returns (even: bool)
    requires from <= i < |data|
    ensures even == (BackslashRun(data, from, i) % 2 == 0)
  {
    var j: int := i - 1;
    while true
      invariant from - 1 <= j < i && (i - 1 - j) % 2 == 0
      invariant forall k :: j < k < i ==> data[k] == BACKSLASH
      decreases j
    {
      if j < from || data[j] != BACKSLASH {
        RunIsAll(data, from, i, i - 1 - j);
        return true;
      }
      j := j - 1;
      if j < from || data[j] != BACKSLASH {
        RunIsAll(data, from, i, i - 1 - j);
        return false;
      }
      j := j - 1;
    }
  }

  // ---- Brackets

  /** Just behind the bracket that brings `level` back to 0, strings skipped; -1 when there is none. */
  function BlockClose(data: seq<byte>, i: nat, open: byte, close: byte, level: int): (r: int)
    requires i <= |data|
    ensures r == -1 || i < r <= |data|
    decreases |data| - i
  {
    if i == |data| then -1
    else if data[i] == QUOTE then
      var se := CloseQuote(data, i + 1, false);
      if se == -1 then -1 else BlockClose(data, se, open, close, level)
    else if data[i] == open then BlockClose(data, i + 1, open, close, level + 1)
    else if data[i] == close then
      if level - 1 == 0 then i + 1 else BlockClose(data, i + 1, open, close, level - 1)
    else BlockClose(data, i + 1, open, close, level)
  }

  method BlockEnd(data: seq<byte>, from: nat, open: byte, close: byte) returns (r: int)
    requires from <= |data|
    ensures r == Rel(from, BlockClose(data, from, open, close, 0))
  {
    var level := 0;
    var i := from;
    while i < |data|
      invariant from <= i <= |data|
      invariant BlockClose(data, from, open, close, 0) == BlockClose(data, i, open, close, level)
    {
      if data[i] == QUOTE {
        var se, _ := StringEnd(data, i + 1);
        if se == -1 {
          return -1;
        }
        i := i + se;
      } else if data[i] == open {
        level := level + 1;
      } else if data[i] == close {
        level := level - 1;
        if level == 0 {
          return i + 1 - from;
        }
      }
      i := i + 1;
    }
    return -1;
  }

  // ---- The key search

  datatype State = State(level: int, keyLevel: int, lastMatched: bool)

  datatype Next = Stop(result: int) | Go(i: nat, st: State)

  /** One pass of the loop of searchKeys at position `i`. */
  function Step(data: seq<byte>, i: nat, keys: Path, st: State): (n: Next)
    requires i < |data|
    ensures n.Stop? ==> n.result == -1 || i < n.result <= |data|
    ensures n.Go? ==> i < n.i <= |data|
  {
    if data[i] == QUOTE then
      var se := CloseQuote(data, i + 1, false);
      if se == -1 then Stop(-1)
      else
        var token := NextTokenAt(data, se);
        if token == -1 then Stop(-1)
        else if data[token] == COLON then
          var next := KeyStep(data[i + 1..se - 1], keys, st);
          if next.None? then Stop(-1)
          else if next.value.keyLevel == |keys| then Stop(token + 1)
          else Go(token + 1, next.value)
        else Go(token, st)
    else if data[i] == LBRACE then
      if st.lastMatched then Go(i + 1, st.(level := st.level + 1)) else SkipBlock(data, i, RBRACE, st)
    else if data[i] == RBRACE then Go(i + 1, CloseStep(st))
    else if data[i] == LBRACKET then SkipBlock(data, i, RBRACKET, st)
    else if data[i] == COLON then Stop(-1)
    else Go(i + 1, st)
  }

  function SkipBlock(data: seq<byte>, i: nat, close: byte, st: State): Next
    requires i < |data|
  {
    var end := BlockClose(data, i, data[i], close, 0);
    if end == -1 then Stop(-1) else Go(end, st)
  }

  /** What the running scan finds from position `i` on: the position just after the colon of the last key of
      the path, or -1. */
  function Scan(data: seq<byte>, i: nat, keys: Path, st: State): (r: int)
    requires i <= |data|
    ensures r == -1 || i < r <= |data|
    decreases |data| - i
  {
    if i == |data| then -1
    else
      match Step(data, i, keys, st)
      case Stop(result) => result
      case Go(i', st') => Scan(data, i', keys, st')
  }

  /** The state after a member name, written `name`; None aborts the search. */
  function KeyStep(name: seq<byte>, keys: Path, st: State): Option<State> {
    if st.level < 1 || Unescaped(name).None? || st.level > |keys| then None
    else if Unescaped(name).value != keys[st.level - 1] then Some(st.(lastMatched := false))
    else if st.keyLevel == st.level - 1 then Some(st.(lastMatched := true, keyLevel := st.keyLevel + 1))
    else Some(st.(lastMatched := true))
  }

  function CloseStep(st: State): State {
    var level := st.level - 1;
    State(level, if level == st.keyLevel then st.keyLevel - 1 else st.keyLevel, st.lastMatched)
  }

  const START := State(0, 0, true)

  function Search(data: seq<byte>, keys: Path): (r: int)
    ensures r == -1 || 0 <= r <= |data|
  {
    if |keys| == 0 then 0 else Scan(data, 0, keys, START)
  }

  method SearchKeys(data: seq<byte>, keys: Path) returns (r: int)
    ensures r == Search(data, keys)
  {
    if |keys| == 0 {
      return 0;
    }
    var keyLevel, level, i, lastMatched := 0, 0, 0, true;
    var stackbuf := new byte[64](_ => 0);
    while i < |data|
      invariant 0 <= i <= |data|
      invariant keyLevel < |keys| && (keyLevel < 0 ==> level > keyLevel)
      invariant Search(data, keys) == Scan(data, i, keys, State(level, keyLevel, lastMatched))
      decreases |data| - i
    {
      var next := Pass(data, i, keys, State(level, keyLevel, lastMatched), stackbuf);
      if next.Stop? {
        return next.result;
      }
      i, level, keyLevel, lastMatched := next.i, next.st.level, next.st.keyLevel, next.st.lastMatched;
    }
    return -1;
  }

  /** The body of the loop of searchKeys. */
  method Pass(data: seq<byte>, at: nat, keys: Path, st: State, stackbuf: array<byte>) returns (next: Next)
    requires at < |data| && st.keyLevel < |keys| && (st.keyLevel < 0 ==> st.level > st.keyLevel)
    modifies stackbuf
    ensures next == Step(data, at, keys, st)
    ensures next.Go? ==> next.st.keyLevel < |keys| && (next.st.keyLevel < 0 ==> next.st.level > next.st.keyLevel)
  {
    var i, level, keyLevel, lastMatched := at, st.level, st.keyLevel, st.lastMatched;
    if data[i] == QUOTE {
      next := KeyPass(data, i, keys, st, stackbuf);
      return;
    } else if data[i] == LBRACE {
      if !lastMatched {
        var end := BlockEnd(data, i, LBRACE, RBRACE);
        if end == -1 {
          return Stop(-1);
        }
        i := i + end - 1;
      } else {
        level := level + 1;
      }
    } else if data[i] == RBRACE {
      level := level - 1;
      if level == keyLevel {
        keyLevel := keyLevel - 1;
      }
    } else if data[i] == LBRACKET {
      // the index branch wants keys[level] to start with a bracket; the index is in range whenever it is read
      assert keyLevel == level ==> 0 <= level < |keys| && keys[level][0] != LBRACKET;
      var arraySkip := BlockEnd(data, i, LBRACKET, RBRACKET);
      if arraySkip == -1 {
        return Stop(-1);
      }
      i := i + arraySkip - 1;
    } else if data[i] == COLON {
      return Stop(-1);
    }
    return Go(i + 1, State(level, keyLevel, lastMatched));
  }

  /** The branch of searchKeys for a quote at position `begin`: a member name, or a string value to pass over. */
  method KeyPass(data: seq<byte>, begin: nat, keys: Path, st: State, stackbuf: array<byte>) returns (next: Next)
    requires begin < |data| && data[begin] == QUOTE && st.keyLevel < |keys|
    modifies stackbuf
    ensures next == Step(data, begin, keys, st)
  {
    var keyLevel, lastMatched := st.keyLevel, st.lastMatched;
    var i := begin + 1;
    var keyBegin := i;
    var strEnd, keyEscaped := StringEnd(data, i);
    if strEnd == -1 {
      return Stop(-1);
    }
    i := i + strEnd;
    var keyEnd := i - 1;
    var valueOffset := NextToken(data, i);
    if valueOffset == -1 {
      return Stop(-1);
    }
    i := i + valueOffset;
    if data[i] != COLON {
      return Go(i, st);
    }
    if st.level < 1 {
      return Stop(-1);
    }
    var keyUnesc := ReadKey(data, keyBegin, keyEnd, keyEscaped, stackbuf);
    if keyUnesc.None? || st.level > |keys| {
      return Stop(-1);
    }
    if keyUnesc.value == keys[st.level - 1] {
      lastMatched := true;
      if keyLevel == st.level - 1 {
        keyLevel := keyLevel + 1;
        if keyLevel == |keys| {
          return Stop(i + 1);
        }
      }
    } else {
      lastMatched := false;
    }
    return Go(i + 1, State(st.level, keyLevel, lastMatched));
  }

  /** A member name as searchKeys compares it: unescaped only when a backslash was seen in it. */
  method ReadKey(data: seq<byte>, begin: nat, end: nat, keyEscaped: bool, stackbuf: array<byte>)
    returns (r: Option<seq<byte>>)
    requires begin <= end <= |data| && keyEscaped == HasBackslash(data, begin, end)
    modifies stackbuf
    ensures r == Unescaped(data[begin..end])
  {
    var key := data[begin..end];
    if !keyEscaped {
      UnescapedPlain(key);
      return Some(key);
    }
    r := Unescape(key, stackbuf);
  }

  // ---- The value at an offset

  datatype Typed = Typed(value: seq<byte>, dataType: ValueType, end: int, err: Error)

  function ScalarType(token: seq<byte>): Option<ValueType>
    requires token != []
  {
    if token[0] == 0x74 || token[0] == 0x66 then
      if token == TRUE || token == FALSE then Some(Boolean) else None
    else if token[0] == 0x75 || token[0] == 0x6E then
      if token == NULL then Some(Null) else None
    else if IsDigit(token[0]) || token[0] == 0x2D then Some(Number)
    else None
  }

  /** getType at position `i`. */
  function TypedAt(data: seq<byte>, i: nat): (r: Typed)
    requires i < |data|
    ensures r.err == NoError ==> i < r.end <= |data| && r.value == data[i..r.end]
    ensures r.err == NoError && r.dataType == String ==> |r.value| >= 2
  {
    if data[i] == QUOTE then
      var end := CloseQuote(data, i + 1, false);
      if end == -1 then Typed([], String, i, MalformedString) else Typed(data[i..end], String, end, NoError)
    else if data[i] == LBRACKET then
      var end := BlockClose(data, i, LBRACKET, RBRACKET, 0);
      if end == -1 then Typed([], Array, i, MalformedArray) else Typed(data[i..end], Array, end, NoError)
    else if data[i] == LBRACE then
      var end := BlockClose(data, i, LBRACE, RBRACE, 0);
      if end == -1 then Typed([], Object, i, MalformedObject) else Typed(data[i..end], Object, end, NoError)
    else
      var end := TokenStop(data, i);
      if end == i then Typed([], Unknown, i, UnknownValueType)
      else
        match ScalarType(data[i..end])
        case None => Typed([], Unknown, i, UnknownValueType)
        case Some(t) => Typed(data[i..end], t, end, NoError)
  }

  method GetType(data: seq<byte>, offset: nat) returns (value: seq<byte>, dataType: ValueType, end: int, err: Error)
    requires offset < |data|
    ensures TypedAt(data, offset) == Typed(value, dataType, end, err)
  {
    end := offset;
    if data[offset] == QUOTE {
      var idx, _ := StringEnd(data, offset + 1);
      if idx == -1 {
        return [], String, offset, MalformedString;
      }
      end := end + idx + 1;
      dataType := String;
    } else if data[offset] == LBRACKET {
      end := BlockEnd(data, offset, LBRACKET, RBRACKET);
      if end == -1 {
        return [], Array, offset, MalformedArray;
      }
      end := end + offset;
      dataType := Array;
    } else if data[offset] == LBRACE {
      end := BlockEnd(data, offset, LBRACE, RBRACE);
      if end == -1 {
        return [], Object, offset, MalformedObject;
      }
      end := end + offset;
      dataType := Object;
    } else {
      var n := TokenEnd(data, end);
      var token := data[offset..end + n];
      var c := data[offset];
      if c == 0x74 || c == 0x66 {
        if token == TRUE || token == FALSE {
          dataType := Boolean;
        } else {
          return [], Unknown, offset, UnknownValueType;
        }
      } else if c == 0x75 || c == 0x6E {
        if token == NULL {
          dataType := Null;
        } else {
          return [], Unknown, offset, UnknownValueType;
        }
      } else if IsDigit(c) || c == 0x2D {
        dataType := Number;
      } else {
        return [], Unknown, offset, UnknownValueType;
      }
      end := end + n;
    }
    return data[offset..end], dataType, end, NoError;
  }

  /** Which error getType reports tells what the value began with, and that it does not end; other bytes begin a value
      exactly when they are one of the three words or start like a number. */
  lemma TypeErrors(data: seq<byte>, i: nat)
    requires i < |data|
    ensures var t := TypedAt(data, i);
            && (t.err == MalformedString <==> data[i] == QUOTE && CloseQuote(data, i + 1, false) == -1)
            && (t.err == MalformedArray <==>
                  data[i] == LBRACKET && BlockClose(data, i, LBRACKET, RBRACKET, 0) == -1)
            && (t.err == MalformedObject <==> data[i] == LBRACE && BlockClose(data, i, LBRACE, RBRACE, 0) == -1)
            && (data[i] != QUOTE && data[i] != LBRACKET && data[i] != LBRACE ==>
                  var token := data[i..TokenStop(data, i)];
                  t.err == if token in {TRUE, FALSE, NULL} || (token != [] && (IsDigit(token[0]) || token[0] == 0x2D))
                           then NoError else UnknownValueType)
  {
    hide CloseQuote, BlockClose, TokenStop;
  }

  datatype Got = Got(value: seq<byte>, dataType: ValueType, offset: int, end: int, err: Error)

  /** internalGet: find the keys, go to the value, and take its bytes, without the quotes of a string. */
  function GetAt(data: seq<byte>, keys: Path): (g: Got)
    ensures g.err == NoError ==> 0 <= g.offset < g.end <= |data|
  {
    var at := Search(data, keys);
    if |keys| > 0 && at == -1 then Got([], NotExist, -1, -1, KeyPathNotFound)
    else
      var offset := NextTokenAt(data, at);
      if offset == -1 then Got([], NotExist, at, -1, MalformedJson)
      else
        var t := TypedAt(data, offset);
        var value := if t.err == NoError && t.dataType == String then t.value[1..|t.value| - 1] else t.value;
        Got(value, t.dataType, offset, t.end, t.err)
  }

  method InternalGet(data: seq<byte>, keys: Path) returns (g: Got)
    ensures g == GetAt(data, keys)
  {
    var offset := 0;
    if |keys| > 0 {
      offset := SearchKeys(data, keys);
      if offset == -1 {
        return Got([], NotExist, -1, -1, KeyPathNotFound);
      }
    }
    var nO := NextToken(data, offset);
    if nO == -1 {
      return Got([], NotExist, offset, -1, MalformedJson);
    }
    offset := offset + nO;
    var value, dataType, end, err := GetType(data, offset);
    if err != NoError {
      return Got(value, dataType, offset, end, err);
    }
    if dataType == String {
      value := value[1..|value| - 1];
    }
    return Got(value, dataType, offset, end, NoError);
  }
}
