/** The parser as it runs: cursors into the text, moved by loops. */
module JsonReader {
  import opened JsonParser

  /** A value and the cursor behind its last character, or an error and its position. */
  datatype Found<T> = Found(value: T, next: nat) | Failure(error: Error, pos: nat)

  /** The same result, told as positions in the text. */
  predicate Agrees<T(==)>(r: Found<T>, p: Result<T>, s: string) {
    match p
    case Ok(v, rest) => r.Found? && r.value == v && r.next + |rest| == |s|
    case Err(e, left) => r.Failure? && r.error == e && r.pos + left == |s|
  }

  /** The character at a cursor; the terminator is the last one that may be looked at. */
  function Peek(s: string, c: nat): char
    requires c <= |s|
  {
    if c < |s| then s[c] else NUL
  }

  lemma Advance(s: string, c: nat, n: nat)
    requires c + n <= |s|
    ensures s[c..][n..] == s[c + n..]
    ensures forall i :: 0 <= i < n ==> s[c..][i] == s[c + i]
  {
  }

  // ----- Strings -----

  lemma {:induction false} FirstNonHexIs(t: string, n: nat, i: nat)
    requires i <= n && i <= |t| && AllHex(t[..i]) && (i < n ==> i == |t| || !IsHex(t[i]))
    ensures FirstNonHex(t, n) == i
  {
    if i > 0 {
      assert t[..i][0] == t[0] && forall k :: 1 <= k < i ==> t[1..][k - 1] == t[..i][k];
      FirstNonHexIs(t[1..], n - 1, i - 1);
    }
  }

  /** The four digits of a \u escape from `at` on, up to the first that is none. */
  method ReadCode(s: string, at: nat) returns (ok: bool, code: nat, pos: nat)
    requires at <= |s| && NUL !in s
    ensures pos == at + FirstNonHex(s[at..], 4) && (ok <==> pos == at + 4)
    ensures ok ==> at + 4 <= |s| && code == Code(s[at..][..4])
  {
    var i := 0;
    code := 0;
    ok := true;
    pos := at;
    while i < 4
      invariant 0 <= i <= 4 && at + i <= |s| && pos == at + i && AllHex(s[at..at + i])
      invariant code == CodeOf(s[at..at + i])
    {
      var c := Peek(s, at + i);
      if !IsHex(c) {
        assert s[at..][..i] == s[at..at + i];
        FirstNonHexIs(s[at..], 4, i);
        ok := false;
        return;
      }
      assert s[at..at + i + 1] == s[at..at + i] + [c];
      code := code * 16 + ToHex(c);
      i := i + 1;
      pos := at + i;
    }
    assert s[at..][..4] == s[at..at + 4];
    FirstNonHexIs(s[at..], 4, 4);
    FourDigits(s[at..at + 4]);
  }

  function CodeOf(h: string): nat
    requires AllHex(h)
  {
    if h == "" then 0 else CodeOf(h[..|h| - 1]) * 16 + ToHex(h[|h| - 1])
  }

  lemma FourDigits(h: string)
    requires |h| == 4 && AllHex(h)
    ensures CodeOf(h) == Code(h)
  {
    assert h[..3][..2] == h[..2] && h[..2][..1] == h[..1] && h[..1][..0] == "";
    assert CodeOf(h[..1]) == ToHex(h[0]);
    assert CodeOf(h[..2]) == CodeOf(h[..1]) * 16 + ToHex(h[1]);
    assert CodeOf(h[..3]) == CodeOf(h[..2]) * 16 + ToHex(h[2]);
  }

  lemma NulIsNoEscape()
    ensures !IsEscape(NUL) && NUL != 'u'
  {
  }

  /** An escape: the characters it stands for, or where it is broken. */
  method EscapeAt(s: string, c: nat, ghost acc: string, ghost from: nat) returns (ok: bool, more: string, pos: nat)
    requires c < |s| <= c + from && NUL !in s && s[c] == '\\'
    ensures ok ==> c + 2 <= pos <= |s| && ParseString(s[c..], acc, from) == ParseString(s[pos..], acc + more, from)
    ensures !ok ==> pos <= |s| && ParseString(s[c..], acc, from) == Err(InvalidChar, |s| - pos)
  {
    hide FirstNonHex, Code, Utf8, Unescape, IsEscape;
    NulIsNoEscape();
    var e := Peek(s, c + 1);
    more := "";
    if e == 'u' {
      Advance(s, c, 2);
      var code;
      ok, code, pos := ReadCode(s, c + 2);
      if ok {
        Advance(s, c, 6);
        more := Utf8(code);
      }
    } else if IsEscape(e) {
      Advance(s, c, 2);
      ok, more, pos := true, [Unescape(e)], c + 2;
    } else {
      ok, pos := false, c;
    }
  }

  lemma StringStep(s: string, c: nat, acc: string, from: nat)
    requires c <= |s| <= c + from
    ensures c == |s| ==> ParseString(s[c..], acc, from) == Err(UnterminatedValue, from)
    ensures c < |s| && s[c] == '"' ==> ParseString(s[c..], acc, from) == Ok(acc, s[c + 1..])
    ensures c < |s| && s[c] < ' ' ==> ParseString(s[c..], acc, from) == Err(InvalidChar, |s| - c)
    ensures c < |s| && s[c] != '\\' && s[c] != '"' && s[c] >= ' ' ==>
      ParseString(s[c..], acc, from) == ParseString(s[c + 1..], acc + [s[c]], from)
  {
    if c < |s| { Advance(s, c, 1); }
  }

  /** `parseString`, from behind the opening quote on. */
  method ParseStringAt(s: string, start: nat) returns (r: Found<string>)
    requires start <= |s| && NUL !in s
    ensures Agrees(r, ParseString(s[start..], "", |s| - start), s)
  {
    hide ParseString;
    var a, c, value := start, start, "";
    ghost var from := |s| - start;
    assert value + s[a..c] == "";
    while c < |s|
      invariant start <= a <= c <= |s|
      invariant ParseString(s[start..], "", from) == ParseString(s[c..], value + s[a..c], from)
    {
      StringStep(s, c, value + s[a..c], from);
      if s[c] == '\\' {
        ghost var acc := value + s[a..c];
        if c != a { value := value + s[a..c]; }
        assert value == acc;
        var ok, more, pos := EscapeAt(s, c, acc, from);
        if !ok { return Failure(InvalidChar, pos); }
        value := value + more;
        c := pos - 1;
        a := c + 1;
        assert value + s[a..c + 1] == value;
      } else if s[c] == '"' {
        if c != a { value := value + s[a..c]; } else { assert value + s[a..c] == value; }
        return Found(value, c + 1);
      } else if s[c] < ' ' {
        return Failure(InvalidChar, c);
      } else {
        assert value + s[a..c + 1] == value + s[a..c] + [s[c]];
      }
      c := c + 1;
    }
    StringStep(s, c, value + s[a..c], from);
    r := Failure(UnterminatedValue, start);
  }

  // ----- Values -----

  /** Whether the word stands at the cursor; looks no further than the first character that differs. */
  method LooksAt(s: string, c: nat, word: string) returns (same: bool)
    requires c <= |s| && NUL !in s && NUL !in word
    ensures same <==> word <= s[c..]
  {
    var i := 0;
    while i < |word| && Peek(s, c + i) == word[i]
      invariant 0 <= i <= |word| && c + i <= |s| && s[c..c + i] == word[..i]
    {
      assert s[c..c + i + 1] == s[c..c + i] + [s[c + i]];
      i := i + 1;
    }
    same := i == |word|;
    if same {
      assert s[c..][..|word|] == s[c..c + i];
    } else {
      assert c + i < |s| ==> s[c..][i] != word[i];
    }
  }

  lemma ValueStep(s: string, c: nat, from: nat, read: Reader)
    requires c <= |s| <= c + from
    ensures c == |s| ==> ParseValue(s[c..], from, read) == Err(UnterminatedValue, from)
    ensures c < |s| && s[c] == '{' ==>
      ParseValue(s[c..], from, read) == ParseObject(s[c + 1..], SeekKey, "", map[], |s| - c - 1, read)
    ensures c < |s| && s[c] == '[' ==> ParseValue(s[c..], from, read) == ParseArray(s[c + 1..], true, [], |s| - c - 1, read)
    ensures c < |s| && !NotWs(s[c]) ==> ParseValue(s[c..], from, read) == ParseValue(s[c + 1..], from, read)
  {
    hide ParseObject, ParseArray, ParseString;
    if c < |s| { Advance(s, c, 1); }
  }

  /** A string, a word or a number at the cursor, or none of them. */
  method ScalarAt(s: string, c: nat, ghost from: nat, read: Reader) returns (r: Found<Value>)
    requires c < |s| <= c + from && NUL !in s && s[c] != '{' && s[c] != '[' && NotWs(s[c])
    ensures Agrees(r, ParseValue(s[c..], from, read), s)
  {
    hide ParseObject, ParseArray, ParseString;
    Advance(s, c, 1);
    if s[c] == '"' {
      var str := ParseStringAt(s, c + 1);
      r := match str case Found(v, next) => Found(String(v), next) case Failure(e, pos) => Failure(e, pos);
    } else if s[c] == 't' {
      var same := LooksAt(s, c, "true");
      r := if same then Found(Bool(true), c + 4) else Failure(InvalidValue, c);
    } else if s[c] == 'f' {
      var same := LooksAt(s, c, "false");
      r := if same then Found(Bool(false), c + 5) else Failure(InvalidValue, c);
    } else if s[c] == 'n' {
      var same := LooksAt(s, c, "null");
      r := if same then Found(Null, c + 4) else Failure(InvalidValue, c);
    } else if s[c] == '-' || '0' <= s[c] <= '9' || s[c] == '.' {
      var n := read(s[c..]);
      r := Found(Number(n.0), c + n.1);
    } else {
      r := Failure(InvalidChar, c);
    }
  }

  /** `parseValue`. */
  method ParseValueAt(s: string, start: nat, read: Reader) returns (r: Found<Value>)
    requires start <= |s| && NUL !in s
    ensures Agrees(r, ParseValue(s[start..], |s| - start, read), s)
    decreases |s| - start, 1
  {
    hide ParseValue, ParseObject, ParseArray;
    var c := start;
    ghost var from := |s| - start;
    while c < |s|
      invariant start <= c <= |s|
      invariant ParseValue(s[start..], from, read) == ParseValue(s[c..], from, read)
    {
      ValueStep(s, c, from, read);
      if s[c] == '{' {
        r := ParseObjectAt(s, c + 1, read);
        return;
      } else if s[c] == '[' {
        r := ParseArrayAt(s, c + 1, read);
        return;
      } else if NotWs(s[c]) {
        r := ScalarAt(s, c, from, read);
        return;
      }
      c := c + 1;
    }
    ValueStep(s, c, from, read);
    r := Failure(UnterminatedValue, start);
  }

  lemma ObjectStep(s: string, c: nat, state: ObjectState, key: string, m: map<string, Value>, from: nat, read: Reader)
    requires c <= |s| <= c + from
    ensures var p := ParseObject(s[c..], state, key, m, from, read);
      && (c == |s| ==> p == Err(UnterminatedObject, from))
      && (c < |s| && s[c] == '}' && (state == SeekKey || state == SeekEnd) ==> p == Ok(Object(m), s[c + 1..]))
      && (c < |s| && s[c] == ':' && state == SeekSep ==> p == ParseObject(s[c + 1..], SeekVal, key, m, from, read))
      && (c < |s| && s[c] == ',' && state == SeekEnd ==> p == ParseObject(s[c + 1..], SeekKey, key, m, from, read))
      && (c < |s| && !NotWs(s[c]) ==> p == ParseObject(s[c + 1..], state, key, m, from, read))
  {
    hide ParseValue, ParseString;
    if c < |s| { Advance(s, c, 1); }
  }

  predicate Continues(s: string, c: nat, state: ObjectState)
    requires c < |s|
  {
    match state
    case SeekKey => s[c] == '}' || s[c] == '"'
    case SeekSep => s[c] == ':'
    case SeekVal => NotWs(s[c])
    case SeekEnd => s[c] == '}' || s[c] == ','
  }

  lemma ObjectFails(s: string, c: nat, state: ObjectState, key: string, m: map<string, Value>, from: nat, read: Reader)
    requires c < |s| <= c + from && NotWs(s[c]) && !Continues(s, c, state)
    ensures ParseObject(s[c..], state, key, m, from, read) == Err(InvalidChar, |s| - c)
  {
    hide ParseValue, ParseString;
  }

  lemma KeyStep(s: string, c: nat, key: string, m: map<string, Value>, from: nat, read: Reader, k: Found<string>)
    requires c < |s| <= c + from && s[c] == '"' && Agrees(k, ParseString(s[c + 1..], "", |s| - c - 1), s)
    ensures var p := ParseObject(s[c..], SeekKey, key, m, from, read);
      match k
      case Found(v, next) =>
        c < next <= |s| && p == (if v == "" then Err(InvalidKey, |s| - next + 1) else ParseObject(s[next..], SeekSep, v, m, from, read))
      case Failure(e, pos) => pos <= |s| && p == Err(e, |s| - pos)
  {
    hide ParseValue, ParseString;
    Advance(s, c, 1);
    if k.Found? { Suffix(s, c + 1); }
  }

  lemma Suffix(s: string, c: nat)
    requires c <= |s| && ParseString(s[c..], "", |s| - c).Ok?
    ensures var rest := ParseString(s[c..], "", |s| - c).rest; |rest| <= |s| && rest == s[|s| - |rest|..]
  {
    StringEnds(s[c..], "", |s| - c);
    hide ParseString;
    Dropped(s, c);
    EndOfEnd(ParseString(s[c..], "", |s| - c).rest, s[c..], s);
  }

  lemma ValueSuffix(s: string, c: nat, read: Reader)
    requires c <= |s| && ParseValue(s[c..], |s| - c, read).Ok?
    ensures var rest := ParseValue(s[c..], |s| - c, read).rest; |rest| <= |s| - c && rest == s[|s| - |rest|..]
  {
    ValueEnds(s[c..], |s| - c, read);
    hide ParseValue;
    Dropped(s, c);
    EndOfEnd(ParseValue(s[c..], |s| - c, read).rest, s[c..], s);
  }

  lemma MemberStep(s: string, c: nat, key: string, m: map<string, Value>, from: nat, read: Reader, v: Found<Value>)
    requires c < |s| <= c + from && NotWs(s[c]) && Agrees(v, ParseValue(s[c..], |s| - c, read), s)
    ensures var p := ParseObject(s[c..], SeekVal, key, m, from, read);
      match v
      case Found(x, next) => c <= next <= |s| && p == ParseObject(s[next..], SeekEnd, key, m[key := x], from, read)
      case Failure(e, pos) => pos <= |s| && p == Err(e, |s| - pos)
  {
    hide ParseValue, ParseString;
    if v.Found? { ValueSuffix(s, c, read); }
  }

  /** `parseObject`, from behind the opening brace on. */
  method ParseObjectAt(s: string, start: nat, read: Reader) returns (r: Found<Value>)
    requires start <= |s| && NUL !in s
    ensures Agrees(r, ParseObject(s[start..], SeekKey, "", map[], |s| - start, read), s)
    decreases |s| - start, 2
  {
    hide ParseValue, ParseObject, ParseArray, ParseString;
    var c: int, state, key := start, SeekKey, "";
    var m: map<string, Value> := map[];
    ghost var from := |s| - start;
    while c < |s|
      invariant start <= c <= |s| && (state != SeekKey ==> c > start)
      invariant ParseObject(s[start..], SeekKey, "", map[], from, read) == ParseObject(s[c..], state, key, m, from, read)
      decreases |s| - c, if state == SeekVal then 1 else 0
    {
      ObjectStep(s, c, state, key, m, from, read);
      match state {
        case SeekKey =>
          if s[c] == '}' {
            return Found(Object(m), c + 1);
          } else if s[c] == '"' {
            var k := ParseStringAt(s, c + 1);
            KeyStep(s, c, key, m, from, read, k);
            if k.Failure? { return Failure(k.error, k.pos); }
            if |k.value| == 0 { return Failure(InvalidKey, k.next - 1); }
            c, key, state := k.next - 1, k.value, SeekSep;
          } else if NotWs(s[c]) {
            ObjectFails(s, c, state, key, m, from, read);
            return Failure(InvalidChar, c);
          }
        case SeekSep =>
          if s[c] == ':' {
            state := SeekVal;
          } else if NotWs(s[c]) {
            ObjectFails(s, c, state, key, m, from, read);
            return Failure(InvalidChar, c);
          }
        case SeekVal =>
          if NotWs(s[c]) {
            var v := ParseValueAt(s, c, read);
            MemberStep(s, c, key, m, from, read, v);
            if v.Failure? { return Failure(v.error, v.pos); }
            m := m[key := v.value];
            c, state := v.next - 1, SeekEnd;
          }
        case SeekEnd =>
          if s[c] == ',' {
            state := SeekKey;
          } else if s[c] == '}' {
            return Found(Object(m), c + 1);
          } else if NotWs(s[c]) {
            ObjectFails(s, c, state, key, m, from, read);
            return Failure(InvalidChar, c);
          }
      }
      c := c + 1;
    }
    ObjectStep(s, c, state, key, m, from, read);
    r := Failure(UnterminatedObject, start);
  }

  lemma ArrayStep(s: string, c: nat, seekVal: bool, acc: seq<Value>, from: nat, read: Reader)
    requires c <= |s| <= c + from
    ensures var p := ParseArray(s[c..], seekVal, acc, from, read);
      && (c == |s| ==> p == Err(UnterminatedArray, from))
      && (c < |s| && s[c] == ']' ==> p == Ok(Array(acc), s[c + 1..]))
      && (c < |s| && s[c] == ',' && !seekVal ==> p == ParseArray(s[c + 1..], true, acc, from, read))
      && (c < |s| && NotWs(s[c]) && s[c] != ',' && s[c] != ']' && !seekVal ==> p == Err(InvalidChar, |s| - c))
      && (c < |s| && !NotWs(s[c]) ==> p == ParseArray(s[c + 1..], seekVal, acc, from, read))
  {
    hide ParseValue;
    if c < |s| { Advance(s, c, 1); }
  }

  lemma ElementStep(s: string, c: nat, acc: seq<Value>, from: nat, read: Reader, v: Found<Value>)
    requires c < |s| <= c + from && NotWs(s[c]) && s[c] != ']' && Agrees(v, ParseValue(s[c..], |s| - c, read), s)
    ensures var p := ParseArray(s[c..], true, acc, from, read);
      match v
      case Found(x, next) => c <= next <= |s| && p == ParseArray(s[next..], false, acc + [x], from, read)
      case Failure(e, pos) => pos <= |s| && p == Err(e, |s| - pos)
  {
    hide ParseValue;
    if v.Found? { ValueSuffix(s, c, read); }
  }

  /** `parseArray`, from behind the opening bracket on. */
  method ParseArrayAt(s: string, start: nat, read: Reader) returns (r: Found<Value>)
    requires start <= |s| && NUL !in s
    ensures Agrees(r, ParseArray(s[start..], true, [], |s| - start, read), s)
    decreases |s| - start, 2
  {
    hide ParseValue, ParseObject, ParseArray;
    var c: int, seekVal := start, true;
    var items: seq<Value> := [];
    ghost var from := |s| - start;
    while c < |s|
      invariant start <= c <= |s|
      invariant ParseArray(s[start..], true, [], from, read) == ParseArray(s[c..], seekVal, items, from, read)
      decreases |s| - c, if seekVal then 1 else 0
    {
      ArrayStep(s, c, seekVal, items, from, read);
      if seekVal {
        if s[c] == ']' {
          return Found(Array(items), c + 1);
        } else if NotWs(s[c]) {
          var v := ParseValueAt(s, c, read);
          ElementStep(s, c, items, from, read, v);
          if v.Failure? { return Failure(v.error, v.pos); }
          items := items + [v.value];
          c, seekVal := v.next - 1, false;
        }
      } else {
        if s[c] == ',' {
          seekVal := true;
        } else if s[c] == ']' {
          return Found(Array(items), c + 1);
        } else if NotWs(s[c]) {
          return Failure(InvalidChar, c);
        }
      }
      c := c + 1;
    }
    ArrayStep(s, c, seekVal, items, from, read);
    r := Failure(UnterminatedArray, start);
  }

  // ----- The whole text -----

  lemma RootStep(s: string, c: nat, state: RootState, v: Value, read: Reader)
    requires c <= |s|
    ensures var p := ParseRoot(s[c..], state, v, read);
      && (c == |s| ==> p == Ok(v, ""))
      && (c < |s| && s[c] == '}' && state == RootObject ==> p == ParseRoot(s[c + 1..], RootEnd, v, read))
      && (c < |s| && s[c] == ']' && state == RootArray ==> p == ParseRoot(s[c + 1..], RootEnd, v, read))
      && (c < |s| && !NotWs(s[c]) ==> p == ParseRoot(s[c + 1..], state, v, read))
  {
    hide ParseObject, ParseArray;
    if c < |s| { Advance(s, c, 1); }
  }

  predicate RootContinues(c: char, state: RootState) {
    match state
    case RootBegin => c == '{' || c == '['
    case RootObject => c == '}'
    case RootArray => c == ']'
    case RootEnd => false
  }

  lemma RootFails(s: string, c: nat, state: RootState, v: Value, read: Reader)
    requires c < |s| && NotWs(s[c]) && !RootContinues(s[c], state)
    ensures ParseRoot(s[c..], state, v, read) == Err(InvalidChar, |s| - c)
  {
    hide ParseObject, ParseArray;
  }

  lemma ObjectSuffix(s: string, c: nat, read: Reader)
    requires c <= |s| && ParseObject(s[c..], SeekKey, "", map[], |s| - c, read).Ok?
    ensures var rest := ParseObject(s[c..], SeekKey, "", map[], |s| - c, read).rest;
      |rest| < |s| - c && rest == s[|s| - |rest|..]
  {
    ObjectEnds(s[c..], SeekKey, "", map[], |s| - c, read);
    hide ParseObject;
    Dropped(s, c);
    EndOfEnd(ParseObject(s[c..], SeekKey, "", map[], |s| - c, read).rest, s[c..], s);
  }

  lemma ArraySuffix(s: string, c: nat, read: Reader)
    requires c <= |s| && ParseArray(s[c..], true, [], |s| - c, read).Ok?
    ensures var rest := ParseArray(s[c..], true, [], |s| - c, read).rest;
      |rest| < |s| - c && rest == s[|s| - |rest|..]
  {
    ArrayEnds(s[c..], true, [], |s| - c, read);
    hide ParseArray;
    Dropped(s, c);
    EndOfEnd(ParseArray(s[c..], true, [], |s| - c, read).rest, s[c..], s);
  }

  lemma RootObjectValue(s: string, c: nat, v: Value, read: Reader, r: Found<Value>)
    requires c < |s| && s[c] == '{' && Agrees(r, ParseObject(s[c + 1..], SeekKey, "", map[], |s| - c - 1, read), s)
    ensures var p := ParseRoot(s[c..], RootBegin, v, read);
      match r
      case Found(x, next) => c < next <= |s| && p == ParseRoot(s[next..], RootObject, x, read)
      case Failure(e, pos) => pos <= |s| && p == Err(e, |s| - pos)
  {
    hide ParseObject, ParseArray;
    Advance(s, c, 1);
    if r.Found? { ObjectSuffix(s, c + 1, read); }
  }

  lemma RootArrayValue(s: string, c: nat, v: Value, read: Reader, r: Found<Value>)
    requires c < |s| && s[c] == '[' && Agrees(r, ParseArray(s[c + 1..], true, [], |s| - c - 1, read), s)
    ensures var p := ParseRoot(s[c..], RootBegin, v, read);
      match r
      case Found(x, next) => c < next <= |s| && p == ParseRoot(s[next..], RootArray, x, read)
      case Failure(e, pos) => pos <= |s| && p == Err(e, |s| - pos)
  {
    hide ParseObject, ParseArray;
    Advance(s, c, 1);
    if r.Found? { ArraySuffix(s, c + 1, read); }
  }

  /** `fromString`. */
  method FromString(raw: string, read: Reader) returns (r: Outcome)
    ensures r == Parse(raw, read)
  {
    hide ParseRoot, ParseObject, ParseArray, CString;
    var s := CString(raw);
    var c: int, state, root := 0, RootBegin, Null;
    assert s[0..] == s;
    while c < |s|
      invariant 0 <= c <= |s|
      invariant ParseRoot(s, RootBegin, Null, read) == ParseRoot(s[c..], state, root, read)
    {
      RootStep(s, c, state, root, read);
      match state {
        case RootBegin =>
          if s[c] == '{' {
            var v := ParseObjectAt(s, c + 1, read);
            RootObjectValue(s, c, root, read, v);
            if v.Failure? { return Failed(v.error, v.pos); }
            c, root, state := v.next - 1, v.value, RootObject;
          } else if s[c] == '[' {
            var v := ParseArrayAt(s, c + 1, read);
            RootArrayValue(s, c, root, read, v);
            if v.Failure? { return Failed(v.error, v.pos); }
            c, root, state := v.next - 1, v.value, RootArray;
          } else if NotWs(s[c]) {
            RootFails(s, c, state, root, read);
            return Failed(InvalidChar, c);
          }
        case RootObject =>
          if s[c] == '}' {
            state := RootEnd;
          } else if NotWs(s[c]) {
            RootFails(s, c, state, root, read);
            return Failed(InvalidChar, c);
          }
        case RootArray =>
          if s[c] == ']' {
            state := RootEnd;
          } else if NotWs(s[c]) {
            RootFails(s, c, state, root, read);
            return Failed(InvalidChar, c);
          }
        case RootEnd =>
          if NotWs(s[c]) {
            RootFails(s, c, state, root, read);
            return Failed(InvalidChar, c);
          }
      }
      c := c + 1;
    }
    RootStep(s, c, state, root, read);
    r := Parsed(root);
  }
}
