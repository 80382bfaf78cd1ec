/** What the JSON parser makes of a text: its state machines as functions of the text that is left. */
module JsonParser {
  import opened DiyFp

  datatype Value =
    | Null
    | Bool(b: bool)
    | Number(bits: u64)
    | String(s: string)
    | Array(items: seq<Value>)
    | Object(members: map<string, Value>)

  // ----- Characters, one per byte -----

  const NUL: char := '\0'

  predicate NotWs(c: char) { !(c == ' ' || c == '\n' || c == '\t' || c == '\r') }

  predicate IsHex(c: char) { '0' <= c <= '9' || 'A' <= c <= 'F' || 'a' <= c <= 'f' }

  function ToHex(c: char): nat
    requires IsHex(c)
  {
    if '0' <= c <= '9' then c as int - '0' as int
    else if 'A' <= c <= 'F' then 10 + c as int - 'A' as int
    else 10 + c as int - 'a' as int
  }

  /** The text of a C string: what lies in front of the first NUL. */
  function CString(raw: string): (s: string)
    ensures s <= raw && NUL !in s
  {
    if raw == "" || raw[0] == NUL then "" else [raw[0]] + CString(raw[1..])
  }

  // ----- Results -----

  datatype Error = InvalidChar | UnterminatedArray | UnterminatedObject | UnterminatedValue | InvalidValue | InvalidKey

  /** A value and the text behind it, or an error and how much text there is from its position on. */
  datatype Result<T> = Ok(value: T, rest: string) | Err(error: Error, left: nat)

  /** `strtod`: the number a text starts with and its length, 0 if there is none. */
  type Reader = f: string -> (u64, nat) | forall t :: f(t).1 <= |t| witness (t => (0, 0))

  /** What is left is not longer than the text, and an error is not before `from`. */
  predicate Bounded<T>(r: Result<T>, t: string, from: nat) {
    match r
    case Ok(_, rest) => |rest| <= |t|
    case Err(_, left) => left <= from
  }

  // ----- Strings -----

  predicate IsEscape(c: char) {
    c == 'b' || c == 'f' || c == 'n' || c == 'r' || c == 't' || c == '/' || c == '"' || c == '\\'
  }

  function Unescape(c: char): char {
    if c == 'b' then 8 as char
    else if c == 'f' then 12 as char
    else if c == 'n' then '\n'
    else if c == 'r' then '\r'
    else if c == 't' then '\t'
    else c
  }

  /** The bytes of a 16-bit code. */
  function Utf8(code: nat): (s: string)
    requires code < 0x10000
    ensures 1 <= |s| <= 3
  {
    if code < 0x80 then [code as char]
    else if code < 0x800 then [(0xC0 + code / 0x40) as char, (0x80 + code % 0x40) as char]
    else [(0xE0 + code / 0x1000) as char, (0x80 + code / 0x40 % 0x40) as char, (0x80 + code % 0x40) as char]
  }

  predicate AllHex(s: string) { forall i :: 0 <= i < |s| ==> IsHex(s[i]) }

  /** The index of the first character that is not a hex digit, or n. */
  function FirstNonHex(s: string, n: nat): (i: nat)
    ensures i <= n && i <= |s| && AllHex(s[..i])
    ensures i < n ==> i == |s| || !IsHex(s[i])
  {
    if n == 0 || s == "" || !IsHex(s[0]) then 0
    else (
      var i := 1 + FirstNonHex(s[1..], n - 1);
      assert s[..i] == [s[0]] + s[1..][..i - 1];
      i
    )
  }

  function Code(h: string): (n: nat)
    requires |h| == 4 && AllHex(h)
    ensures n < 0x10000
  {
    ToHex(h[0]) * 0x1000 + ToHex(h[1]) * 0x100 + ToHex(h[2]) * 0x10 + ToHex(h[3])
  }

  /** From behind the opening quote or a later character on; acc is what has been read. */
  function ParseString(t: string, acc: string, from: nat): (r: Result<string>)
    requires |t| <= from
    ensures Bounded(r, t, from)
    decreases |t|
  {
    if t == "" then Err(UnterminatedValue, from)
    else if t[0] == '\\' then
      if |t| == 1 then Err(InvalidChar, |t|)
      else if t[1] == 'u' then
        var i := FirstNonHex(t[2..], 4);
        if i < 4 then Err(InvalidChar, |t| - 2 - i) else ParseString(t[6..], acc + Utf8(Code(t[2..][..4])), from)
      else if IsEscape(t[1]) then ParseString(t[2..], acc + [Unescape(t[1])], from)
      else Err(InvalidChar, |t|)
    else if t[0] == '"' then Ok(acc, t[1..])
    else if t[0] < ' ' then Err(InvalidChar, |t|)
    else ParseString(t[1..], acc + [t[0]], from)
  }

  // ----- Values -----

  datatype ObjectState = SeekKey | SeekSep | SeekVal | SeekEnd

  predicate StartsNumber(c: char) { c == '-' || '0' <= c <= '9' || c == '.' }

  function ParseValue(t: string, from: nat, read: Reader): (r: Result<Value>)
    requires |t| <= from
    ensures Bounded(r, t, from)
    decreases |t|, 1
  {
    if t == "" then Err(UnterminatedValue, from)
    else if t[0] == '{' then ParseObject(t[1..], SeekKey, "", map[], |t| - 1, read)
    else if t[0] == '[' then ParseArray(t[1..], true, [], |t| - 1, read)
    else if t[0] == '"' then
      match ParseString(t[1..], "", |t| - 1)
      case Ok(s, rest) => Ok(String(s), rest)
      case Err(e, left) => Err(e, left)
    else if t[0] == 't' then if "true" <= t then Ok(Bool(true), t[4..]) else Err(InvalidValue, |t|)
    else if t[0] == 'f' then if "false" <= t then Ok(Bool(false), t[5..]) else Err(InvalidValue, |t|)
    else if t[0] == 'n' then if "null" <= t then Ok(Null, t[4..]) else Err(InvalidValue, |t|)
    else if StartsNumber(t[0]) then Ok(Number(read(t).0), t[read(t).1..])
    else if NotWs(t[0]) then Err(InvalidChar, |t|)
    else ParseValue(t[1..], from, read)
  }

  /** From behind the opening brace or a later character on. */
  function ParseObject(t: string, state: ObjectState, key: string, m: map<string, Value>, from: nat, read: Reader)
      : (r: Result<Value>)
    requires |t| <= from
    ensures Bounded(r, t, from)
    decreases |t|, if state == SeekVal then 2 else 0
  {
    if t == "" then Err(UnterminatedObject, from) else
      match state
      case SeekKey =>
        if t[0] == '}' then Ok(Object(m), t[1..])
        else if t[0] == '"' then
          match ParseString(t[1..], "", |t| - 1)
          case Ok(k, rest) =>
            if k == "" then Err(InvalidKey, |rest| + 1) else ParseObject(rest, SeekSep, k, m, from, read)
          case Err(e, left) => Err(e, left)
        else if NotWs(t[0]) then Err(InvalidChar, |t|)
        else ParseObject(t[1..], SeekKey, key, m, from, read)
      case SeekSep =>
        if t[0] == ':' then ParseObject(t[1..], SeekVal, key, m, from, read)
        else if NotWs(t[0]) then Err(InvalidChar, |t|)
        else ParseObject(t[1..], SeekSep, key, m, from, read)
      case SeekVal =>
        if NotWs(t[0]) then
          match ParseValue(t, |t|, read)
          case Ok(v, rest) => ParseObject(rest, SeekEnd, key, m[key := v], from, read)
          case Err(e, left) => Err(e, left)
        else ParseObject(t[1..], SeekVal, key, m, from, read)
      case SeekEnd =>
        if t[0] == ',' then ParseObject(t[1..], SeekKey, key, m, from, read)
        else if t[0] == '}' then Ok(Object(m), t[1..])
        else if NotWs(t[0]) then Err(InvalidChar, |t|)
        else ParseObject(t[1..], SeekEnd, key, m, from, read)
  }

  /** From behind the opening bracket or a later character on; `seekVal` tells a value from a separator being expected. */
  function ParseArray(t: string, seekVal: bool, acc: seq<Value>, from: nat, read: Reader): (r: Result<Value>)
    requires |t| <= from
    ensures Bounded(r, t, from)
    decreases |t|, if seekVal then 2 else 0
  {
    if t == "" then Err(UnterminatedArray, from)
    else if seekVal then
      if t[0] == ']' then Ok(Array(acc), t[1..])
      else if NotWs(t[0]) then
        match ParseValue(t, |t|, read)
        case Ok(v, rest) => ParseArray(rest, false, acc + [v], from, read)
        case Err(e, left) => Err(e, left)
      else ParseArray(t[1..], true, acc, from, read)
    else if t[0] == ',' then ParseArray(t[1..], true, acc, from, read)
    else if t[0] == ']' then Ok(Array(acc), t[1..])
    else if NotWs(t[0]) then Err(InvalidChar, |t|)
    else ParseArray(t[1..], false, acc, from, read)
  }

  // ----- The whole text -----

  datatype RootState = RootBegin | RootObject | RootArray | RootEnd

  datatype Outcome = Parsed(value: Value) | Failed(error: Error, offset: nat)

  function ParseRoot(t: string, state: RootState, v: Value, read: Reader): (r: Result<Value>)
    ensures r.Ok? ==> r.rest == ""
    ensures r.Err? ==> r.left <= |t|
    decreases |t|
  {
    if t == "" then Ok(v, "")
    else if state == RootBegin && t[0] == '{' then
      match ParseObject(t[1..], SeekKey, "", map[], |t| - 1, read)
      case Ok(o, rest) => ParseRoot(rest, RootObject, o, read)
      case Err(e, left) => Err(e, left)
    else if state == RootBegin && t[0] == '[' then
      match ParseArray(t[1..], true, [], |t| - 1, read)
      case Ok(a, rest) => ParseRoot(rest, RootArray, a, read)
      case Err(e, left) => Err(e, left)
    else if state == RootObject && t[0] == '}' then ParseRoot(t[1..], RootEnd, v, read)
    else if state == RootArray && t[0] == ']' then ParseRoot(t[1..], RootEnd, v, read)
    else if NotWs(t[0]) then Err(InvalidChar, |t|)
    else ParseRoot(t[1..], state, v, read)
  }

  /** `fromString`: the value, or an error and its offset in the text. */
  function Parse(raw: string, read: Reader): (r: Outcome)
    ensures r.Failed? ==> r.offset <= |CString(raw)|
  {
    var s := CString(raw);
    match ParseRoot(s, RootBegin, Null, read)
    case Ok(v, _) => Parsed(v)
    case Err(e, left) => Failed(e, |s| - left)
  }

  // ----- Where a value ends -----

  predicate IsEnd(u: string, t: string) { |u| <= |t| && u == t[|t| - |u|..] }

  lemma EndOfEnd(v: string, u: string, t: string)
    requires IsEnd(v, u) && IsEnd(u, t)
    ensures IsEnd(v, t)
    ensures |v| < |u| ==> u[|u| - |v| - 1] == t[|t| - |v| - 1]
  {
  }

  lemma Dropped(t: string, n: nat)
    requires n <= |t|
    ensures IsEnd(t[n..], t)
  {
  }

  /** What is left of t is its end, and the character in front of it is c. */
  predicate StopsAt(rest: string, t: string, c: char) {
    IsEnd(rest, t) && |rest| < |t| && t[|t| - |rest| - 1] == c
  }

  lemma StopsLater(rest: string, u: string, t: string, c: char)
    requires StopsAt(rest, u, c) && IsEnd(u, t)
    ensures StopsAt(rest, t, c)
  {
    EndOfEnd(rest, u, t);
  }

  lemma {:induction false} StringEnds(t: string, acc: string, from: nat)
    requires |t| <= from && ParseString(t, acc, from).Ok?
    ensures StopsAt(ParseString(t, acc, from).rest, t, '"')
    decreases |t|
  {
    if t[0] != '"' {
      var n := if t[0] != '\\' then 1 else if t[1] == 'u' then 6 else 2;
      var more := if n == 1 then [t[0]] else if n == 2 then [Unescape(t[1])] else Utf8(Code(t[2..][..4]));
      StringEnds(t[n..], acc + more, from);
      Dropped(t, n);
      StopsLater(ParseString(t, acc, from).rest, t[n..], t, '"');
    }
  }

  /** The last character of a value; a number has none of its own. */
  function LastOf(v: Value): char
    requires !v.Number?
  {
    match v
    case Object(_) => '}'
    case Array(_) => ']'
    case String(_) => '"'
    case Null => 'l'
    case Bool(_) => 'e'
  }

  predicate ValueStops(v: Value, rest: string, t: string) {
    IsEnd(rest, t) && (!v.Number? ==> StopsAt(rest, t, LastOf(v)))
  }

  lemma ValueStopsLater(v: Value, rest: string, u: string, t: string)
    requires ValueStops(v, rest, u) && IsEnd(u, t)
    ensures ValueStops(v, rest, t)
  {
    EndOfEnd(rest, u, t);
  }

  lemma ScalarEnds(t: string, from: nat, read: Reader)
    requires |t| <= from && ParseValue(t, from, read).Ok?
    requires t[0] == 't' || t[0] == 'f' || t[0] == 'n' || StartsNumber(t[0])
    ensures ValueStops(ParseValue(t, from, read).value, ParseValue(t, from, read).rest, t)
  {
    hide ParseObject, ParseArray, ParseString;
    var r := ParseValue(t, from, read);
    Dropped(t, |t| - |r.rest|);
    assert "true" <= t ==> t[3] == "true"[3];
    assert "false" <= t ==> t[4] == "false"[4];
    assert "null" <= t ==> t[3] == "null"[3];
  }

  /** A value ends with its own last character. */
  lemma {:induction false} ValueEnds(t: string, from: nat, read: Reader)
    requires |t| <= from && ParseValue(t, from, read).Ok?
    ensures ValueStops(ParseValue(t, from, read).value, ParseValue(t, from, read).rest, t)
    decreases |t|, 1
  {
    hide ParseObject, ParseArray, ParseString, IsEnd;
    var r := ParseValue(t, from, read);
    var c := t[0];
    if c == 't' || c == 'f' || c == 'n' || StartsNumber(c) {
      ScalarEnds(t, from, read);
    } else {
      Dropped(t, 1);
      if c == '{' {
        ObjectEnds(t[1..], SeekKey, "", map[], |t| - 1, read);
      } else if c == '[' {
        ArrayEnds(t[1..], true, [], |t| - 1, read);
      } else if c == '"' {
        StringEnds(t[1..], "", |t| - 1);
      } else {
        ValueEnds(t[1..], from, read);
      }
      ValueStopsLater(r.value, r.rest, t[1..], t);
    }
  }

  lemma {:induction false} ObjectEnds(t: string, state: ObjectState, key: string, m: map<string, Value>, from: nat, read: Reader)
    requires |t| <= from && ParseObject(t, state, key, m, from, read).Ok?
    ensures ParseObject(t, state, key, m, from, read).value.Object?
    ensures StopsAt(ParseObject(t, state, key, m, from, read).rest, t, '}')
    decreases |t|, if state == SeekVal then 2 else 0
  {
    hide ParseString, ParseValue;
    var rest := ParseObject(t, state, key, m, from, read).rest;
    var c := t[0];
    if c == '}' && (state == SeekKey || state == SeekEnd) {
    } else if state == SeekKey && c == '"' {
      var k := ParseString(t[1..], "", |t| - 1);
      StringEnds(t[1..], "", |t| - 1);
      ObjectEnds(k.rest, SeekSep, k.value, m, from, read);
      Dropped(t, 1);
      EndOfEnd(k.rest, t[1..], t);
      StopsLater(rest, k.rest, t, '}');
    } else if state == SeekVal && NotWs(c) {
      var v := ParseValue(t, |t|, read);
      ValueEnds(t, |t|, read);
      ObjectEnds(v.rest, SeekEnd, key, m[key := v.value], from, read);
      StopsLater(rest, v.rest, t, '}');
    } else {
      var next := if state == SeekSep && c == ':' then SeekVal else if state == SeekEnd && c == ',' then SeekKey else state;
      ObjectEnds(t[1..], next, key, m, from, read);
      Dropped(t, 1);
      StopsLater(rest, t[1..], t, '}');
    }
  }

  lemma {:induction false} ArrayEnds(t: string, seekVal: bool, acc: seq<Value>, from: nat, read: Reader)
    requires |t| <= from && ParseArray(t, seekVal, acc, from, read).Ok?
    ensures ParseArray(t, seekVal, acc, from, read).value.Array?
    ensures StopsAt(ParseArray(t, seekVal, acc, from, read).rest, t, ']')
    decreases |t|, if seekVal then 2 else 0
  {
    hide ParseValue;
    var rest := ParseArray(t, seekVal, acc, from, read).rest;
    var c := t[0];
    if c == ']' {
    } else if seekVal && NotWs(c) {
      var v := ParseValue(t, |t|, read);
      ValueEnds(t, |t|, read);
      ArrayEnds(v.rest, false, acc + [v.value], from, read);
      StopsLater(rest, v.rest, t, ']');
    } else {
      ArrayEnds(t[1..], c == ',' || seekVal, acc, from, read);
      Dropped(t, 1);
      StopsLater(rest, t[1..], t, ']');
    }
  }
}
