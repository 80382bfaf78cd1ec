/**
 * What a text of RFC 8259 denotes, and when the parser reads it as that. Two escapes
 * for the halves of a surrogate pair denote one character (section 7); the parser
 * encodes each half alone.
 */
module JsonMeaning {
  import opened JsonParser
  import opened JsonGrammar
  import opened JsonLanguage
  import opened JsonStandard

  // ----- UTF-8 -----

  datatype Decoded = Malformed | Char(code: nat, length: nat)

  predicate IsTail(c: char) { 0x80 <= c as int < 0xC0 }

  function Shortest(code: nat, length: nat, least: nat): Decoded {
    if least <= code < 0x110000 then Char(code, length) else Malformed
  }

  /**
   * The character a text starts with and the number of its bytes (section 3 of RFC 3629).
   * The halves of surrogate pairs are let through.
   */
  function Decode(s: string): Decoded {
    if s == "" then Malformed
    else
      var b := s[0] as int;
      if b < 0x80 then Char(b, 1)
      else if 0xC0 <= b < 0xE0 && |s| > 1 && IsTail(s[1]) then
        Shortest((b - 0xC0) * 0x40 + (s[1] as int - 0x80), 2, 0x80)
      else if 0xE0 <= b < 0xF0 && |s| > 2 && IsTail(s[1]) && IsTail(s[2]) then
        Shortest((b - 0xE0) * 0x1000 + (s[1] as int - 0x80) * 0x40 + (s[2] as int - 0x80), 3, 0x800)
      else if 0xF0 <= b < 0xF8 && |s| > 3 && IsTail(s[1]) && IsTail(s[2]) && IsTail(s[3]) then
        Shortest((b - 0xF0) * 0x40000 + (s[1] as int - 0x80) * 0x1000 + (s[2] as int - 0x80) * 0x40 + (s[3] as int - 0x80),
                 4, 0x10000)
      else Malformed
  }

  /** The bytes of a character. */
  function Encode(code: nat): (s: string)
    requires code < 0x110000
    ensures 1 <= |s| <= 4 && (|s| == 4 <==> code >= 0x10000)
  {
    if code < 0x10000 then Utf8(code)
    else [(0xF0 + code / 0x40000) as char, (0x80 + code / 0x1000 % 0x40) as char,
          (0x80 + code / 0x40 % 0x40) as char, (0x80 + code % 0x40) as char]
  }

  lemma Digits64(code: nat)
    ensures code == code / 0x40 * 0x40 + code % 0x40
    ensures code == code / 0x1000 * 0x1000 + code / 0x40 % 0x40 * 0x40 + code % 0x40
    ensures code == code / 0x40000 * 0x40000 + code / 0x1000 % 0x40 * 0x1000 + code / 0x40 % 0x40 * 0x40 + code % 0x40
  {
    DivideTwice(code);
  }

  lemma DivideTwice(code: nat)
    ensures code / 0x40 / 0x40 == code / 0x1000 && code / 0x1000 / 0x40 == code / 0x40000
  {
  }

  lemma LastDigit64(q: nat, d: nat)
    requires d < 0x40
    ensures (q * 0x40 + d) / 0x40 == q && (q * 0x40 + d) % 0x40 == d
  {
  }

  lemma FromDigits64(a: nat, b: nat, c: nat, d: nat)
    requires b < 0x40 && c < 0x40 && d < 0x40
    ensures var code := a * 0x40000 + b * 0x1000 + c * 0x40 + d;
      code / 0x40000 == a && code / 0x1000 % 0x40 == b && code / 0x40 % 0x40 == c && code % 0x40 == d
      && (a == 0 ==> code / 0x1000 == b) && (a == b == 0 ==> code / 0x40 == c)
  {
    var code := a * 0x40000 + b * 0x1000 + c * 0x40 + d;
    DivideTwice(code);
    LastDigit64(a * 0x1000 + b * 0x40 + c, d);
    LastDigit64(a * 0x40 + b, c);
    LastDigit64(a, b);
  }

  lemma Encoded(code: nat, s: string)
    requires code < 0x110000 && Encode(code) <= s
    ensures s[0] as int == if code < 0x80 then code else if code < 0x800 then 0xC0 + code / 0x40
                           else if code < 0x10000 then 0xE0 + code / 0x1000 else 0xF0 + code / 0x40000
    ensures code >= 0x80 ==> s[|Encode(code)| - 1] as int == 0x80 + code % 0x40
    ensures code >= 0x800 ==> s[|Encode(code)| - 2] as int == 0x80 + code / 0x40 % 0x40
    ensures code >= 0x10000 ==> s[1] as int == 0x80 + code / 0x1000 % 0x40
    ensures |Encode(code)| == if code < 0x80 then 1 else if code < 0x800 then 2 else if code < 0x10000 then 3 else 4
  {
    var e := Encode(code);
    assert forall i :: 0 <= i < |e| ==> s[i] == e[i];
  }

  /** The bytes are decoded to the character, whatever follows them. */
  lemma EncodeDecodes(code: nat, rest: string)
    requires code < 0x110000
    ensures Decode(Encode(code) + rest) == Char(code, |Encode(code)|)
  {
    hide Encode;
    Encoded(code, Encode(code) + rest);
    Digits64(code);
  }

  /** No other bytes are. */
  lemma EncodingIsUnique(s: string, code: nat)
    requires Decode(s) == Char(code, |s|)
    ensures code < 0x110000 && s == Encode(code)
  {
    if |s| == 2 {
      FromDigits64(0, 0, s[0] as int - 0xC0, s[1] as int - 0x80);
    } else if |s| == 3 {
      FromDigits64(0, s[0] as int - 0xE0, s[1] as int - 0x80, s[2] as int - 0x80);
    } else if |s| == 4 {
      FromDigits64(s[0] as int - 0xF0, s[1] as int - 0x80, s[2] as int - 0x80, s[3] as int - 0x80);
    }
  }

  // ----- String tokens -----

  function HexValue(c: char): (v: nat)
    ensures v < 16
  {
    match c
    case '1' => 1
    case '2' => 2
    case '3' => 3
    case '4' => 4
    case '5' => 5
    case '6' => 6
    case '7' => 7
    case '8' => 8
    case '9' => 9
    case 'A' => 10
    case 'B' => 11
    case 'C' => 12
    case 'D' => 13
    case 'E' => 14
    case 'F' => 15
    case 'a' => 10
    case 'b' => 11
    case 'c' => 12
    case 'd' => 13
    case 'e' => 14
    case 'f' => 15
    case _ => 0
  }

  /** The code that four hex digits stand for. */
  function CodePoint(h: string): (code: nat)
    requires |h| == 4
    ensures code < 0x10000
  {
    0x1000 * HexValue(h[0]) + 0x100 * HexValue(h[1]) + 0x10 * HexValue(h[2]) + HexValue(h[3])
  }

  lemma HexIs(c: char)
    requires IsHexDigit(c)
    ensures IsHex(c) && ToHex(c) == HexValue(c)
  {
  }

  /** It is the code that the parser makes of them. */
  lemma CodeIsRead(h: string)
    requires |h| == 4 && forall i :: 0 <= i < 4 ==> IsHexDigit(h[i])
    ensures AllHex(h) && Code(h) == CodePoint(h)
  {
    hide HexValue, ToHex;
    forall i | 0 <= i < 4 ensures IsHex(h[i]) && ToHex(h[i]) == HexValue(h[i]) { HexIs(h[i]); }
  }

  predicate IsHigh(p: Piece) { PieceOk(p) && p.Uni? && 0xD800 <= CodePoint(p.h) < 0xDC00 }

  predicate IsLow(p: Piece) { PieceOk(p) && p.Uni? && 0xDC00 <= CodePoint(p.h) < 0xE000 }

  predicate IsPair(ps: seq<Piece>, i: nat) { i + 1 < |ps| && IsHigh(ps[i]) && IsLow(ps[i + 1]) }

  /** Somewhere the halves of a surrogate pair stand next to each other. */
  predicate HasPair(ps: seq<Piece>) { exists i: nat :: i < |ps| && IsPair(ps, i) }

  /** The character that a surrogate pair stands for. */
  function Joined(high: nat, low: nat): (code: nat)
    requires 0xD800 <= high < 0xDC00 && 0xDC00 <= low < 0xE000
    ensures 0x10000 <= code < 0x110000
  {
    0x10000 + (high - 0xD800) * 0x400 + (low - 0xDC00)
  }

  /** The character that an escape \c stands for. */
  function EscapeCode(c: char): nat {
    match c
    case 'b' => 0x08
    case 'f' => 0x0C
    case 'n' => 0x0A
    case 'r' => 0x0D
    case 't' => 0x09
    case _ => c as int
  }

  /** What one piece denotes by itself. */
  function Denotes(p: Piece): string
    requires PieceOk(p)
  {
    match p
    case Raw(c) => [c]
    case Esc(c) => Encode(EscapeCode(c))
    case Uni(h) => Encode(CodePoint(h))
  }

  /** The string that a token denotes. */
  function Denoted(ps: seq<Piece>): string
    requires TokenOk(ps)
  {
    if ps == [] then ""
    else if IsPair(ps, 0) then Encode(Joined(CodePoint(ps[0].h), CodePoint(ps[1].h))) + Denoted(ps[2..])
    else Denotes(ps[0]) + Denoted(ps[1..])
  }

  lemma PieceIsRead(p: Piece)
    requires PieceOk(p)
    ensures PieceChars(p) == Denotes(p) && |Denotes(p)| >= 1 && (IsHigh(p) || IsLow(p) ==> |Denotes(p)| == 3)
  {
    hide Code, CodePoint;
    if p.Uni? { CodeIsRead(p.h); }
  }

  lemma PairCons(ps: seq<Piece>)
    requires ps != []
    ensures HasPair(ps) <==> IsPair(ps, 0) || HasPair(ps[1..])
  {
    if i: nat :| i < |ps| && IsPair(ps, i) {
      if i > 0 { assert IsPair(ps[1..], i - 1); }
    }
    if i: nat :| i < |ps[1..]| && IsPair(ps[1..], i) { assert IsPair(ps, i + 1); }
  }

  lemma SamePrefix(a: string, b: string, c: string)
    ensures a + b == a + c <==> b == c
  {
    if a + b == a + c { assert b == (a + b)[|a|..] && c == (a + c)[|a|..]; }
  }

  /** A token is read as the string it denotes exactly if no surrogate pair is in it; a pair is read as two bytes too many. */
  lemma {:induction false} TokenIsMeant(ps: seq<Piece>)
    requires TokenOk(ps)
    ensures TokenChars(ps) == Denoted(ps) <==> !HasPair(ps)
    ensures |TokenChars(ps)| >= |Denoted(ps)| && (|TokenChars(ps)| == |Denoted(ps)| <==> !HasPair(ps))
    decreases |ps|
  {
    hide PieceChars, Denotes, IsHigh, IsLow, HasPair, Encode;
    if ps == [] {
      NoPair(ps);
    } else {
      PieceIsRead(ps[0]);
      PairCons(ps);
      if IsPair(ps, 0) {
        PieceIsRead(ps[1]);
        TokenIsMeant(ps[2..]);
        assert ps[1..][1..] == ps[2..];
      } else {
        TokenIsMeant(ps[1..]);
        SamePrefix(Denotes(ps[0]), TokenChars(ps[1..]), Denoted(ps[1..]));
      }
    }
  }

  lemma NoPair(ps: seq<Piece>)
    requires ps == []
    ensures !HasPair(ps)
  {
  }

  // ----- Bytes of surrogate halves -----

  predicate IsHighByte(c: char) { 0xA0 <= c as int < 0xB0 }

  predicate IsLowByte(c: char) { 0xB0 <= c as int < 0xC0 }

  /** The six bytes of two surrogate halves stand at i. */
  predicate HalvesAt(s: string, i: nat) {
    i + 5 < |s| && s[i] as int == 0xED && IsHighByte(s[i + 1]) && s[i + 3] as int == 0xED && IsLowByte(s[i + 4])
  }

  ghost predicate HasHalves(s: string) { exists i: nat :: i < |s| && HalvesAt(s, i) }

  /** No surrogate half is spelt out in bytes, as none is in UTF-8 (section 3 of RFC 3629). */
  ghost predicate RawSafe(ps: seq<Piece>) {
    forall i: nat :: i + 1 < |ps| ==> !RawHalf(ps, i)
  }

  predicate RawHalf(ps: seq<Piece>, i: nat)
    requires i + 1 < |ps|
  {
    ps[i].Raw? && ps[i].c as int == 0xED && ps[i + 1].Raw? && (IsHighByte(ps[i + 1].c) || IsLowByte(ps[i + 1].c))
  }

  lemma RawSafeTail(ps: seq<Piece>, n: nat)
    requires RawSafe(ps) && n <= |ps|
    ensures RawSafe(ps[n..])
  {
    forall i: nat | i + 1 < |ps[n..]| ensures !RawHalf(ps[n..], i) { assert !RawHalf(ps, n + i); }
  }

  lemma EncodeBytes(code: nat)
    requires code < 0x110000
    ensures var e := Encode(code);
      && !IsTail(e[0]) && (forall i :: 1 <= i < |e| ==> IsTail(e[i]))
      && (e[0] as int == 0xED <==> 0xD000 <= code < 0xE000)
      && (0xD000 <= code < 0xE000 ==>
            |e| == 3 && (IsHighByte(e[1]) <==> 0xD800 <= code < 0xDC00) && (IsLowByte(e[1]) <==> 0xDC00 <= code))
  {
    hide Encode;
    var e := Encode(code);
    Encoded(code, e);
    HalfDigits(code);
  }

  lemma HalfDigits(code: nat)
    ensures code / 0x1000 == 13 ==>
      (0x20 <= code / 0x40 % 0x40 < 0x30 <==> 0xD800 <= code < 0xDC00) && (0x30 <= code / 0x40 % 0x40 <==> 0xDC00 <= code)
  {
    Digits64(code);
  }

  lemma DenotesBytes(p: Piece)
    requires PieceOk(p)
    ensures var b := Denotes(p);
      && b != ""
      && (p.Raw? ==> b == [p.c])
      && (!p.Raw? ==> !IsTail(b[0]) && (forall i :: 1 <= i < |b| ==> IsTail(b[i])))
      && (IsHigh(p) || IsLow(p) ==> b[0] as int == 0xED)
      && (!p.Raw? && b[0] as int == 0xED ==>
            p.Uni? && |b| == 3 && (IsHighByte(b[1]) <==> IsHigh(p)) && (IsLowByte(b[1]) <==> IsLow(p)))
  {
    hide Encode, CodePoint;
    match p
    case Raw(c) =>
    case Esc(c) => EncodeBytes(EscapeCode(c));
    case Uni(h) => EncodeBytes(CodePoint(h));
  }

  /** A string that starts in the middle of a character starts with a raw byte. */
  lemma FirstTail(ps: seq<Piece>)
    requires TokenOk(ps) && Denoted(ps) != "" && IsTail(Denoted(ps)[0])
    ensures ps != [] && ps[0].Raw? && ps[0].c == Denoted(ps)[0]
  {
    hide Encode, Denotes, IsHigh, IsLow, IsTail;
    if IsPair(ps, 0) { JoinedBytes(ps[0], ps[1]); } else { DenotesBytes(ps[0]); }
  }

  lemma JoinedBytes(p: Piece, q: Piece)
    requires IsHigh(p) && IsLow(q)
    ensures var b := Encode(Joined(CodePoint(p.h), CodePoint(q.h)));
      |b| == 4 && !IsTail(b[0]) && b[0] as int != 0xED && forall i :: 1 <= i < |b| ==> IsTail(b[i])
  {
    hide Encode, CodePoint;
    EncodeBytes(Joined(CodePoint(p.h), CodePoint(q.h)));
  }

  /** A string that starts with the bytes of a surrogate half starts with an escape for it. */
  lemma FirstHalf(ps: seq<Piece>)
    requires TokenOk(ps) && RawSafe(ps)
    requires |Denoted(ps)| > 1 && Denoted(ps)[0] as int == 0xED && (IsHighByte(Denoted(ps)[1]) || IsLowByte(Denoted(ps)[1]))
    ensures ps != [] && !IsPair(ps, 0) && |Denotes(ps[0])| == 3
    ensures IsHighByte(Denoted(ps)[1]) <==> IsHigh(ps[0])
    ensures IsLowByte(Denoted(ps)[1]) <==> IsLow(ps[0])
  {
    hide Encode, Denotes, IsHigh, IsLow;
    if IsPair(ps, 0) {
      JoinedBytes(ps[0], ps[1]);
    } else {
      DenotesBytes(ps[0]);
      assert |ps| > 1 ==> !RawHalf(ps, 0);
      if ps[0].Raw? {
        var u := Denoted(ps[1..]);
        assert Denoted(ps)[1] == u[0];
        FirstTail(ps[1..]);
      }
    }
  }

  /** What the token starts with: a pair or one piece. */
  function First(ps: seq<Piece>): (n: nat)
    requires ps != []
    ensures 1 <= n <= |ps|
  {
    if IsPair(ps, 0) then 2 else 1
  }

  lemma FirstBytes(ps: seq<Piece>) returns (b: string)
    requires TokenOk(ps) && ps != []
    ensures b != "" && Denoted(ps) == b + Denoted(ps[First(ps)..])
    ensures forall i :: 1 <= i < |b| ==> IsTail(b[i])
    ensures IsPair(ps, 0) ==> b[0] as int != 0xED
    ensures !IsPair(ps, 0) ==> b == Denotes(ps[0])
  {
    hide Encode, Denotes, CodePoint, IsTail;
    if IsPair(ps, 0) {
      JoinedBytes(ps[0], ps[1]);
      b := Encode(Joined(CodePoint(ps[0].h), CodePoint(ps[1].h)));
    } else {
      DenotesBytes(ps[0]);
      b := Denotes(ps[0]);
    }
  }

  lemma HalvesArePair(ps: seq<Piece>)
    requires |ps| > 1 && IsHigh(ps[0]) && IsLow(ps[1..][0])
    ensures IsPair(ps, 0)
  {
  }

  lemma HalvesAreEscapes(ps: seq<Piece>)
    requires TokenOk(ps) && RawSafe(ps)
    ensures !HalvesAt(Denoted(ps), 0)
  {
    hide Encode, Denotes, Denoted, IsHigh, IsLow, IsPair, RawSafe, IsHighByte, IsLowByte;
    var s := Denoted(ps);
    if HalvesAt(s, 0) {
      FirstHalf(ps);
      var b := FirstBytes(ps);
      assert Denoted(ps[1..])[0] == s[3] && Denoted(ps[1..])[1] == s[4];
      RawSafeTail(ps, 1);
      FirstHalf(ps[1..]);
      HalvesArePair(ps);
    }
  }

  /** A denoted string never holds the bytes of two surrogate halves next to each other. */
  lemma {:induction false} NoHalves(ps: seq<Piece>)
    requires TokenOk(ps) && RawSafe(ps)
    ensures !HasHalves(Denoted(ps))
    decreases |ps|
  {
    hide Denotes, Denoted, IsHigh, IsLow, RawSafe, IsHighByte, IsLowByte, HasHalves;
    if ps == [] {
      NoHalvesInNothing(ps);
    } else {
      var b := FirstBytes(ps);
      var u := Denoted(ps[First(ps)..]);
      RawSafeTail(ps, First(ps));
      NoHalves(ps[First(ps)..]);
      HalvesAreEscapes(ps);
      HalvesJoin(b, u);
    }
  }

  lemma NoHalvesInNothing(ps: seq<Piece>)
    requires ps == []
    ensures TokenOk(ps) && !HasHalves(Denoted(ps))
  {
  }

  lemma HalvesJoin(b: string, u: string)
    requires b != "" && (forall i :: 1 <= i < |b| ==> IsTail(b[i]))
    ensures HasHalves(b + u) <==> HalvesAt(b + u, 0) || HasHalves(u)
  {
    var s := b + u;
    assert forall i: nat :: i < |u| ==> (HalvesAt(u, i) <==> HalvesAt(s, |b| + i));
    if i: nat :| i < |s| && HalvesAt(s, i) {
      if 0 < i < |b| { assert s[i] == b[i]; }
      if i >= |b| { assert HalvesAt(u, i - |b|); }
    }
    if i: nat :| i < |u| && HalvesAt(u, i) { assert HalvesAt(s, |b| + i); }
  }

  /** But it is what the parser makes of a surrogate pair. */
  lemma {:induction false} PairHasHalves(ps: seq<Piece>)
    requires TokenOk(ps) && HasPair(ps)
    ensures HasHalves(TokenChars(ps))
    decreases |ps|
  {
    hide PieceChars, IsHigh, IsLow, HasPair, HasHalves;
    SomePiece(ps);
    PieceIsRead(ps[0]);
    PairCons(ps);
    var b, u := PieceChars(ps[0]), TokenChars(ps[1..]);
    if IsPair(ps, 0) {
      DenotesBytes(ps[0]);
      DenotesBytes(ps[1]);
      PieceIsRead(ps[1]);
      var c := PieceChars(ps[1]);
      assert TokenChars(ps) == b + (c + TokenChars(ps[1..][1..]));
      HalvesFound(b, c, TokenChars(ps[1..][1..]));
    } else {
      PairHasHalves(ps[1..]);
      HalvesBehind(b, u);
    }
  }

  lemma SomePiece(ps: seq<Piece>)
    requires HasPair(ps)
    ensures ps != []
  {
  }

  lemma HalvesFound(b: string, c: string, u: string)
    requires |b| == |c| == 3 && b[0] as int == c[0] as int == 0xED && IsHighByte(b[1]) && IsLowByte(c[1])
    ensures HasHalves(b + (c + u))
  {
    var s := b + (c + u);
    assert s[3] == c[0] && s[4] == c[1];
    assert HalvesAt(s, 0);
  }

  lemma HalvesBehind(b: string, u: string)
    requires HasHalves(u)
    ensures HasHalves(b + u)
  {
    var i: nat :| i < |u| && HalvesAt(u, i);
    assert HalvesAt(b + u, |b| + i);
  }

  // ----- Documents -----

  /** The value that a document denotes; numbers are left to the reader. Of fields with the same name the last one counts. */
  function Meaning(d: Doc, read: Reader): Value
    requires Lexical(d)
    decreases d
  {
    match d
    case NullDoc => Null
    case BoolDoc(b) => Bool(b)
    case NumberDoc(text) => Number(read(text).0)
    case StringDoc(token) => String(Denoted(token))
    case ArrayDoc(items, _, _) => Array(ItemsMeaning(items, read))
    case ObjectDoc(fields, _, _) => Object(FieldsMeaning(fields, map[], read))
  }

  function ItemsMeaning(items: seq<Item>, read: Reader): (vs: seq<Value>)
    requires LexicalItems(items)
    ensures |vs| == |items|
    decreases items
  {
    if items == [] then [] else [Meaning(items[0].doc, read)] + ItemsMeaning(items[1..], read)
  }

  function FieldsMeaning(fields: seq<Field>, m: map<string, Value>, read: Reader): map<string, Value>
    requires LexicalFields(fields)
    decreases fields
  {
    if fields == [] then m
    else FieldsMeaning(fields[1..], m[Denoted(fields[0].key) := Meaning(fields[0].doc, read)], read)
  }

  function Names(fields: seq<Field>): set<string>
    requires LexicalFields(fields)
  {
    if fields == [] then {} else {TokenChars(fields[0].key)} + Names(fields[1..])
  }

  /** No surrogate pair is in a name, or in a string that counts. */
  ghost predicate Unpaired(d: Doc)
    requires Lexical(d)
    decreases d
  {
    match d
    case StringDoc(token) => !HasPair(token)
    case ArrayDoc(items, _, _) => UnpairedItems(items)
    case ObjectDoc(fields, _, _) => UnpairedNames(fields) && UnpairedFields(fields)
    case _ => true
  }

  ghost predicate UnpairedItems(items: seq<Item>)
    requires LexicalItems(items)
    decreases items
  {
    items != [] ==> Unpaired(items[0].doc) && UnpairedItems(items[1..])
  }

  ghost predicate UnpairedNames(fields: seq<Field>)
    requires LexicalFields(fields)
  {
    fields != [] ==> !HasPair(fields[0].key) && UnpairedNames(fields[1..])
  }

  /** The values of those fields behind which the same name does not come again. */
  ghost predicate UnpairedFields(fields: seq<Field>)
    requires LexicalFields(fields)
    decreases fields
  {
    fields != [] ==>
      && (TokenChars(fields[0].key) in Names(fields[1..]) || Unpaired(fields[0].doc))
      && UnpairedFields(fields[1..])
  }

  /** No name spells out a surrogate half in bytes. */
  ghost predicate SafeNames(d: Doc)
    requires Lexical(d)
    decreases d
  {
    match d
    case ArrayDoc(items, _, _) => SafeItems(items)
    case ObjectDoc(fields, _, _) => SafeFields(fields)
    case _ => true
  }

  ghost predicate SafeItems(items: seq<Item>)
    requires LexicalItems(items)
    decreases items
  {
    items != [] ==> SafeNames(items[0].doc) && SafeItems(items[1..])
  }

  ghost predicate SafeFields(fields: seq<Field>)
    requires LexicalFields(fields)
    decreases fields
  {
    fields != [] ==> RawSafe(fields[0].key) && SafeNames(fields[0].doc) && SafeFields(fields[1..])
  }

  // ----- Documents are read as what they denote -----

  /**
   * A document is read as the value it denotes if no surrogate pair is in a name or in
   * a string that counts. If its names are UTF-8, that is the only case.
   */
  lemma {:induction false} DocIsMeant(d: Doc, read: Reader)
    requires DocOk(d, read) && Lexical(d)
    ensures Unpaired(d) ==> Erase(d, read) == Meaning(d, read)
    ensures SafeNames(d) && Erase(d, read) == Meaning(d, read) ==> Unpaired(d)
    decreases d, 1
  {
    hide NumberOk, TokenChars, Denoted, HasPair;
    match d
    case StringDoc(token) => TokenIsMeant(token);
    case ArrayDoc(items, _, _) => ItemsAreMeant(items, read);
    case ObjectDoc(fields, _, _) =>
      if UnpairedNames(fields) {
        FieldsAreMeant(fields, map[], map[], read);
      } else if SafeFields(fields) {
        NamesDiffer(fields, read);
      }
    case _ =>
  }

  lemma {:induction false} ItemsAreMeant(items: seq<Item>, read: Reader)
    requires ItemsOk(items, read) && LexicalItems(items)
    ensures UnpairedItems(items) ==> EraseItems(items, read) == ItemsMeaning(items, read)
    ensures SafeItems(items) && EraseItems(items, read) == ItemsMeaning(items, read) ==> UnpairedItems(items)
    decreases items, 0
  {
    hide DocOk, Lexical, Erase, Meaning, Unpaired, SafeNames;
    if items != [] {
      DocIsMeant(items[0].doc, read);
      ItemsAreMeant(items[1..], read);
      var a, b := EraseItems(items, read), ItemsMeaning(items, read);
      assert a[0] == Erase(items[0].doc, read) && a[1..] == EraseItems(items[1..], read);
      assert b[0] == Meaning(items[0].doc, read) && b[1..] == ItemsMeaning(items[1..], read);
    }
  }

  /** The maps differ at most where one of the names is going to be overwritten. */
  ghost predicate AgreeOutside(a: map<string, Value>, b: map<string, Value>, names: set<string>) {
    forall k :: k !in names ==> (k in a <==> k in b) && (k in a ==> a[k] == b[k])
  }

  lemma AgreeStep(a: map<string, Value>, b: map<string, Value>, k: string, v: Value, u: Value, names: set<string>)
    ensures AgreeOutside(a[k := v], b[k := u], names) <==> (k in names || v == u) && AgreeOutside(a, b, {k} + names)
  {
    var a', b' := a[k := v], b[k := u];
    if AgreeOutside(a', b', names) {
      forall j | j !in {k} + names ensures (j in a <==> j in b) && (j in a ==> a[j] == b[j]) {
        assert (j in a' <==> j in b') && (j in a' ==> a'[j] == b'[j]);
      }
      assert k !in names ==> k in a' && k in b' && a'[k] == b'[k];
    }
  }

  lemma AgreeEverywhere(a: map<string, Value>, b: map<string, Value>)
    ensures AgreeOutside(a, b, {}) <==> a == b
  {
    if AgreeOutside(a, b, {}) { assert a.Keys == b.Keys; }
  }

  lemma {:induction false} FieldsAreMeant(fields: seq<Field>, a: map<string, Value>, b: map<string, Value>, read: Reader)
    requires FieldsOk(fields, read) && LexicalFields(fields) && UnpairedNames(fields)
    ensures UnpairedFields(fields) && AgreeOutside(a, b, Names(fields)) ==>
      EraseFields(fields, a, read) == FieldsMeaning(fields, b, read)
    ensures SafeFields(fields) && EraseFields(fields, a, read) == FieldsMeaning(fields, b, read) ==>
      UnpairedFields(fields) && AgreeOutside(a, b, Names(fields))
    decreases fields, 0
  {
    hide DocOk, Lexical, Erase, Meaning, Unpaired, SafeNames, TokenChars, Denoted, HasPair, AgreeOutside, RawSafe;
    if fields == [] {
      AgreeEverywhere(a, b);
    } else {
      var f, rest := fields[0], fields[1..];
      TokenIsMeant(f.key);
      DocIsMeant(f.doc, read);
      var k, v, u := TokenChars(f.key), Erase(f.doc, read), Meaning(f.doc, read);
      FieldsAreMeant(rest, a[k := v], b[k := u], read);
      AgreeStep(a, b, k, v, u, Names(rest));
    }
  }

  // ----- A surrogate pair in a name -----

  function DenotedNames(fields: seq<Field>): set<string>
    requires LexicalFields(fields)
  {
    if fields == [] then {} else {Denoted(fields[0].key)} + DenotedNames(fields[1..])
  }

  lemma {:induction false} KeysAreNames(fields: seq<Field>, a: map<string, Value>, b: map<string, Value>, read: Reader)
    requires FieldsOk(fields, read) && LexicalFields(fields)
    ensures EraseFields(fields, a, read).Keys == a.Keys + Names(fields)
    ensures FieldsMeaning(fields, b, read).Keys == b.Keys + DenotedNames(fields)
    decreases fields
  {
    hide DocOk, Lexical, Erase, Meaning, TokenChars, Denoted;
    if fields != [] {
      var f := fields[0];
      KeysAreNames(fields[1..], a[TokenChars(f.key) := Erase(f.doc, read)], b[Denoted(f.key) := Meaning(f.doc, read)], read);
    }
  }

  lemma {:induction false} DenotedNamesAreSafe(fields: seq<Field>)
    requires LexicalFields(fields) && SafeFields(fields)
    ensures forall k :: k in DenotedNames(fields) ==> !HasHalves(k)
  {
    hide Lexical, SafeNames, Denoted, HasHalves, RawSafe;
    if fields != [] {
      NoHalves(fields[0].key);
      DenotedNamesAreSafe(fields[1..]);
    }
  }

  lemma {:induction false} PairedName(fields: seq<Field>) returns (k: string)
    requires LexicalFields(fields) && !UnpairedNames(fields)
    ensures k in Names(fields) && HasHalves(k)
  {
    hide Lexical, TokenChars, HasPair, HasHalves;
    if HasPair(fields[0].key) {
      PairHasHalves(fields[0].key);
      k := TokenChars(fields[0].key);
    } else {
      k := PairedName(fields[1..]);
    }
  }

  lemma NamesDiffer(fields: seq<Field>, read: Reader)
    requires FieldsOk(fields, read) && LexicalFields(fields) && SafeFields(fields) && !UnpairedNames(fields)
    ensures EraseFields(fields, map[], read) != FieldsMeaning(fields, map[], read)
  {
    hide Lexical, FieldsOk, LexicalFields, SafeFields, UnpairedNames, EraseFields, FieldsMeaning, Names, DenotedNames, HasHalves;
    KeysAreNames(fields, map[], map[], read);
    DenotedNamesAreSafe(fields);
    var k := PairedName(fields);
    assert k in EraseFields(fields, map[], read).Keys;
  }

  // ----- Texts -----

  /**
   * A text of the standard is read as the value it denotes if its root is an array or an
   * object, none of its names is empty, and no surrogate pair is in a name or in a string
   * that counts. If its names are UTF-8, that is the only case.
   */
  lemma StandardIsMeant(s: string, d: Doc, w: string, x: string, read: Reader)
    requires IsRfcTextOf(s, d, w, x)
    requires Local(read) && ReadsWords(read) && ReadsStandard(read)
    ensures (d.ArrayDoc? || d.ObjectDoc?) && Named(d) && Unpaired(d) ==> Parse(s, read) == Parsed(Meaning(d, read))
    ensures SafeNames(d) && Parse(s, read) == Parsed(Meaning(d, read)) ==>
      (d.ArrayDoc? || d.ObjectDoc?) && Named(d) && Unpaired(d)
  {
    hide Local, ReadsWords, ReadsStandard, Text, DocOk, Erase, Strict, Named, Lexical, Meaning, Unpaired, SafeNames, Parse;
    StandardIsRead(s, d, w, x, read);
    if (d.ArrayDoc? || d.ObjectDoc?) && Named(d) { DocIsMeant(d, read); }
  }

  // ----- One text for each difference -----

  /** The halves of U+1F600 as the parser encodes them, and the character itself. */
  const HALVES: string :=
    [0xED as char, 0xA0 as char, 0xBD as char, 0xED as char, 0xB8 as char, 0x80 as char]

  const WHOLE: string := [0xF0 as char, 0x9F as char, 0x98 as char, 0x80 as char]

  const PAIR: seq<Piece> := [Uni("D83D"), Uni("DE00")]

  lemma PairText()
    ensures TokenOk(PAIR) && TokenText(PAIR) == "\\uD83D\\uDE00" && IsPair(PAIR, 0)
    ensures TokenChars(PAIR) == HALVES && Denoted(PAIR) == WHOLE && Decode(WHOLE) == Char(0x1F600, 4)
  {
    assert PAIR[1..][1..] == [] && PAIR[2..] == [];
    PairCodes();
    hide CodePoint, Encode, Joined, Utf8, Code, Decode, HexValue;
  }

  lemma PairCodes()
    ensures CodePoint("D83D") == 0xD83D && CodePoint("DE00") == 0xDE00 && Joined(0xD83D, 0xDE00) == 0x1F600
    ensures IsHexDigit('D') && IsHexDigit('8') && IsHexDigit('3') && IsHexDigit('E') && IsHexDigit('0')
    ensures Utf8(Code("D83D")) + Utf8(Code("DE00")) == HALVES
    ensures Encode(0x1F600) == WHOLE && Decode(WHOLE) == Char(0x1F600, 4)
  {
    CodeIsRead("D83D");
    CodeIsRead("DE00");
    hide Code, HexValue;
    HexSamples();
    assert Utf8(0xD83D) == [0xED as char, 0xA0 as char, 0xBD as char];
    assert Utf8(0xDE00) == [0xED as char, 0xB8 as char, 0x80 as char];
  }

  lemma HexSamples()
    ensures HexValue('D') == 13 && HexValue('8') == 8 && HexValue('3') == 3 && HexValue('E') == 14 && HexValue('0') == 0
  {
  }

  const PAIR_DOC: Doc := InBrackets(StringDoc(PAIR))

  function InBrackets(d: Doc): Doc { ArrayDoc([Item("", d, "")], false, "") }

  lemma InBracketsText(d: Doc)
    ensures Text(InBrackets(d)) == "[" + Text(d) + "]"
  {
    var items := [Item("", d, "")];
    assert items[1..] == [];
    assert ItemText(items[0]) == Text(d);
    assert Closing(false, "", "]") == "]";
  }

  lemma InBracketsIs(d: Doc, read: Reader)
    requires DocOk(d, read) && Lexical(d) && Strict(d)
    ensures DocOk(InBrackets(d), read) && Lexical(InBrackets(d)) && Strict(InBrackets(d))
    ensures Erase(InBrackets(d), read) == Array([Erase(d, read)]) && Meaning(InBrackets(d), read) == Array([Meaning(d, read)])
  {
    var items := [Item("", d, "")];
    assert items[1..] == [];
    assert ItemsOk([], read) && LexicalItems([]) && StrictItems([]);
    assert EraseItems([], read) == [] && ItemsMeaning([], read) == [];
    assert ItemsOk(items, read) && LexicalItems(items) && StrictItems(items);
    assert EraseItems(items, read) == [Erase(d, read)] && ItemsMeaning(items, read) == [Meaning(d, read)];
  }

  lemma PairStringIs(read: Reader)
    ensures var d := StringDoc(PAIR);
      && DocOk(d, read) && Lexical(d) && Strict(d) && Text(d) == "\"" + TokenText(PAIR) + "\""
      && Erase(d, read) == String(HALVES) && Meaning(d, read) == String(WHOLE)
  {
    PairText();
    hide TokenText, TokenChars, Denoted, TokenOk;
  }

  lemma PairDocText()
    ensures Text(PAIR_DOC) == "[\"\\uD83D\\uDE00\"]"
  {
    PairText();
    InBracketsText(StringDoc(PAIR));
    hide TokenText;
  }

  /** `["\uD83D\uDE00"]` denotes a string of one character, and is read as the six bytes of its halves. */
  lemma PairIsSplit(read: Reader)
    ensures IsRfcTextOf("[\"\\uD83D\\uDE00\"]", PAIR_DOC, "", "") && Meaning(PAIR_DOC, read) == Array([String(WHOLE)])
    ensures Parse("[\"\\uD83D\\uDE00\"]", read) == Parsed(Array([String(HALVES)]))
    ensures Decode(WHOLE) == Char(0x1F600, 4)
  {
    hide Text, Lexical, Strict, DocOk, Erase, Meaning, Parse, Denoted, TokenChars, TokenText, TokenOk;
    PairText();
    PairDocText();
    PairStringIs(read);
    InBracketsIs(StringDoc(PAIR), read);
    Unspaced(Text(PAIR_DOC));
    TextIsRead(PAIR_DOC, "", "", false, "", read);
  }

  lemma Unspaced(s: string)
    ensures "" + s + "" == s && "" + s + "" + "" == s
  {
  }

  function Raws(s: string): seq<Piece> { if s == "" then [] else [Raw(s[0])] + Raws(s[1..]) }

  lemma {:induction false} RawsAre(s: string)
    requires forall i :: 0 <= i < |s| ==> IsPlainChar(s[i])
    ensures TokenOk(Raws(s)) && TokenChars(Raws(s)) == s && Denoted(Raws(s)) == s
  {
    if s != "" {
      RawsAre(s[1..]);
      assert Raws(s)[1..] == Raws(s[1..]);
    }
  }

  function NullField(key: seq<Piece>): Field { Field("", key, "", "", NullDoc, "") }

  lemma NullFieldIs(key: seq<Piece>, rest: seq<Field>, m: map<string, Value>, read: Reader)
    requires TokenOk(key) && TokenChars(key) != "" && FieldsOk(rest, read) && LexicalFields(rest)
    ensures var fields := [NullField(key)] + rest;
      && FieldsOk(fields, read) && LexicalFields(fields)
      && EraseFields(fields, m, read) == EraseFields(rest, m[TokenChars(key) := Null], read)
      && FieldsMeaning(fields, m, read) == FieldsMeaning(rest, m[Denoted(key) := Null], read)
      && (HasPair(key) ==> !UnpairedNames(fields))
  {
    hide TokenOk, TokenChars, Denoted, HasPair;
    var fields := [NullField(key)] + rest;
    assert fields[0] == NullField(key) && fields[1..] == rest;
  }

  function ThreeFields(a: seq<Piece>, b: seq<Piece>, c: seq<Piece>): seq<Field> {
    [NullField(a)] + ([NullField(b)] + ([NullField(c)] + []))
  }

  lemma ThreeFieldsAre(a: seq<Piece>, b: seq<Piece>, c: seq<Piece>, m: map<string, Value>, read: Reader)
    requires TokenOk(a) && TokenOk(b) && TokenOk(c) && HasPair(a)
    requires TokenChars(a) != "" && TokenChars(b) != "" && TokenChars(c) != ""
    ensures var fields := ThreeFields(a, b, c);
      && FieldsOk(fields, read) && LexicalFields(fields) && !UnpairedNames(fields)
      && EraseFields(fields, m, read) == m[TokenChars(a) := Null][TokenChars(b) := Null][TokenChars(c) := Null]
      && FieldsMeaning(fields, m, read) == m[Denoted(a) := Null][Denoted(b) := Null][Denoted(c) := Null]
  {
    assert FieldsOk([], read) && LexicalFields([]);
    hide TokenOk, TokenChars, Denoted, HasPair, UnpairedNames, NullField;
    var one := [NullField(c)] + [];
    NullFieldIs(c, [], m[TokenChars(a) := Null][TokenChars(b) := Null], read);
    NullFieldIs(c, [], m[Denoted(a) := Null][Denoted(b) := Null], read);
    NothingAdded(m[TokenChars(a) := Null][TokenChars(b) := Null][TokenChars(c) := Null], read);
    NothingAdded(m[Denoted(a) := Null][Denoted(b) := Null][Denoted(c) := Null], read);
    hide FieldsOk, LexicalFields, EraseFields, FieldsMeaning;
    NullFieldIs(b, one, m[TokenChars(a) := Null], read);
    NullFieldIs(b, one, m[Denoted(a) := Null], read);
    NullFieldIs(a, [NullField(b)] + one, m, read);
  }

  lemma NothingAdded(m: map<string, Value>, read: Reader)
    ensures FieldsOk([], read) && LexicalFields([])
    ensures EraseFields([], m, read) == m && FieldsMeaning([], m, read) == m
  {
  }

  predicate AllPlain(s: string) { s != "" && forall i :: 0 <= i < |s| ==> IsPlainChar(s[i]) }

  lemma SwappedNames(ps: seq<Piece>, whole: string, halves: string, read: Reader) returns (d: Doc)
    requires TokenOk(ps) && HasPair(ps) && TokenChars(ps) == halves && Denoted(ps) == whole
    requires AllPlain(whole) && AllPlain(halves)
    ensures DocOk(d, read) && Lexical(d) && !Unpaired(d) && Erase(d, read) == Meaning(d, read)
  {
    RawsAre(whole);
    RawsAre(halves);
    hide *;
    ThreeFieldsAre(ps, Raws(whole), Raws(halves), map[], read);
    d := ObjectDoc(ThreeFields(ps, Raws(whole), Raws(halves)), false, "");
    ChangePlaces(halves, whole);
    ObjectIs(d, read);
  }

  lemma ObjectIs(d: Doc, read: Reader)
    requires d.ObjectDoc? && d.gap == "" && !d.comma && FieldsOk(d.fields, read) && LexicalFields(d.fields)
    ensures DocOk(d, read) && Lexical(d) && (Unpaired(d) ==> UnpairedNames(d.fields))
    ensures Erase(d, read) == Object(EraseFields(d.fields, map[], read))
    ensures Meaning(d, read) == Object(FieldsMeaning(d.fields, map[], read))
  {
    hide FieldsOk, LexicalFields, EraseFields, FieldsMeaning;
  }

  lemma PairIsPlain()
    ensures TokenOk(PAIR) && HasPair(PAIR) && AllPlain(WHOLE) && AllPlain(HALVES)
  {
    PairText();
  }

  /**
   * In an object whose names are a pair, the character it stands for and the bytes of its
   * halves, the first two change places; it is read as what it denotes, although a name
   * holds a pair.
   */
  lemma RawHalvesHidePairs(read: Reader) returns (d: Doc)
    ensures DocOk(d, read) && Lexical(d) && !Unpaired(d) && Erase(d, read) == Meaning(d, read)
  {
    hide *;
    PairText();
    PairIsPlain();
    d := SwappedNames(PAIR, WHOLE, HALVES, read);
  }

  lemma ChangePlaces(a: string, b: string)
    ensures map[][a := Null][b := Null][a := Null] == map[][b := Null][b := Null][a := Null]
  {
  }
}
