/** Percent and form encoding (section 2.1 of RFC 3986) as in Utilities.cc. */
module UrlCodec {
  import Text

  /** Every element of a std::string is a byte. */
  predicate IsBytes(s: string) {
    forall i :: 0 <= i < |s| ==> s[i] as int < 256
  }

  predicate IsDigit(c: char) { '0' <= c <= '9' }

  predicate IsAlnum(c: char) {
    IsDigit(c) || 'a' <= c <= 'z' || 'A' <= c <= 'Z'
  }

  predicate IsXDigit(c: char) {
    IsDigit(c) || 'a' <= c <= 'f' || 'A' <= c <= 'F'
  }

  function HexDigit(n: nat): (c: char)
    requires n < 16
    ensures IsXDigit(c) && HexValue(c) == n
  {
    if n > 9 then ('A' as int - 10 + n) as char else ('0' as int + n) as char
  }

  function HexValue(c: char): (n: nat)
    requires IsXDigit(c)
    ensures n < 16
  {
    if c <= '9' then c as int - '0' as int
    else if c <= 'F' then c as int - 'A' as int + 10
    else c as int - 'a' as int + 10
  }

  function CharToHex(c: char): string {
    var b := c as int % 256;
    [HexDigit(b / 16), HexDigit(b % 16)]
  }

  /** What urlEncodeComponent leaves alone. */
  predicate ComponentKeeps(c: char) {
    IsAlnum(c) || c in {'-', '_', '.', '!', '~', '*', '(', ')'}
  }

  /** What urlEncode, meant for whole paths, leaves alone. */
  predicate PathKeeps(c: char) {
    ComponentKeeps(c) || c in {'\'', '&', '=', '/', '\\', '?'}
  }

  function Escape(c: char, kept: bool): string {
    if c == ' ' then "+" else if kept then [c] else "%" + CharToHex(c)
  }

  function EncodeComponent(s: string): string {
    if s == "" then "" else Escape(s[0], ComponentKeeps(s[0])) + EncodeComponent(s[1..])
  }

  function EncodePath(s: string): string {
    if s == "" then "" else Escape(s[0], PathKeeps(s[0])) + EncodePath(s[1..])
  }

  predicate IsEscape(s: string) {
    |s| > 2 && s[0] == '%' && IsXDigit(s[1]) && IsXDigit(s[2])
  }

  function Decode(s: string): string {
    if s == "" then ""
    else if s[0] == '+' then " " + Decode(s[1..])
    else if IsEscape(s) then [(HexValue(s[1]) * 16 + HexValue(s[2])) as char] + Decode(s[3..])
    else [s[0]] + Decode(s[1..])
  }

  predicate NeedsDecoding(s: string) {
    exists i :: 0 <= i < |s| && (s[i] == '+' || s[i] == '%')
  }

  // ---------------------------------------------------------------- the loops

  lemma ComponentNext(done: string, s: string, i: nat)
    requires i < |s|
    ensures done + EncodeComponent(s[i..]) == (done + Escape(s[i], ComponentKeeps(s[i]))) + EncodeComponent(s[i + 1..])
  {
    assert s[i..][1..] == s[i + 1..];
  }

  lemma PathNext(done: string, s: string, i: nat)
    requires i < |s|
    ensures done + EncodePath(s[i..]) == (done + Escape(s[i], PathKeeps(s[i]))) + EncodePath(s[i + 1..])
  {
    assert s[i..][1..] == s[i + 1..];
  }

  lemma DecodeNext(done: string, s: string, i: nat)
    requires i < |s|
    ensures done + Decode(s[i..]) ==
      if s[i] == '+' then (done + " ") + Decode(s[i + 1..])
      else if s[i] == '%' && i + 2 < |s| && IsXDigit(s[i + 1]) && IsXDigit(s[i + 2]) then
        (done + [(HexValue(s[i + 1]) * 16 + HexValue(s[i + 2])) as char]) + Decode(s[i + 3..])
      else (done + [s[i]]) + Decode(s[i + 1..])
  {
    assert s[i..][1..] == s[i + 1..];
    if i + 2 < |s| {
      assert s[i..][3..] == s[i + 3..];
    }
  }

  method UrlEncodeComponent(src: string) returns (result: string)
    ensures result == EncodeComponent(src)
  {
    result := "";
    var i := 0;
    while i < |src|
      invariant 0 <= i <= |src|
      invariant result + EncodeComponent(src[i..]) == EncodeComponent(src)
    {
      ghost var done := result;
      ComponentNext(done, src, i);
      if src[i] == ' ' {
        result := result + "+";
      } else if ComponentKeeps(src[i]) {
        result := result + [src[i]];
      } else {
        result := result + "%";
        result := result + CharToHex(src[i]);
      }
      assert result == done + Escape(src[i], ComponentKeeps(src[i]));
      i := i + 1;
    }
  }

  method UrlEncode(src: string) returns (result: string)
    ensures result == EncodePath(src)
  {
    result := "";
    var i := 0;
    while i < |src|
      invariant 0 <= i <= |src|
      invariant result + EncodePath(src[i..]) == EncodePath(src)
    {
      ghost var done := result;
      PathNext(done, src, i);
      if src[i] == ' ' {
        result := result + "+";
      } else if PathKeeps(src[i]) {
        result := result + [src[i]];
      } else {
        result := result + "%";
        result := result + CharToHex(src[i]);
      }
      assert result == done + Escape(src[i], PathKeeps(src[i]));
      i := i + 1;
    }
  }

  method UrlDecode(src: string) returns (result: string)
    ensures result == Decode(src)
  {
    result := "";
    var i := 0;
    while i < |src|
      invariant 0 <= i <= |src|
      invariant result + Decode(src[i..]) == Decode(src)
    {
      DecodeNext(result, src, i);
      if src[i] == '+' {
        result := result + " ";
      } else if src[i] == '%' && i + 2 < |src| && IsXDigit(src[i + 1]) && IsXDigit(src[i + 2]) {
        var hex := HexValue(src[i + 1]) * 16 + HexValue(src[i + 2]);
        result := result + [hex as char];
        i := i + 2;
      } else {
        result := result + [src[i]];
      }
      i := i + 1;
    }
  }

  // ---------------------------------------------------------------- inversion

  lemma DecodeEscape(c: char, kept: bool, rest: string)
    requires c as int < 256 && (kept ==> c != '%' && c != '+')
    ensures Decode(Escape(c, kept) + rest) == [c] + Decode(rest)
  {
    var e := Escape(c, kept);
    var s := e + rest;
    assert s[|e|..] == rest;
    if c != ' ' && !kept {
      assert s[0] == '%' && s[1] == CharToHex(c)[0] && s[2] == CharToHex(c)[1];
      assert HexValue(s[1]) * 16 + HexValue(s[2]) == c as int;
    }
  }

  lemma {:induction false} ComponentRoundTrip(s: string)
    requires IsBytes(s)
    ensures Decode(EncodeComponent(s)) == s
  {
    if s != "" {
      DecodeEscape(s[0], ComponentKeeps(s[0]), EncodeComponent(s[1..]));
      ComponentRoundTrip(s[1..]);
    }
  }

  lemma {:induction false} PathRoundTrip(s: string)
    requires IsBytes(s)
    ensures Decode(EncodePath(s)) == s
  {
    if s != "" {
      DecodeEscape(s[0], PathKeeps(s[0]), EncodePath(s[1..]));
      PathRoundTrip(s[1..]);
    }
  }

  /** Text without escapes decodes to itself, so skipping the decoder changes nothing. */
  lemma {:induction false} DecodeIdle(s: string)
    requires !NeedsDecoding(s)
    ensures Decode(s) == s
  {
    if s != "" {
      assert forall i :: 0 <= i < |s[1..]| ==> s[1..][i] == s[i + 1];
      DecodeIdle(s[1..]);
    }
  }

  /** An encoded component holds none of the characters that a form or a request line gives meaning to. */
  lemma {:induction false} ComponentIsPlain(s: string)
    ensures forall i :: 0 <= i < |EncodeComponent(s)| ==>
      ComponentKeeps(EncodeComponent(s)[i]) || EncodeComponent(s)[i] in {'+', '%'}
  {
    if s != "" {
      ComponentIsPlain(s[1..]);
      var e, t := Escape(s[0], ComponentKeeps(s[0])), EncodeComponent(s[1..]);
      forall i | 0 <= i < |e + t| ensures ComponentKeeps((e + t)[i]) || (e + t)[i] in {'+', '%'} {
        if i >= |e| {
          assert (e + t)[i] == t[i - |e|];
        }
      }
    }
  }

  /** An encoded path holds a question mark only where the path does. */
  lemma {:induction false} PathIsPlain(s: string)
    ensures forall i :: 0 <= i < |EncodePath(s)| ==> PathKeeps(EncodePath(s)[i]) || EncodePath(s)[i] in {'+', '%'}
    ensures '?' !in s ==> '?' !in EncodePath(s)
  {
    if s != "" {
      PathIsPlain(s[1..]);
      var e, t := Escape(s[0], PathKeeps(s[0])), EncodePath(s[1..]);
      forall i | 0 <= i < |e + t|
        ensures PathKeeps((e + t)[i]) || (e + t)[i] in {'+', '%'}
        ensures '?' !in s ==> (e + t)[i] != '?'
      {
        if i >= |e| {
          assert (e + t)[i] == t[i - |e|];
        } else {
          assert s[0] in s;
        }
      }
    }
  }

  // ---------------------------------------------------------------- character by character

  const KEPT := Text.CAPITALS + Text.SMALL + Text.DIGITS + "-_.!~*()"
  const KEPT_IN_PATHS := KEPT + "'&=/\\?"

  /** Escapes are written with capital digits and read with either. */
  lemma {:induction false} DigitTable(n: nat)
    requires n < 16
    ensures HexDigit(n) == Text.UPPER_HEX[n]
    ensures IsXDigit(Text.UPPER_HEX[n]) && HexValue(Text.UPPER_HEX[n]) == n
    ensures IsXDigit(Text.LOWER_HEX[n]) && HexValue(Text.LOWER_HEX[n]) == n
  {
  }

  lemma {:induction false} DigitsOnly(c: char)
    ensures IsXDigit(c) <==> c in Text.UPPER_HEX || c in Text.LOWER_HEX
  {
    if IsXDigit(c) {
      var n := HexValue(c);
      DigitTable(n);
    }
  }

  /** What the two encoders leave alone. */
  lemma {:induction false} KeptTable(c: char)
    ensures ComponentKeeps(c) <==> c in KEPT
    ensures PathKeeps(c) <==> c in KEPT_IN_PATHS
  {
    Text.CapitalsAre(c);
    Text.SmallAre(c);
    Text.DigitsAre(c);
    assert c in "-_.!~*()" <==> c in {'-', '_', '.', '!', '~', '*', '(', ')'};
    assert c in "'&=/\\?" <==> c in {'\'', '&', '=', '/', '\\', '?'};
  }

  /** One byte: a blank is a plus, what is kept is itself, and the rest a percent sign and its two digits. */
  predicate EncodedAs(c: char, text: string, kept: string) {
    if c == ' ' then text == "+"
    else if c in kept then text == [c]
    else text == ['%', Text.UPPER_HEX[c as int % 256 / 16], Text.UPPER_HEX[c as int % 16]]
  }

  lemma {:induction false} EscapeIs(c: char, kept: string)
    ensures EncodedAs(c, Escape(c, c in kept), kept)
  {
    var b := c as int % 256;
    DigitTable(b / 16);
    DigitTable(b % 16);
    assert b % 16 == c as int % 16;
  }

  lemma {:induction false} ComponentsJoin(a: string, b: string)
    ensures EncodeComponent(a + b) == EncodeComponent(a) + EncodeComponent(b)
    decreases |a|
  {
    if a == "" {
      assert a + b == b;
    } else {
      assert (a + b)[1..] == a[1..] + b;
      ComponentsJoin(a[1..], b);
    }
  }

  lemma {:induction false} PathsJoin(a: string, b: string)
    ensures EncodePath(a + b) == EncodePath(a) + EncodePath(b)
    decreases |a|
  {
    if a == "" {
      assert a + b == b;
    } else {
      assert (a + b)[1..] == a[1..] + b;
      PathsJoin(a[1..], b);
    }
  }

  lemma {:induction false} OneByte(c: char)
    ensures EncodeComponent([c]) == Escape(c, ComponentKeeps(c)) && EncodePath([c]) == Escape(c, PathKeeps(c))
  {
    assert [c][1..] == "";
  }

  /** The component encoder works byte by byte, wherever the byte stands. */
  lemma {:induction false} ComponentByBytes(before: string, c: char, after: string)
    ensures EncodeComponent(before + [c] + after) ==
      EncodeComponent(before) + EncodeComponent([c]) + EncodeComponent(after)
    ensures EncodedAs(c, EncodeComponent([c]), KEPT)
  {
    ComponentsJoin(before + [c], after);
    ComponentsJoin(before, [c]);
    OneByte(c);
    KeptTable(c);
    EscapeIs(c, KEPT);
  }

  /** So does the path encoder. */
  lemma {:induction false} PathByBytes(before: string, c: char, after: string)
    ensures EncodePath(before + [c] + after) == EncodePath(before) + EncodePath([c]) + EncodePath(after)
    ensures EncodedAs(c, EncodePath([c]), KEPT_IN_PATHS)
  {
    PathsJoin(before + [c], after);
    PathsJoin(before, [c]);
    OneByte(c);
    KeptTable(c);
    EscapeIs(c, KEPT_IN_PATHS);
  }

  // ---------------------------------------------------------------- what any text decodes to

  /** A byte of the text, a plus, an escape, or a percent sign that begins none. */
  datatype Piece = Plain(c: char) | Plus | Escaped(high: Nibble, low: Nibble, capital: bool) | Percent

  type Nibble = n: nat | n < 16

  function Digits(capital: bool): string {
    if capital then Text.UPPER_HEX else Text.LOWER_HEX
  }

  predicate GoodPiece(p: Piece) {
    match p
    case Plain(c) => c != '+' && c != '%'
    case _ => true
  }

  function PieceText(p: Piece): string {
    match p
    case Plain(c) => [c]
    case Plus => "+"
    case Escaped(h, l, capital) => ['%', Digits(capital)[h], Digits(capital)[l]]
    case Percent => "%"
  }

  function Meaning(p: Piece): char {
    match p
    case Plain(c) => c
    case Plus => ' '
    case Escaped(h, l, _) => (16 * h + l) as char
    case Percent => '%'
  }

  predicate StartsWithDigits(s: string) {
    |s| >= 2 && (s[0] in Text.UPPER_HEX || s[0] in Text.LOWER_HEX) && (s[1] in Text.UPPER_HEX || s[1] in Text.LOWER_HEX)
  }

  predicate GoodPieces(ps: seq<Piece>) {
    ps == [] ||
    (GoodPiece(ps[0]) && GoodPieces(ps[1..]) && (ps[0].Percent? ==> !StartsWithDigits(PiecesText(ps[1..]))))
  }

  function PiecesText(ps: seq<Piece>): string {
    if ps == [] then "" else PieceText(ps[0]) + PiecesText(ps[1..])
  }

  function Meanings(ps: seq<Piece>): string {
    if ps == [] then "" else [Meaning(ps[0])] + Meanings(ps[1..])
  }

  lemma {:induction false} PieceDecodes(p: Piece, rest: string)
    requires GoodPiece(p) && (p.Percent? ==> !StartsWithDigits(rest))
    ensures Decode(PieceText(p) + rest) == [Meaning(p)] + Decode(rest)
  {
    var s := PieceText(p) + rest;
    match p
    case Escaped(h, l, capital) =>
      DigitTable(h);
      DigitTable(l);
      assert s[3..] == rest && IsEscape(s);
    case Percent =>
      assert s[1..] == rest;
      if |s| > 2 {
        DigitsOnly(s[1]);
        DigitsOnly(s[2]);
        assert s[1] == rest[0] && s[2] == rest[1];
      }
    case _ =>
      assert s[1..] == rest;
  }

  /** Escapes in either case, pluses, and percent signs that are not followed by two digits and so stay. */
  lemma {:induction false} PiecesDecode(ps: seq<Piece>)
    requires GoodPieces(ps)
    ensures Decode(PiecesText(ps)) == Meanings(ps)
    decreases |ps|
  {
    if ps != [] {
      PieceDecodes(ps[0], PiecesText(ps[1..]));
      PiecesDecode(ps[1..]);
    }
  }
}
