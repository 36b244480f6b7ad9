/** Character classes and searches of the C library and of MsgBuffer. */
module Text {
  import opened Wrappers

  predicate IsSpace(c: char) {
    c == ' ' || '\t' <= c <= '\r'
  }

  function ToLower(c: char): char {
    if 'A' <= c <= 'Z' then (c as int + 32) as char else c
  }

  const CAPITALS := "ABCDEFGHIJKLMNOPQRSTUVWXYZ"
  const SMALL := "abcdefghijklmnopqrstuvwxyz"
  const DIGITS := "0123456789"
  const LOWER_HEX := "0123456789abcdef"
  const UPPER_HEX := "0123456789ABCDEF"

  lemma {:induction false} CapitalsAre(c: char)
    ensures 'A' <= c <= 'Z' <==> c in CAPITALS
  {
    if 'A' <= c <= 'Z' {
      assert CAPITALS[c as int - 'A' as int] == c;
    }
  }

  lemma {:induction false} SmallAre(c: char)
    ensures 'a' <= c <= 'z' <==> c in SMALL
  {
    if 'a' <= c <= 'z' {
      assert SMALL[c as int - 'a' as int] == c;
    }
  }

  lemma {:induction false} DigitsAre(c: char)
    ensures '0' <= c <= '9' <==> c in DIGITS
  {
    if '0' <= c <= '9' {
      assert DIGITS[c as int - '0' as int] == c;
    }
  }

  /** The capital letters become the small ones, and nothing else changes. */
  lemma {:induction false} LowerCase(i: nat, c: char)
    requires i < 26
    ensures ToLower(CAPITALS[i]) == SMALL[i]
    ensures c !in CAPITALS ==> ToLower(c) == c
  {
    assert CAPITALS[i] == ('A' as int + i) as char && SMALL[i] == ('a' as int + i) as char;
    CapitalsAre(c);
  }

  function Lower(s: string): (r: string)
    ensures |r| == |s| && forall i :: 0 <= i < |s| ==> r[i] == ToLower(s[i])
  {
    seq(|s|, i requires 0 <= i < |s| => ToLower(s[i]))
  }

  /** std::find: the first position of `c`, or the end. */
  function Find(s: string, c: char): (i: nat)
    ensures i <= |s|
    ensures i < |s| ==> s[i] == c
    ensures forall j :: 0 <= j < i ==> s[j] != c
  {
    if s == "" || s[0] == c then 0
    else
      var i := Find(s[1..], c);
      assert forall j :: 0 < j < i + 1 ==> s[j] == s[1..][j - 1];
      i + 1
  }

  lemma FindIs(s: string, c: char, i: nat)
    requires i <= |s| && (i < |s| ==> s[i] == c)
    requires forall j :: 0 <= j < i ==> s[j] != c
    ensures Find(s, c) == i
  {
  }

  const CRLF := "\r\n"

  predicate CrlfHere(s: string, i: nat) {
    i + 1 < |s| && s[i] == '\r' && s[i + 1] == '\n'
  }

  /** MsgBuffer::findCRLF: the position of the first CR LF pair. */
  function FindCrlf(s: string): (r: Option<nat>)
    ensures r.Some? ==> CrlfHere(s, r.value)
    ensures forall j :: 0 <= j < (if r.Some? then r.value else |s|) ==> !CrlfHere(s, j)
  {
    if |s| < 2 then None
    else if CrlfHere(s, 0) then Some(0)
    else
      var r := FindCrlf(s[1..]);
      assert forall j :: 0 < j < (if r.Some? then r.value + 1 else |s|) ==> CrlfHere(s, j) == CrlfHere(s[1..], j - 1);
      match r
      case None => None
      case Some(i) => Some(i + 1)
  }

  lemma FindCrlfIs(s: string, i: nat)
    requires CrlfHere(s, i) && forall j :: 0 <= j < i ==> !CrlfHere(s, j)
    ensures FindCrlf(s) == Some(i)
  {
  }

  /** More bytes do not move a line end that is already there. */
  lemma FindCrlfStable(a: string, b: string)
    ensures FindCrlf(a).Some? ==> FindCrlf(a + b) == FindCrlf(a)
  {
    var r := FindCrlf(a);
    if r.Some? {
      forall j | 0 <= j < r.value ensures !CrlfHere(a + b, j) {
        assert !CrlfHere(a, j);
      }
      FindCrlfIs(a + b, r.value);
    }
  }

  /** A line without CR ends where its CR LF was put. */
  lemma LineEnd(line: string, rest: string)
    requires '\r' !in line
    ensures FindCrlf(line + CRLF + rest) == Some(|line|)
  {
    var s := line + CRLF + rest;
    forall j | 0 <= j < |line| ensures !CrlfHere(s, j) {
      assert s[j] == line[j] && line[j] in line;
    }
    assert CrlfHere(s, |line|);
    FindCrlfIs(s, |line|);
  }

  function TrimLeft(s: string): (r: string)
    ensures |r| <= |s|
  {
    if s != "" && IsSpace(s[0]) then TrimLeft(s[1..]) else s
  }

  lemma {:induction false} BlanksTrimmed(blanks: string, text: string)
    requires (forall i :: 0 <= i < |blanks| ==> IsSpace(blanks[i])) && (text == "" || !IsSpace(text[0]))
    ensures TrimLeft(blanks + text) == text
    decreases |blanks|
  {
    if blanks == "" {
      assert blanks + text == text;
    } else {
      assert (blanks + text)[1..] == blanks[1..] + text;
      BlanksTrimmed(blanks[1..], text);
    }
  }

  function TrimRight(s: string): (r: string)
    ensures |r| <= |s|
  {
    if s != "" && IsSpace(s[|s| - 1]) then TrimRight(s[..|s| - 1]) else s
  }

  // ---------------------------------------------------------------- numbers

  predicate Digit(c: char) { '0' <= c <= '9' }

  /** std::to_string of an unsigned number. */
  function Decimal(n: nat): (s: string)
    ensures s != "" && forall i :: 0 <= i < |s| ==> Digit(s[i])
  {
    var d := [('0' as int + n % 10) as char];
    if n < 10 then d else Decimal(n / 10) + d
  }

  /** The number spelled by the digits at the front of `s`, after those read into `acc`. */
  function ReadDigits(s: string, acc: nat): nat {
    if s == "" || !Digit(s[0]) then acc else ReadDigits(s[1..], acc * 10 + (s[0] as int - '0' as int))
  }

  /** std::stoull on an unsigned number; `None` where it throws. */
  function ParseDecimal(s: string): Option<nat> {
    var t := TrimLeft(s);
    if t == "" || !Digit(t[0]) then None else Some(ReadDigits(t, 0))
  }

  lemma {:induction false} ReadAppend(a: string, d: char, acc: nat)
    requires Digit(d) && forall i :: 0 <= i < |a| ==> Digit(a[i])
    ensures ReadDigits(a + [d], acc) == ReadDigits(a, acc) * 10 + (d as int - '0' as int)
    decreases |a|
  {
    if a == "" {
      assert a + [d] == [d] && [d][1..] == "";
    } else {
      assert (a + [d])[1..] == a[1..] + [d];
      ReadAppend(a[1..], d, acc * 10 + (a[0] as int - '0' as int));
    }
  }

  lemma {:induction false} ReadDecimal(n: nat)
    ensures ReadDigits(Decimal(n), 0) == n
  {
    var d := ('0' as int + n % 10) as char;
    if n < 10 {
      ReadAppend("", d, 0);
      assert "" + [d] == [d];
    } else {
      ReadDecimal(n / 10);
      ReadAppend(Decimal(n / 10), d, 0);
    }
  }

  lemma DecimalRoundTrip(n: nat)
    ensures ParseDecimal(Decimal(n)) == Some(n)
  {
    ReadDecimal(n);
  }
}
