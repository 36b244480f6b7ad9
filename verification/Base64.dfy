/**
 Base64 with both alphabets (sections 4 and 5 of RFC 4648), as in Utilities.cc.  Masks and shifts on
 bytes are written as divisions and remainders.
 */
module Base64 {
  import opened Bytes
  import Text

  predicate IsAlnum(c: char) {
    '0' <= c <= '9' || 'a' <= c <= 'z' || 'A' <= c <= 'Z'
  }

  predicate IsBase64(c: char) {
    IsAlnum(c) || c == '+' || c == '/' || c == '-' || c == '_'
  }

  /** The alphabets base64Chars and urlBase64Chars. */
  function CharSet(i: int, urlSafe: bool): (c: char)
    requires 0 <= i < 64
    ensures IsBase64(c) && Index(c) == i
  {
    if i < 26 then ('A' as int + i) as char
    else if i < 52 then ('a' as int + (i - 26)) as char
    else if i < 62 then ('0' as int + (i - 52)) as char
    else if i == 62 then (if urlSafe then '-' else '+')
    else if urlSafe then '_' else '/'
  }

  /** Base64CharMap::getIndex as an unsigned byte: 255 for the terminating zero, 0 for other characters. */
  function Index(c: char): (i: Byte)
    ensures IsBase64(c) ==> i < 64
  {
    if 'A' <= c <= 'Z' then c as int - 'A' as int
    else if 'a' <= c <= 'z' then c as int - 'a' as int + 26
    else if '0' <= c <= '9' then c as int - '0' as int + 52
    else if c == '+' || c == '-' then 62
    else if c == '/' || c == '_' then 63
    else if c == '\0' then 255
    else 0
  }

  // ---------------------------------------------------------------- specification

  function Sextets(a: Byte, b: Byte, c: Byte): (q: seq<int>)
    ensures |q| == 4 && forall i :: 0 <= i < 4 ==> 0 <= q[i] < 64
  {
    [a / 4, a % 4 * 16 + b / 16, b % 16 * 4 + c / 64, c % 64]
  }

  function Letters(q: seq<int>, n: nat, urlSafe: bool): (s: string)
    requires n <= |q| && forall i :: 0 <= i < |q| ==> 0 <= q[i] < 64
    ensures |s| == n && forall i :: 0 <= i < n ==> s[i] == CharSet(q[i], urlSafe)
  {
    if n == 0 then "" else Letters(q, n - 1, urlSafe) + [CharSet(q[n - 1], urlSafe)]
  }

  function Encode(bs: seq<Byte>, urlSafe: bool): string {
    if |bs| == 0 then ""
    else if |bs| == 1 then Letters(Sextets(bs[0], 0, 0), 2, urlSafe) + "=="
    else if |bs| == 2 then Letters(Sextets(bs[0], bs[1], 0), 3, urlSafe) + "="
    else Letters(Sextets(bs[0], bs[1], bs[2]), 4, urlSafe) + Encode(bs[3..], urlSafe)
  }

  function Octet1(a: Byte, b: Byte): Byte {
    (a * 4 + b / 16 % 4) % 256
  }

  function Octet2(b: Byte, c: Byte): Byte {
    b % 16 * 16 + c / 4 % 16
  }

  function Octet3(c: Byte, d: Byte): Byte {
    (c % 4 * 64 + d) % 256
  }

  function Octets(a: Byte, b: Byte, c: Byte, d: Byte): (o: seq<Byte>)
    ensures |o| == 3
  {
    [Octet1(a, b), Octet2(b, c), Octet3(c, d)]
  }

  /** The characters before the first one that is not in an alphabet. */
  function Payload(s: string): (p: string)
    ensures |p| <= |s| && p == s[..|p|]
    ensures forall i :: 0 <= i < |p| ==> IsBase64(p[i])
    ensures |p| < |s| ==> !IsBase64(s[|p|])
  {
    if s == "" || !IsBase64(s[0]) then "" else [s[0]] + Payload(s[1..])
  }

  /** Whole groups give three bytes each; `n` characters left over give `n - 1` bytes. */
  function DecodeGroups(p: string): seq<Byte> {
    if |p| >= 4 then Octets(Index(p[0]), Index(p[1]), Index(p[2]), Index(p[3])) + DecodeGroups(p[4..])
    else if |p| == 3 then Octets(Index(p[0]), Index(p[1]), Index(p[2]), 0)[..2]
    else if |p| == 2 then Octets(Index(p[0]), Index(p[1]), 0, 0)[..1]
    else []
  }

  function Decode(s: string): seq<Byte> {
    DecodeGroups(Payload(s))
  }

  // ---------------------------------------------------------------- the loops

  /** Looks up the first `n` of four indices. */
  method Lookup(q: seq<int>, n: nat, urlSafe: bool) returns (letters: string)
    requires n <= |q| && forall i :: 0 <= i < |q| ==> 0 <= q[i] < 64
    ensures letters == Letters(q, n, urlSafe)
  {
    letters := "";
    var i := 0;
    while i < n
      invariant 0 <= i <= n && letters == Letters(q, i, urlSafe)
    {
      letters := letters + [CharSet(q[i], urlSafe)];
      i := i + 1;
    }
  }

  /** The last one or two bytes, filled up with zeros. */
  method EncodeRest(charArray3: array<Byte>, n: nat, urlSafe: bool) returns (ret: string)
    requires charArray3.Length == 3 && 1 <= n <= 2
    modifies charArray3
    ensures ret == Encode(old(charArray3[..n]), urlSafe)
  {
    var i := n;
    var j := i;
    while j < 3
      invariant n <= j <= 3 && charArray3[..n] == old(charArray3[..n])
      invariant forall k :: n <= k < j ==> charArray3[k] == 0
    {
      charArray3[j] := 0;
      j := j + 1;
    }
    assert forall k :: 0 <= k < n ==> charArray3[k] == charArray3[..n][k];
    ret := Lookup(Sextets(charArray3[0], charArray3[1], charArray3[2]), i + 1, urlSafe);
    if i < 3 {
      ret := ret + "=";
      i := i + 1;
    }
    if i < 3 {
      ret := ret + "=";
      i := i + 1;
    }
  }

  method Base64Encode(bytes: seq<Byte>, urlSafe: bool) returns (ret: string)
    ensures ret == Encode(bytes, urlSafe)
  {
    ret := "";
    var i, pos := 0, 0;
    ghost var at := 0;
    var charArray3 := new Byte[3](_ => 0);
    while pos < |bytes|
      invariant 0 <= at <= pos <= |bytes| && i == pos - at < 3
      invariant forall k :: 0 <= k < i ==> charArray3[k] == bytes[at + k]
      invariant ret + Encode(bytes[at..], urlSafe) == Encode(bytes, urlSafe)
    {
      charArray3[i] := bytes[pos];
      i := i + 1;
      pos := pos + 1;
      if i == 3 {
        EncodeGroup(bytes, at, charArray3[0], charArray3[1], charArray3[2], urlSafe, ret);
        var letters := Lookup(Sextets(charArray3[0], charArray3[1], charArray3[2]), 4, urlSafe);
        ret := ret + letters;
        at, i := pos, 0;
      }
    }
    if i > 0 {
      assert bytes[at..] == charArray3[..i];
      var tail := EncodeRest(charArray3, i, urlSafe);
      ret := ret + tail;
    }
  }

  lemma EncodeGroup(bytes: seq<Byte>, at: nat, a: Byte, b: Byte, c: Byte, urlSafe: bool, done: string)
    requires at + 3 <= |bytes| && a == bytes[at] && b == bytes[at + 1] && c == bytes[at + 2]
    ensures done + Encode(bytes[at..], urlSafe) ==
      (done + Letters(Sextets(a, b, c), 4, urlSafe)) + Encode(bytes[at + 3..], urlSafe)
  {
    assert bytes[at..][3..] == bytes[at + 3..];
  }

  /** The bytes of four characters. */
  function Group(g: seq<char>): (o: seq<Byte>)
    requires |g| == 4
    ensures |o| == 3
  {
    Octets(Index(g[0]), Index(g[1]), Index(g[2]), Index(g[3]))
  }

  /** `done` is what the first `at` characters of the payload decode to. */
  ghost predicate Upto(p: string, at: nat, done: seq<Byte>) {
    at <= |p| && done + DecodeGroups(p[at..]) == DecodeGroups(p)
  }

  lemma DecodeGroup(p: string, at: nat, g: string, done: seq<Byte>)
    requires Upto(p, at, done) && at + 4 <= |p| && |g| == 4 && forall k :: 0 <= k < 4 ==> g[k] == p[at + k]
    ensures Upto(p, at + 4, done + Group(g))
  {
    var q := p[at..];
    assert q[4..] == p[at + 4..];
    assert forall k :: 0 <= k < 4 ==> q[k] == g[k];
    assert DecodeGroups(q) == Group(g) + DecodeGroups(p[at + 4..]);
  }

  /** Whatever fills up the last group does not reach the output. */
  lemma PaddingUnseen(p: string, g: string)
    requires |p| < 4 && |g| == 4 && forall k :: 0 <= k < |p| ==> g[k] == p[k]
    ensures DecodeGroups(p) == if |p| == 0 then [] else Group(g)[..|p| - 1]
  {
    if |p| == 2 {
      SamePrefix(Octets(Index(p[0]), Index(p[1]), 0, 0), Group(g));
    } else if |p| == 3 {
      SamePrefix(Octets(Index(p[0]), Index(p[1]), Index(p[2]), 0), Group(g));
    } else {
      assert Group(g)[..0] == [];
    }
  }

  lemma SamePrefix(x: seq<Byte>, y: seq<Byte>)
    requires |x| == |y| == 3 && x[0] == y[0]
    ensures x[..1] == y[..1] && (x[1] == y[1] ==> x[..2] == y[..2])
  {
  }

  lemma DecodeLast(p: string, at: nat, g: string, done: seq<Byte>)
    requires Upto(p, at, done) && 0 < |p| - at < 4 && |g| == 4 && forall k :: 0 <= k < |p| - at ==> g[k] == p[at + k]
    ensures DecodeGroups(p) == done + Group(g)[..|p| - at - 1]
  {
    PaddingUnseen(p[at..], g);
  }

  lemma UptoEnds(p: string, done: seq<Byte>)
    ensures Upto(p, 0, [])
    ensures Upto(p, |p|, done) ==> done == DecodeGroups(p)
  {
    assert p[0..] == p && [] + DecodeGroups(p) == DecodeGroups(p);
    assert p[|p|..] == "" && done + [] == done;
  }

  /** Fills the group up with zeros, whose index is 255. */
  method FillUp(charArray4: array<char>, n: nat)
    requires charArray4.Length == 4 && n < 4
    modifies charArray4
    ensures forall k :: 0 <= k < n ==> charArray4[k] == old(charArray4[k])
    ensures forall k :: n <= k < 4 ==> Index(charArray4[k]) == 255
  {
    var j := n;
    while j < 4
      invariant n <= j <= 4 && forall k :: 0 <= k < n ==> charArray4[k] == old(charArray4[k])
      invariant forall k :: n <= k < j ==> charArray4[k] == '\0'
    {
      charArray4[j] := '\0';
      j := j + 1;
    }
  }

  /** The last two or three characters; a single one gives nothing. */
  method DecodeRest(charArray4: array<char>, i: nat, done: seq<Byte>, ghost p: string, ghost at: nat)
    returns (ret: seq<Byte>)
    requires charArray4.Length == 4 && 0 < i == |p| - at < 4
    requires Upto(p, at, done) && forall k :: 0 <= k < i ==> charArray4[k] == p[at + k]
    modifies charArray4
    ensures ret == DecodeGroups(p)
  {
    FillUp(charArray4, i);
    DecodeLast(p, at, charArray4[..], done);
    ret := done + Group(charArray4[..])[..i - 1];
  }

  /** A whole group of four characters. */
  method DecodeFull(charArray4: array<char>, done: seq<Byte>, ghost p: string, ghost at: nat) returns (ret: seq<Byte>)
    requires charArray4.Length == 4 && at + 4 <= |p|
    requires Upto(p, at, done) && forall k :: 0 <= k < 4 ==> charArray4[k] == p[at + k]
    ensures Upto(p, at + 4, ret)
  {
    DecodeGroup(p, at, charArray4[..], done);
    ret := done + Group(charArray4[..]);
  }

  /** The array holds the `i` characters of the payload from `at` on. */
  ghost predicate Holds(charArray4: array<char>, i: nat, p: string, at: nat)
    reads charArray4
  {
    charArray4.Length == 4 && i <= 4 && at + i <= |p| && forall k :: 0 <= k < i ==> charArray4[k] == p[at + k]
  }

  /** The next character; a full group is decoded. */
  method Take(charArray4: array<char>, i: nat, c: char, done: seq<Byte>, ghost p: string, ghost at: nat)
    returns (j: nat, ret: seq<Byte>, ghost to: nat)
    requires i < 4 && Holds(charArray4, i, p, at) && Upto(p, at, done)
    requires at + i < |p| && p[at + i] == c
    modifies charArray4
    ensures j < 4 && Holds(charArray4, j, p, to) && Upto(p, to, ret) && to + j == at + i + 1
  {
    charArray4[i] := c;
    j, ret, to := i + 1, done, at;
    if j == 4 {
      ret := DecodeFull(charArray4, done, p, at);
      j, to := 0, at + 4;
    }
  }

  /** What is left after the last whole group, if anything. */
  method Finish(charArray4: array<char>, i: nat, done: seq<Byte>, ghost p: string, ghost at: nat)
    returns (ret: seq<Byte>)
    requires i < 4 && at + i == |p| && Holds(charArray4, i, p, at) && Upto(p, at, done)
    modifies charArray4
    ensures ret == DecodeGroups(p)
  {
    ret := done;
    if i > 0 {
      ret := DecodeRest(charArray4, i, done, p, at);
    } else {
      UptoEnds(p, done);
    }
  }

  lemma {:induction false} PayloadNext(s: string, pos: nat)
    requires pos < |s| && pos <= |Payload(s)| && IsBase64(s[pos])
    ensures pos < |Payload(s)| && Payload(s)[pos] == s[pos]
  {
  }

  lemma {:induction false} PayloadEnds(s: string, pos: nat)
    requires pos <= |Payload(s)| && (pos == |s| || s[pos] == '=' || !IsBase64(s[pos]))
    ensures pos == |Payload(s)|
  {
  }

  method Base64Decode(s: string) returns (ret: seq<Byte>)
    ensures ret == Decode(s)
  {
    ret := [];
    var i, pos := 0, 0;
    ghost var at := 0;
    var charArray4 := new char[4](_ => '\0');
    UptoEnds(Payload(s), []);
    while pos < |s| && s[pos] != '=' && IsBase64(s[pos])
      invariant i < 4 && pos <= |Payload(s)| && at + i == pos
      invariant Holds(charArray4, i, Payload(s), at) && Upto(Payload(s), at, ret)
    {
      PayloadNext(s, pos);
      i, ret, at := Take(charArray4, i, s[pos], ret, Payload(s), at);
      pos := pos + 1;
    }
    PayloadEnds(s, pos);
    ret := Finish(charArray4, i, ret, Payload(s), at);
  }

  // ---------------------------------------------------------------- the signed decoder

  /** `char` is signed: the index 255 is stored as -1. */
  type SignedChar = x: int | -128 <= x < 128

  function Truncate(v: int): SignedChar {
    var b := v % 256;
    if b < 128 then b else b - 256
  }

  function Unsigned(x: SignedChar): Byte {
    if x < 0 then x + 256 else x
  }

  function SignedOctets(a: SignedChar, b: SignedChar, c: SignedChar, d: SignedChar): (o: seq<SignedChar>)
    ensures |o| == 3
  {
    // A mask picks bits of the two's complement representation.
    [Truncate(a * 4 + Unsigned(b) / 16 % 4),
     Truncate(Unsigned(b) % 16 * 16 + Unsigned(c) / 4 % 16),
     Truncate(Unsigned(c) % 4 * 64 + d)]
  }

  function UnsignedAll(xs: seq<SignedChar>): (bs: seq<Byte>)
    ensures |bs| == |xs| && forall i :: 0 <= i < |xs| ==> bs[i] == Unsigned(xs[i])
  {
    seq(|xs|, i requires 0 <= i < |xs| => Unsigned(xs[i]))
  }

  lemma TruncateUnsigned(v: int)
    ensures Unsigned(Truncate(v)) == v % 256
  {
  }

  lemma WrapAround(v: int, k: int)
    ensures (v - k * 256) % 256 == v % 256
  {
  }

  lemma SignedHigh(a: Byte, b: Byte)
    ensures Unsigned(Truncate(Truncate(a) * 4 + Unsigned(Truncate(b)) / 16 % 4)) == Octet1(a, b)
  {
    TruncateUnsigned(b);
    var k := b / 16 % 4;
    TruncateUnsigned(Truncate(a) * 4 + k);
    WrapAround(a * 4 + k, 4);
    WrapAround(a, 1);
    assert Truncate(a) == a || Truncate(a) == a - 256;
  }

  lemma ByteBack(b: Byte)
    ensures Unsigned(Truncate(b)) == b
  {
    TruncateUnsigned(b);
  }

  lemma SignedMiddle(b: Byte, c: Byte)
    ensures Unsigned(Truncate(Unsigned(Truncate(b)) % 16 * 16 + Unsigned(Truncate(c)) / 4 % 16)) == Octet2(b, c)
  {
    ByteBack(b);
    ByteBack(c);
    ByteBack(Octet2(b, c));
  }

  lemma SignedLow(c: Byte, d: Byte)
    ensures Unsigned(Truncate(Unsigned(Truncate(c)) % 4 * 64 + Truncate(d))) == Octet3(c, d)
  {
    TruncateUnsigned(c);
    var k := c % 4 * 64;
    TruncateUnsigned(k + Truncate(d));
    if Truncate(d) != d {
      assert k + Truncate(d) == (k + d) - 256;
    }
  }

  /** Signed and unsigned arithmetic agree on the bytes they store. */
  lemma SignedAgrees(a: Byte, b: Byte, c: Byte, d: Byte)
    ensures UnsignedAll(SignedOctets(Truncate(a), Truncate(b), Truncate(c), Truncate(d))) == Octets(a, b, c, d)
  {
    SignedHigh(a, b);
    SignedMiddle(b, c);
    SignedLow(c, d);
  }

  /** Appends the first `n` of three decoded bytes. */
  method AppendSigned(charArray4: array<char>, n: nat, done: seq<SignedChar>) returns (ret: seq<SignedChar>)
    requires charArray4.Length == 4 && n <= 3
    ensures UnsignedAll(ret) == UnsignedAll(done) + Group(charArray4[..])[..n]
  {
    var a, b := Index(charArray4[0]), Index(charArray4[1]);
    var c, d := Index(charArray4[2]), Index(charArray4[3]);
    SignedAgrees(a, b, c, d);
    var o := SignedOctets(Truncate(a), Truncate(b), Truncate(c), Truncate(d));
    assert UnsignedAll(o[..n]) == UnsignedAll(o)[..n];
    ret := done + o[..n];
  }

  method DecodeGroupSigned(charArray4: array<char>, done: seq<SignedChar>, ghost p: string, ghost at: nat)
    returns (ret: seq<SignedChar>)
    requires charArray4.Length == 4 && at + 4 <= |p|
    requires Upto(p, at, UnsignedAll(done)) && forall k :: 0 <= k < 4 ==> charArray4[k] == p[at + k]
    ensures Upto(p, at + 4, UnsignedAll(ret))
  {
    ghost var g := charArray4[..];
    DecodeGroup(p, at, g, UnsignedAll(done));
    ret := AppendSigned(charArray4, 3, done);
    assert Group(g)[..3] == Group(g);
  }

  method DecodeRestSigned(charArray4: array<char>, i: nat, done: seq<SignedChar>, ghost p: string, ghost at: nat)
    returns (ret: seq<SignedChar>)
    requires charArray4.Length == 4 && 0 < i == |p| - at < 4
    requires Upto(p, at, UnsignedAll(done)) && forall k :: 0 <= k < i ==> charArray4[k] == p[at + k]
    modifies charArray4
    ensures UnsignedAll(ret) == DecodeGroups(p)
  {
    FillUp(charArray4, i);
    DecodeLast(p, at, charArray4[..], UnsignedAll(done));
    ret := AppendSigned(charArray4, i - 1, done);
  }

  method TakeSigned(charArray4: array<char>, i: nat, c: char, done: seq<SignedChar>, ghost p: string, ghost at: nat)
    returns (j: nat, ret: seq<SignedChar>, ghost to: nat)
    requires i < 4 && Holds(charArray4, i, p, at) && Upto(p, at, UnsignedAll(done))
    requires at + i < |p| && p[at + i] == c
    modifies charArray4
    ensures j < 4 && Holds(charArray4, j, p, to) && Upto(p, to, UnsignedAll(ret)) && to + j == at + i + 1
  {
    charArray4[i] := c;
    assert Holds(charArray4, i + 1, p, at);
    j, ret, to := i + 1, done, at;
    if j == 4 {
      ret := DecodeGroupSigned(charArray4, done, p, at);
      j, to := 0, at + 4;
    }
  }

  method FinishSigned(charArray4: array<char>, i: nat, done: seq<SignedChar>, ghost p: string, ghost at: nat)
    returns (ret: seq<SignedChar>)
    requires i < 4 && at + i == |p| && Holds(charArray4, i, p, at) && Upto(p, at, UnsignedAll(done))
    modifies charArray4
    ensures UnsignedAll(ret) == DecodeGroups(p)
  {
    ret := done;
    if i > 0 {
      ret := DecodeRestSigned(charArray4, i, done, p, at);
    } else {
      UptoEnds(p, UnsignedAll(done));
    }
  }

  method Base64DecodeToVector(s: string) returns (ret: seq<SignedChar>)
    ensures UnsignedAll(ret) == Decode(s)
  {
    ret := [];
    var i, pos := 0, 0;
    ghost var at := 0;
    var charArray4 := new char[4](_ => '\0');
    UptoEnds(Payload(s), []);
    while pos < |s| && s[pos] != '=' && IsBase64(s[pos])
      invariant i < 4 && pos <= |Payload(s)| && at + i == pos
      invariant Holds(charArray4, i, Payload(s), at) && Upto(Payload(s), at, UnsignedAll(ret))
    {
      PayloadNext(s, pos);
      i, ret, at := TakeSigned(charArray4, i, s[pos], ret, Payload(s), at);
      pos := pos + 1;
    }
    PayloadEnds(s, pos);
    ret := FinishSigned(charArray4, i, ret, Payload(s), at);
  }

  // ---------------------------------------------------------------- inversion

  lemma Split16(x: nat, y: nat)
    requires y < 16
    ensures (x * 16 + y) / 16 == x && (x * 16 + y) % 16 == y
  {
  }

  lemma Split4(z: nat, u: nat)
    requires u < 4
    ensures (z * 4 + u) / 4 == z && (z * 4 + u) % 4 == u
  {
  }

  lemma High(a: Byte, b: Byte)
    ensures Octet1(a / 4, a % 4 * 16 + b / 16) == a
  {
    Split16(a % 4, b / 16);
    assert a / 4 * 4 + a % 4 == a;
  }

  lemma Middle(a: Byte, b: Byte, c: Byte)
    ensures Octet2(a % 4 * 16 + b / 16, b % 16 * 4 + c / 64) == b
  {
    Split16(a % 4, b / 16);
    Split4(b % 16, c / 64);
    assert b / 16 * 16 + b % 16 == b;
  }

  lemma Low(b: Byte, c: Byte)
    ensures Octet3(b % 16 * 4 + c / 64, c % 64) == c
  {
    Split4(b % 16, c / 64);
    assert c / 64 * 64 + c % 64 == c;
  }

  lemma OctetsOfSextets(a: Byte, b: Byte, c: Byte)
    ensures var q := Sextets(a, b, c); Octets(q[0], q[1], q[2], q[3]) == [a, b, c]
  {
    High(a, b);
    Middle(a, b, c);
    Low(b, c);
    var q := Sextets(a, b, c);
    assert q[0] == a / 4 && q[1] == a % 4 * 16 + b / 16 && q[2] == b % 16 * 4 + c / 64 && q[3] == c % 64;
  }

  /** Characters that stand for four sextets decode to the bytes they came from. */
  lemma GroupOfLetters(a: Byte, b: Byte, c: Byte, urlSafe: bool)
    ensures Group(Letters(Sextets(a, b, c), 4, urlSafe)) == [a, b, c]
  {
    OctetsOfSextets(a, b, c);
  }

  /** A last group of `n` characters. */
  lemma RestDecodes(a: Byte, b: Byte, n: nat, urlSafe: bool, pad: string)
    requires 2 <= n <= 3 && |pad| > 0 && pad[0] == '='
    ensures DecodeGroups(Payload(Letters(Sextets(a, b, 0), n, urlSafe) + pad)) == [a, b, 0][..n - 1]
  {
    var q := Sextets(a, b, 0);
    var p, g := Letters(q, n, urlSafe), Letters(q, 4, urlSafe);
    GroupOfLetters(a, b, 0, urlSafe);
    PayloadOf(p, pad);
    assert Payload(pad) == "" && p + "" == p;
    PaddingUnseen(p, g);
  }

  lemma {:induction false} EncodedLength(bs: seq<Byte>, urlSafe: bool)
    ensures |Encode(bs, urlSafe)| == (|bs| + 2) / 3 * 4
    decreases |bs|
  {
    if |bs| > 2 {
      EncodedLength(bs[3..], urlSafe);
      assert |bs[3..]| + 2 + 3 == |bs| + 2;
    }
  }

  lemma {:induction false} RoundTripGroups(bs: seq<Byte>, urlSafe: bool)
    ensures DecodeGroups(Payload(Encode(bs, urlSafe))) == bs
    decreases |bs|
  {
    if |bs| == 1 {
      RestDecodes(bs[0], 0, 2, urlSafe, "==");
      assert [bs[0], 0, 0][..1] == bs;
    } else if |bs| == 2 {
      RestDecodes(bs[0], bs[1], 3, urlSafe, "=");
      assert [bs[0], bs[1], 0][..2] == bs;
    } else if |bs| > 2 {
      RoundTripGroups(bs[3..], urlSafe);
      GroupThenRest(bs[0], bs[1], bs[2], urlSafe, Encode(bs[3..], urlSafe));
      SplitThree(bs);
    }
  }

  lemma SplitThree<T>(s: seq<T>)
    requires |s| >= 3
    ensures [s[0], s[1], s[2]] + s[3..] == s
  {
  }

  lemma GroupThenRest(a: Byte, b: Byte, c: Byte, urlSafe: bool, rest: string)
    ensures DecodeGroups(Payload(Letters(Sextets(a, b, c), 4, urlSafe) + rest)) ==
      [a, b, c] + DecodeGroups(Payload(rest))
  {
    var g := Letters(Sextets(a, b, c), 4, urlSafe);
    GroupOfLetters(a, b, c, urlSafe);
    PayloadOf(g, rest);
    FirstGroup(g, Payload(rest));
  }

  lemma FirstGroup(g: string, t: string)
    requires |g| == 4
    ensures DecodeGroups(g + t) == Group(g) + DecodeGroups(t)
  {
    assert (g + t)[4..] == t;
  }

  lemma {:induction false} PayloadOf(p: string, rest: string)
    requires forall i :: 0 <= i < |p| ==> IsBase64(p[i])
    ensures Payload(p + rest) == p + Payload(rest)
    decreases |p|
  {
    if p == "" {
      assert p + rest == rest;
    } else {
      assert (p + rest)[1..] == p[1..] + rest;
      PayloadOf(p[1..], rest);
    }
  }

  /**
   Decoding gives back every byte string, with either alphabet, and the text has 4 characters for every
   3 bytes begun.
   */
  lemma RoundTrip(bs: seq<Byte>, urlSafe: bool)
    ensures Decode(Encode(bs, urlSafe)) == bs
    ensures |Encode(bs, urlSafe)| == (|bs| + 2) / 3 * 4
  {
    RoundTripGroups(bs, urlSafe);
    EncodedLength(bs, urlSafe);
  }

  // ---------------------------------------------------------------- letter by letter, bit by bit

  const ALPHABET := Text.CAPITALS + Text.SMALL + Text.DIGITS + "+/"
  const URL_ALPHABET := Text.CAPITALS + Text.SMALL + Text.DIGITS + "-_"

  function Alphabet(urlSafe: bool): string {
    if urlSafe then URL_ALPHABET else ALPHABET
  }

  predicate IsLetter(c: char, i: nat, urlSafe: bool)
    requires i < 64
  {
    CharSet(i, urlSafe) == c && Index(c) == i
  }

  lemma {:induction false} Capital(i: nat, urlSafe: bool)
    requires i < 26
    ensures IsLetter(Text.CAPITALS[i], i, urlSafe)
  {
    assert Text.CAPITALS[i] == ('A' as int + i) as char;
  }

  lemma {:induction false} Small(i: nat, urlSafe: bool)
    requires i < 26
    ensures IsLetter(Text.SMALL[i], 26 + i, urlSafe)
  {
    assert Text.SMALL[i] == ('a' as int + i) as char;
  }

  lemma {:induction false} Decimal(i: nat, urlSafe: bool)
    requires i < 10
    ensures IsLetter(Text.DIGITS[i], 52 + i, urlSafe)
  {
    assert Text.DIGITS[i] == ('0' as int + i) as char;
  }

  /** The tables are the two alphabets, and each letter of either is known by its place. */
  lemma {:induction false} AlphabetsAre(i: nat, urlSafe: bool)
    requires i < 64
    ensures |ALPHABET| == 64 && |URL_ALPHABET| == 64
    ensures CharSet(i, urlSafe) == Alphabet(urlSafe)[i] && Index(Alphabet(urlSafe)[i]) == i
  {
    if i < 26 {
      Capital(i, urlSafe);
    } else if i < 52 {
      Small(i - 26, urlSafe);
    } else if i < 62 {
      Decimal(i - 52, urlSafe);
    }
  }

  function ByteAt(bs: seq<Byte>, i: nat): Byte {
    if i < |bs| then bs[i] else 0
  }

  /** The number that the 24 bits of the g-th group of three bytes make, zeros behind the end. */
  function Bits24(bs: seq<Byte>, g: nat): int {
    (ByteAt(bs, 3 * g) * 256 + ByteAt(bs, 3 * g + 1)) * 256 + ByteAt(bs, 3 * g + 2)
  }

  /** The j-th six of 24 bits, from the highest. */
  function Six(v: int, j: nat): int
    requires j < 4
  {
    (if j == 0 then v / 262144 else if j == 1 then v / 4096 else if j == 2 then v / 64 else v) % 64
  }

  lemma {:induction false} SixesOf(p: nat, q: nat, r: nat, s: nat)
    requires p < 64 && q < 64 && r < 64 && s < 64
    ensures var v := ((p * 64 + q) * 64 + r) * 64 + s;
      Six(v, 0) == p && Six(v, 1) == q && Six(v, 2) == r && Six(v, 3) == s
  {
    var v := ((p * 64 + q) * 64 + r) * 64 + s;
    assert v / 64 == (p * 64 + q) * 64 + r;
    assert v / 4096 == p * 64 + q;
    assert v / 262144 == p;
  }

  lemma {:induction false} SixOf(a: Byte, b: Byte, c: Byte, j: nat)
    requires j < 4
    ensures Sextets(a, b, c)[j] == Six((a * 256 + b) * 256 + c, j)
  {
    SixesOf(a / 4, a % 4 * 16 + b / 16, b % 16 * 4 + c / 64, c % 64);
    assert ((a / 4 * 64 + (a % 4 * 16 + b / 16)) * 64 + (b % 16 * 4 + c / 64)) * 64 + c % 64 == (a * 256 + b) * 256 + c;
  }

  lemma Behind(bs: seq<Byte>, g: nat)
    requires |bs| >= 3 && g >= 1
    ensures Bits24(bs[3..], g - 1) == Bits24(bs, g)
  {
  }

  /** What stands at the k-th place of the first group. */
  function FirstLetter(bs: seq<Byte>, urlSafe: bool, k: nat): char
    requires k < 4
  {
    if 3 * k < 4 * |bs| then CharSet(Sextets(ByteAt(bs, 0), ByteAt(bs, 1), ByteAt(bs, 2))[k], urlSafe) else '='
  }

  lemma {:induction false} FirstOfOne(bs: seq<Byte>, urlSafe: bool, k: nat)
    requires |bs| == 1 && k < 4
    ensures |Encode(bs, urlSafe)| == 4 && Encode(bs, urlSafe)[k] == FirstLetter(bs, urlSafe, k)
  {
  }

  lemma {:induction false} FirstOfTwo(bs: seq<Byte>, urlSafe: bool, k: nat)
    requires |bs| == 2 && k < 4
    ensures |Encode(bs, urlSafe)| == 4 && Encode(bs, urlSafe)[k] == FirstLetter(bs, urlSafe, k)
  {
  }

  lemma {:induction false} FirstOfMore(bs: seq<Byte>, urlSafe: bool, k: nat)
    requires |bs| >= 3 && k < 4
    ensures |Encode(bs, urlSafe)| >= 4 && Encode(bs, urlSafe)[k] == FirstLetter(bs, urlSafe, k)
  {
  }

  lemma {:induction false} FirstGroupIs(bs: seq<Byte>, urlSafe: bool, k: nat)
    requires bs != [] && k < 4
    ensures k < |Encode(bs, urlSafe)| && Encode(bs, urlSafe)[k] == FirstLetter(bs, urlSafe, k)
  {
    if |bs| == 1 {
      FirstOfOne(bs, urlSafe, k);
    } else if |bs| == 2 {
      FirstOfTwo(bs, urlSafe, k);
    } else {
      FirstOfMore(bs, urlSafe, k);
    }
  }

  lemma {:induction false} FirstBits(bs: seq<Byte>)
    ensures Bits24(bs, 0) == (ByteAt(bs, 0) * 256 + ByteAt(bs, 1)) * 256 + ByteAt(bs, 2)
  {
  }

  lemma {:induction false} SixOfFirst(bs: seq<Byte>, k: nat)
    requires k < 4
    ensures Sextets(ByteAt(bs, 0), ByteAt(bs, 1), ByteAt(bs, 2))[k] == Six(Bits24(bs, 0), k)
  {
    FirstBits(bs);
    SixOf(ByteAt(bs, 0), ByteAt(bs, 1), ByteAt(bs, 2), k);
  }

  lemma {:induction false} FirstLetterIs(bs: seq<Byte>, urlSafe: bool, k: nat)
    requires k < 4
    ensures FirstLetter(bs, urlSafe, k) == LetterOf(bs, urlSafe, 0, k)
  {
    SixOfFirst(bs, k);
  }

  lemma {:induction false} LaterSixes(bs: seq<Byte>, urlSafe: bool, k: nat)
    requires 4 <= k < |Encode(bs, urlSafe)|
    ensures |bs| > 3 && k - 4 < |Encode(bs[3..], urlSafe)|
    ensures Encode(bs, urlSafe)[k] == Encode(bs[3..], urlSafe)[k - 4]
  {
    EncodedLength(bs, urlSafe);
  }

  /** What stands at the j-th place of the g-th group of four. */
  function LetterOf(bs: seq<Byte>, urlSafe: bool, g: nat, j: nat): char
    requires j < 4
  {
    if 3 * (4 * g + j) < 4 * |bs| then CharSet(Six(Bits24(bs, g), j), urlSafe) else '='
  }

  lemma LetterBehind(bs: seq<Byte>, urlSafe: bool, g: nat, j: nat)
    requires |bs| >= 3 && g >= 1 && j < 4
    ensures LetterOf(bs[3..], urlSafe, g - 1, j) == LetterOf(bs, urlSafe, g, j)
  {
    Behind(bs, g);
    assert 3 * (4 * (g - 1) + j) == 3 * (4 * g + j) - 12;
  }

  lemma {:induction false} LaterLetter(bs: seq<Byte>, urlSafe: bool, g: nat, j: nat)
    requires g >= 1 && j < 4 && 4 * g + j < |Encode(bs, urlSafe)|
    ensures |bs| > 3 && 4 * (g - 1) + j < |Encode(bs[3..], urlSafe)|
    ensures Encode(bs, urlSafe)[4 * g + j] == Encode(bs[3..], urlSafe)[4 * (g - 1) + j]
  {
    LaterSixes(bs, urlSafe, 4 * g + j);
  }

  predicate EncodedOk(bs: seq<Byte>, urlSafe: bool, g: nat, j: nat)
    requires j < 4
  {
    4 * g + j < |Encode(bs, urlSafe)| ==> Encode(bs, urlSafe)[4 * g + j] == LetterOf(bs, urlSafe, g, j)
  }

  lemma {:induction false} FirstEncoded(bs: seq<Byte>, urlSafe: bool, j: nat)
    requires j < 4
    ensures EncodedOk(bs, urlSafe, 0, j)
  {
    if bs != [] {
      FirstGroupIs(bs, urlSafe, j);
      FirstLetterIs(bs, urlSafe, j);
    }
  }

  lemma {:induction false} LaterEncoded(bs: seq<Byte>, urlSafe: bool, g: nat, j: nat)
    requires j < 4 && g >= 1 && (|bs| < 3 || EncodedOk(bs[3..], urlSafe, g - 1, j))
    ensures EncodedOk(bs, urlSafe, g, j)
  {
    if |bs| <= 3 {
      LastGroup(bs, urlSafe, g, j);
    } else {
      NextEncoded(bs, urlSafe, g, j);
    }
  }

  lemma {:induction false} NextEncoded(bs: seq<Byte>, urlSafe: bool, g: nat, j: nat)
    requires j < 4 && g >= 1 && |bs| > 3 && EncodedOk(bs[3..], urlSafe, g - 1, j)
    ensures EncodedOk(bs, urlSafe, g, j)
  {
    if 4 * g + j < |Encode(bs, urlSafe)| {
      LaterLetter(bs, urlSafe, g, j);
      LetterBehind(bs, urlSafe, g, j);
    }
  }

  lemma {:induction false} LastGroup(bs: seq<Byte>, urlSafe: bool, g: nat, j: nat)
    requires j < 4 && g >= 1 && |bs| <= 3
    ensures EncodedOk(bs, urlSafe, g, j)
  {
    EncodedLength(bs, urlSafe);
  }

  /** What holds of the rest behind the first group, if there is one, holds one group later. */
  ghost predicate Carries<T(!new)>(size: nat, holds: (seq<T>, nat) -> bool, t: seq<T>, n: nat) {
    (|t| < size || holds(t[size..], n)) ==> holds(t, n + 1)
  }

  ghost predicate GroupWise<T(!new)>(size: nat, holds: (seq<T>, nat) -> bool) {
    && (forall t: seq<T> :: holds(t, 0))
    && (forall t: seq<T>, n: nat :: Carries(size, holds, t, n))
  }

  /** Group by group: what holds of the first group, and of a later one if of the rest, holds of all. */
  lemma {:induction false} ByGroups<T(!new)>(size: nat, holds: (seq<T>, nat) -> bool, s: seq<T>, g: nat)
    requires GroupWise(size, holds)
    ensures holds(s, g)
    decreases g
  {
    if g > 0 {
      assert Carries(size, holds, s, g - 1);
      if |s| >= size {
        ByGroups(size, holds, s[size..], g - 1);
      }
    }
  }

  lemma {:induction false} EncodedIn(bs: seq<Byte>, urlSafe: bool, g: nat, j: nat)
    requires j < 4
    ensures EncodedOk(bs, urlSafe, g, j)
  {
    var holds := (t: seq<Byte>, n: nat) => EncodedOk(t, urlSafe, n, j);
    forall t: seq<Byte> ensures holds(t, 0) {
      FirstEncoded(t, urlSafe, j);
    }
    forall t: seq<Byte>, n: nat ensures Carries(3, holds, t, n) {
      if |t| < 3 || holds(t[3..], n) {
        LaterEncoded(t, urlSafe, n + 1, j);
      }
    }
    ByGroups(3, holds, bs, g);
  }

  /** Every character of the text is the letter of the six bits that it stands for, or fills up the last group. */
  lemma {:induction false} EncodedAt(bs: seq<Byte>, urlSafe: bool, k: nat)
    requires k < |Encode(bs, urlSafe)|
    ensures |Alphabet(urlSafe)| == 64
    ensures Encode(bs, urlSafe)[k] ==
      if 3 * k < 4 * |bs| then Alphabet(urlSafe)[Six(Bits24(bs, k / 4), k % 4)] else '='
  {
    EncodedIn(bs, urlSafe, k / 4, k % 4);
    AlphabetsAre(Six(Bits24(bs, k / 4), k % 4), urlSafe);
  }

  /** Six bits of the letter at i, and zeros behind the end. */
  function SixAt(p: string, i: nat): int {
    if i < |p| && Index(p[i]) < 64 then Index(p[i]) else 0
  }

  function Sixes24(p: string, g: nat): int {
    ((SixAt(p, 4 * g) * 64 + SixAt(p, 4 * g + 1)) * 64 + SixAt(p, 4 * g + 2)) * 64 + SixAt(p, 4 * g + 3)
  }

  /** The j-th eight of 24 bits, from the highest. */
  function Eight(v: int, j: nat): int
    requires j < 3
  {
    (if j == 0 then v / 65536 else if j == 1 then v / 256 else v) % 256
  }

  lemma {:induction false} EightsOf(p: Byte, q: Byte, r: Byte)
    ensures var v := (p * 256 + q) * 256 + r; Eight(v, 0) == p && Eight(v, 1) == q && Eight(v, 2) == r
  {
    var v := (p * 256 + q) * 256 + r;
    assert v / 256 == p * 256 + q;
    assert v / 65536 == p;
  }

  lemma {:induction false} OctetsAre(a: Byte, b: Byte, c: Byte, d: Byte)
    requires a < 64 && b < 64 && c < 64 && d < 64
    ensures Octets(a, b, c, d) == [a * 4 + b / 16, b % 16 * 16 + c / 4, c % 4 * 64 + d]
  {
  }

  lemma {:induction false} SameBits(a: Byte, b: Byte, c: Byte, d: Byte)
    ensures ((a * 4 + b / 16) * 256 + (b % 16 * 16 + c / 4)) * 256 + (c % 4 * 64 + d) ==
      ((a * 64 + b) * 64 + c) * 64 + d
  {
    assert b == b / 16 * 16 + b % 16 && c == c / 4 * 4 + c % 4;
  }

  /** The number that three bytes make. */
  function Number24(p: int, q: int, r: int): int {
    (p * 256 + q) * 256 + r
  }

  lemma {:induction false} EightsAt(o: seq<Byte>, v: int, j: nat)
    requires |o| == 3 && j < 3 && v == Number24(o[0], o[1], o[2])
    ensures o[j] == Eight(v, j)
  {
    EightsOf(o[0], o[1], o[2]);
  }

  lemma {:induction false} OctetsMake(a: Byte, b: Byte, c: Byte, d: Byte)
    requires a < 64 && b < 64 && c < 64 && d < 64
    ensures var o := Octets(a, b, c, d); Number24(o[0], o[1], o[2]) == ((a * 64 + b) * 64 + c) * 64 + d
  {
    OctetsAre(a, b, c, d);
    SameBits(a, b, c, d);
  }

  lemma {:induction false} EightOf(a: Byte, b: Byte, c: Byte, d: Byte, j: nat)
    requires a < 64 && b < 64 && c < 64 && d < 64 && j < 3
    ensures Octets(a, b, c, d)[j] == Eight(((a * 64 + b) * 64 + c) * 64 + d, j)
  {
    OctetsMake(a, b, c, d);
    EightsAt(Octets(a, b, c, d), ((a * 64 + b) * 64 + c) * 64 + d, j);
  }

  lemma SixesBehind(p: string, g: nat)
    requires |p| >= 4 && g >= 1
    ensures Sixes24(p[4..], g - 1) == Sixes24(p, g)
  {
  }

  predicate AllLetters(p: string) {
    forall i :: 0 <= i < |p| ==> IsBase64(p[i])
  }

  lemma {:induction false} FirstEights(p: string, k: nat)
    requires AllLetters(p) && k < 3 && 4 * k + 4 < 3 * |p| + 1
    ensures k < |DecodeGroups(p)| && DecodeGroups(p)[k] == Eight(Sixes24(p, 0), k)
  {
    EightOf(SixAt(p, 0), SixAt(p, 1), SixAt(p, 2), SixAt(p, 3), k);
  }

  lemma {:induction false} LaterEights(p: string, k: nat)
    requires 3 <= k < |DecodeGroups(p)|
    ensures |p| >= 4 && |DecodeGroups(p)| == 3 + |DecodeGroups(p[4..])|
    ensures DecodeGroups(p)[k] == DecodeGroups(p[4..])[k - 3]
  {
  }

  lemma {:induction false} DecodedLength(p: string)
    ensures |DecodeGroups(p)| == 3 * |p| / 4
    decreases |p|
  {
    if |p| >= 4 {
      DecodedLength(p[4..]);
    }
  }

  lemma {:induction false} LaterByte(p: string, g: nat, j: nat)
    requires g >= 1 && j < 3 && 3 * g + j < |DecodeGroups(p)|
    ensures |p| >= 4 && 3 * (g - 1) + j < |DecodeGroups(p[4..])|
    ensures DecodeGroups(p)[3 * g + j] == DecodeGroups(p[4..])[3 * (g - 1) + j]
  {
    LaterEights(p, 3 * g + j);
  }

  predicate DecodedOk(p: string, g: nat, j: nat)
    requires j < 3
  {
    3 * g + j < |DecodeGroups(p)| ==> DecodeGroups(p)[3 * g + j] == Eight(Sixes24(p, g), j)
  }

  lemma {:induction false} FirstDecoded(p: string, j: nat)
    requires AllLetters(p) && j < 3
    ensures DecodedOk(p, 0, j)
  {
    if j < |DecodeGroups(p)| {
      DecodedLength(p);
      FirstEights(p, j);
    }
  }

  lemma {:induction false} NextDecoded(p: string, g: nat, j: nat)
    requires j < 3 && g >= 1 && |p| >= 4 && DecodedOk(p[4..], g - 1, j)
    ensures DecodedOk(p, g, j)
  {
    if 3 * g + j < |DecodeGroups(p)| {
      LaterByte(p, g, j);
      SixesBehind(p, g);
    }
  }

  lemma {:induction false} LastDecoded(p: string, g: nat, j: nat)
    requires j < 3 && g >= 1 && |p| < 4
    ensures DecodedOk(p, g, j)
  {
    DecodedLength(p);
  }

  predicate DecodedFrom(p: string, g: nat, j: nat)
    requires j < 3
  {
    AllLetters(p) ==> DecodedOk(p, g, j)
  }

  lemma {:induction false} LaterDecoded(p: string, g: nat, j: nat)
    requires j < 3 && g >= 1 && (|p| < 4 || DecodedFrom(p[4..], g - 1, j))
    ensures DecodedFrom(p, g, j)
  {
    if |p| < 4 {
      LastDecoded(p, g, j);
    } else if AllLetters(p) {
      assert AllLetters(p[4..]);
      NextDecoded(p, g, j);
    }
  }

  lemma {:induction false} DecodedIn(p: string, g: nat, j: nat)
    requires AllLetters(p) && j < 3
    ensures DecodedOk(p, g, j)
  {
    var holds := (t: string, n: nat) => DecodedFrom(t, n, j);
    forall t: string ensures holds(t, 0) {
      if AllLetters(t) {
        FirstDecoded(t, j);
      }
    }
    forall t: string, n: nat ensures Carries(4, holds, t, n) {
      if |t| < 4 || holds(t[4..], n) {
        LaterDecoded(t, n + 1, j);
      }
    }
    ByGroups(4, holds, p, g);
  }

  /**
   Any text decodes to whole bytes of the bits of its letters up to the first character of neither alphabet;
   letters of both may be mixed.
   */
  lemma {:induction false} DecodedAt(s: string, k: nat)
    ensures |Decode(s)| == 3 * |Payload(s)| / 4
    ensures k < |Decode(s)| ==> Decode(s)[k] == Eight(Sixes24(Payload(s), k / 3), k % 3)
  {
    DecodedLength(Payload(s));
    if k < |Decode(s)| {
      DecodedIn(Payload(s), k / 3, k % 3);
    }
  }
}
