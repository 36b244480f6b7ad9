/** Form parameters: what appendToBuffer joins and parseParameters splits, in HttpRequestImpl. */
module FormParameters {
  import opened Text
  import Url = UrlCodec

  type Parameters = map<string, string>

  // ---------------------------------------------------------------- reading

  function SkipLead(s: string): (r: string)
    ensures |r| <= |s|
  {
    if s != "" && (s[0] == '?' || IsSpace(s[0])) then SkipLead(s[1..]) else s
  }

  /** One `key=value` piece; pieces without `=` are dropped. */
  function AddPair(piece: string, m: Parameters): Parameters {
    var e := Find(piece, '=');
    if e == |piece| then m
    else m[Url.Decode(TrimLeft(piece[..e])) := Url.Decode(piece[e + 1..])]
  }

  function ParsePairs(value: string, m: Parameters): Parameters
    decreases |value|
  {
    var p := Find(value, '&');
    if p < |value| then ParsePairs(value[p + 1..], AddPair(value[..p], m))
    else if |value| > 0 then AddPair(value, m)
    else m
  }

  function ParseInput(input: string, m: Parameters): Parameters {
    if input == "" then m else ParsePairs(SkipLead(input), m)
  }

  /** The query is read first, then the body if it is a form; later pairs replace earlier ones. */
  function AllParameters(query: string, content: string, isForm: bool): Parameters {
    var m := ParseInput(query, map[]);
    if isForm then ParseInput(content, m) else m
  }

  method ParsePiece(piece: string, m: Parameters) returns (r: Parameters)
    ensures r == AddPair(piece, m)
  {
    r := m;
    var epos := Find(piece, '=');
    if epos != |piece| {
      var key := piece[..epos];
      var cpos := 0;
      while cpos < |key| && IsSpace(key[cpos])
        invariant 0 <= cpos <= |key|
        invariant TrimLeft(key[cpos..]) == TrimLeft(key)
      {
        assert key[cpos..][1..] == key[cpos + 1..];
        cpos := cpos + 1;
      }
      key := key[cpos..];
      var pdecode := Url.UrlDecode(piece[epos + 1..]);
      var keydecode := Url.UrlDecode(key);
      r := r[keydecode := pdecode];
    }
  }

  method ParseParameters(input: string, m: Parameters) returns (r: Parameters)
    ensures r == ParseInput(input, m)
  {
    r := m;
    if input == "" {
      return;
    }
    var pos := 0;
    while pos < |input| && (input[pos] == '?' || IsSpace(input[pos]))
      invariant 0 <= pos <= |input|
      invariant SkipLead(input[pos..]) == SkipLead(input)
    {
      assert input[pos..][1..] == input[pos + 1..];
      pos := pos + 1;
    }
    var value := input[pos..];
    pos := Find(value, '&');
    while pos < |value|
      invariant pos == Find(value, '&')
      invariant ParsePairs(value, r) == ParseInput(input, m)
      decreases |value|
    {
      r := ParsePiece(value[..pos], r);
      value := value[pos + 1..];
      pos := Find(value, '&');
    }
    if |value| > 0 {
      r := ParsePiece(value, r);
    }
  }

  // ---------------------------------------------------------------- writing

  function Pair(k: string, v: string): string {
    Url.EncodeComponent(k) + "=" + Url.EncodeComponent(v)
  }

  /** The entries of `m` in the order of `keys`, which is the iteration order of the hash map. */
  function Join(keys: seq<string>, m: Parameters): string
    requires forall k :: k in keys ==> k in m
  {
    if keys == [] then ""
    else Pair(keys[0], m[keys[0]]) + (if |keys| == 1 then "" else "&" + Join(keys[1..], m))
  }

  lemma Regroup(p: string, j: string, q: string)
    ensures p + ("&" + (j + ("&" + q))) == (p + ("&" + j)) + ("&" + q)
  {
  }

  function Separated(first: bool, q: string): string {
    if first then q else "&" + q
  }

  lemma {:induction false} JoinSnoc(keys: seq<string>, k: string, m: Parameters)
    requires k in m && forall k :: k in keys ==> k in m
    ensures Join(keys + [k], m) == Join(keys, m) + Separated(keys == [], Pair(k, m[k]))
    decreases |keys|
  {
    var q := Pair(k, m[k]);
    if keys == [] {
      assert [] + [k] == [k] && Join([k], m) == q + "";
    } else {
      var rest, p := keys[1..], Pair(keys[0], m[keys[0]]);
      assert (keys + [k])[1..] == rest + [k];
      assert Join(keys + [k], m) == p + ("&" + Join(rest + [k], m));
      if rest == [] {
        assert rest + [k] == [k] && Join([k], m) == q + "" == q && Join(keys, m) == p + "" == p;
      } else {
        JoinSnoc(rest, k, m);
        Regroup(p, Join(rest, m), q);
      }
    }
  }

  lemma Glue(j: string, first: bool, q: string)
    ensures (j + Separated(first, "")) + q == j + Separated(first, q)
  {
  }

  method AppendPair(content: string, k: string, v: string) returns (r: string)
    ensures r == content + Pair(k, v)
  {
    var key := Url.UrlEncodeComponent(k);
    var value := Url.UrlEncodeComponent(v);
    r := content + key;
    r := r + "=";
    r := r + value;
    assert r == content + (key + "=" + value);
  }

  lemma JoinTake(keys: seq<string>, i: nat, m: Parameters, content: string)
    requires i < |keys| && forall k :: k in keys ==> k in m
    requires content == Join(keys[..i], m) + Separated(i == 0, "")
    ensures content + Pair(keys[i], m[keys[i]]) == Join(keys[..i + 1], m)
  {
    assert keys[..i + 1] == keys[..i] + [keys[i]];
    JoinSnoc(keys[..i], keys[i], m);
    Glue(Join(keys[..i], m), i == 0, Pair(keys[i], m[keys[i]]));
  }

  method WriteParameters(keys: seq<string>, m: Parameters) returns (content: string)
    requires keys != [] && forall k :: k in keys ==> k in m
    ensures content == Join(keys, m)
  {
    content := "";
    var i := 0;
    while i < |keys|
      invariant 0 <= i <= |keys|
      invariant content == Join(keys[..i], m) + Separated(i == 0, "")
    {
      JoinTake(keys, i, m, content);
      content := AppendPair(content, keys[i], m[keys[i]]);
      content := content + "&";
      i := i + 1;
    }
    assert keys[..i] == keys;
    content := content[..|content| - 1];
  }

  // ---------------------------------------------------------------- inversion

  lemma ComponentLacks(s: string, c: char)
    requires !Url.ComponentKeeps(c) && c !in {'+', '%'}
    ensures c !in Url.EncodeComponent(s)
  {
    Url.ComponentIsPlain(s);
  }

  lemma ComponentTrimmed(s: string)
    ensures TrimLeft(Url.EncodeComponent(s)) == Url.EncodeComponent(s)
  {
    Url.ComponentIsPlain(s);
  }

  /** A written pair is read back. */
  lemma PairReads(k: string, v: string, m: Parameters)
    requires Url.IsBytes(k) && Url.IsBytes(v)
    ensures AddPair(Pair(k, v), m) == m[k := v]
  {
    var ek, ev, p := Url.EncodeComponent(k), Url.EncodeComponent(v), Pair(k, v);
    ComponentLacks(k, '=');
    assert p[|ek|] == '=' && p[..|ek|] == ek && p[|ek| + 1..] == ev;
    FindIs(p, '=', |ek|);
    ComponentTrimmed(k);
    Url.ComponentRoundTrip(k);
    Url.ComponentRoundTrip(v);
  }

  lemma PairLacksAmpersand(k: string, v: string)
    ensures '&' !in Pair(k, v) && |Pair(k, v)| > 0
    ensures Pair(k, v)[0] != '?' && !IsSpace(Pair(k, v)[0])
  {
    ComponentLacks(k, '&');
    ComponentLacks(v, '&');
    Url.ComponentIsPlain(k);
  }

  /** What reading the joined entries adds to `acc`. */
  function Load(keys: seq<string>, m: Parameters, acc: Parameters): Parameters
    requires forall k :: k in keys ==> k in m
    decreases |keys|
  {
    if keys == [] then acc else Load(keys[1..], m, acc[keys[0] := m[keys[0]]])
  }

  /** A piece ends at the separator put behind it. */
  lemma PieceEnds(p: string, t: string)
    requires '&' !in p
    ensures var s := p + ("&" + t); Find(s, '&') == |p| && |p| < |s| && s[..|p|] == p && s[|p| + 1..] == t
    ensures Find(p, '&') == |p|
  {
    FindIs(p + ("&" + t), '&', |p|);
    FindIs(p, '&', |p|);
  }

  lemma {:induction false} JoinReads(keys: seq<string>, m: Parameters, acc: Parameters)
    requires keys != [] && forall k :: k in keys ==> k in m && Url.IsBytes(k) && Url.IsBytes(m[k])
    ensures ParsePairs(Join(keys, m), acc) == Load(keys, m, acc)
    decreases |keys|
  {
    var k, rest := keys[0], keys[1..];
    PairLacksAmpersand(k, m[k]);
    PairReads(k, m[k], acc);
    if |keys| == 1 {
      LastPiece(Pair(k, m[k]), acc);
      assert Join(keys, m) == Pair(k, m[k]) + "" == Pair(k, m[k]);
    } else {
      JoinReads(rest, m, acc[k := m[k]]);
      FirstPiece(Pair(k, m[k]), Join(rest, m), acc);
    }
  }

  lemma {:induction false} FirstPiece(p: string, t: string, acc: Parameters)
    requires '&' !in p
    ensures ParsePairs(p + ("&" + t), acc) == ParsePairs(t, AddPair(p, acc))
  {
    PieceEnds(p, t);
  }

  lemma {:induction false} LastPiece(p: string, acc: Parameters)
    requires '&' !in p && p != ""
    ensures ParsePairs(p, acc) == AddPair(p, acc)
  {
    PieceEnds(p, "");
  }

  lemma {:induction false} LoadAll(keys: seq<string>, m: Parameters, acc: Parameters)
    requires forall k :: k in keys ==> k in m
    ensures Load(keys, m, acc).Keys == acc.Keys + (set k | k in keys)
    ensures forall k :: k in Load(keys, m, acc) ==> Load(keys, m, acc)[k] == if k in keys then m[k] else acc[k]
    decreases |keys|
  {
    if keys != [] {
      var acc1 := acc[keys[0] := m[keys[0]]];
      LoadAll(keys[1..], m, acc1);
      assert (set k | k in keys) == {keys[0]} + (set k | k in keys[1..]);
    }
  }

  /** A joined form starts with a letter of its first key, or with the equals sign. */
  lemma NothingSkipped(keys: seq<string>, m: Parameters)
    requires keys != [] && keys[0] in m && forall k :: k in keys ==> k in m
    requires Url.IsBytes(keys[0]) && Url.IsBytes(m[keys[0]])
    ensures Join(keys, m) != "" && SkipLead(Join(keys, m)) == Join(keys, m)
  {
    PairLacksAmpersand(keys[0], m[keys[0]]);
    assert Join(keys, m)[0] == Pair(keys[0], m[keys[0]])[0];
  }

  lemma {:induction false} LoadedAgain(keys: seq<string>, m: Parameters)
    requires forall k :: k in keys <==> k in m
    ensures Load(keys, m, map[]) == m
  {
    LoadAll(keys, m, map[]);
    assert forall k :: k in (set x | x in keys) <==> k in keys;
  }

  /** For every map and every order of its keys, what was joined is read back as the same map. */
  lemma {:induction false} FormRoundTrip(keys: seq<string>, m: Parameters)
    requires (set k | k in keys) == m.Keys
    requires forall k :: k in m ==> Url.IsBytes(k) && Url.IsBytes(m[k])
    ensures ParseInput(Join(keys, m), map[]) == m
  {
    assert forall k :: k in keys <==> k in (set k | k in keys);
    LoadedAgain(keys, m);
    if keys != [] {
      NothingSkipped(keys, m);
      JoinReads(keys, m, map[]);
    }
  }

  /** A form sent in the query, or in the body after an empty query, gives the same parameters. */
  lemma FormArrives(keys: seq<string>, m: Parameters)
    requires (set k | k in keys) == m.Keys
    requires forall k :: k in m ==> Url.IsBytes(k) && Url.IsBytes(m[k])
    ensures AllParameters(Join(keys, m), "", true) == m
    ensures AllParameters("", Join(keys, m), true) == m
  {
    FormRoundTrip(keys, m);
  }

  // ---------------------------------------------------------------- what any input means

  /** Between two ampersands: blanks, a key, an equals sign and a value, or something without an equals sign. */
  datatype Piece = Named(blanks: string, key: string, value: string) | Stray(text: string)

  predicate GoodPiece(p: Piece) {
    match p
    case Named(blanks, key, value) =>
      && (forall i :: 0 <= i < |blanks| ==> IsSpace(blanks[i]))
      && (key == "" || !IsSpace(key[0]))
      && '=' !in key && '&' !in key && '&' !in value
    case Stray(text) => '=' !in text && '&' !in text
  }

  function PieceText(p: Piece): string {
    match p
    case Named(blanks, key, value) => blanks + key + "=" + value
    case Stray(text) => text
  }

  function Meaning(p: Piece, m: Parameters): Parameters {
    match p
    case Named(_, key, value) => m[Url.Decode(key) := Url.Decode(value)]
    case Stray(_) => m
  }

  function PiecesText(ps: seq<Piece>): string {
    if ps == [] then "" else if |ps| == 1 then PieceText(ps[0]) else PieceText(ps[0]) + "&" + PiecesText(ps[1..])
  }

  function Meanings(ps: seq<Piece>, m: Parameters): Parameters
    decreases |ps|
  {
    if ps == [] then m else Meanings(ps[1..], Meaning(ps[0], m))
  }

  predicate GoodPieces(ps: seq<Piece>) {
    forall i :: 0 <= i < |ps| ==> GoodPiece(ps[i])
  }

  lemma {:induction false} PieceRead(p: Piece, m: Parameters)
    requires GoodPiece(p)
    ensures AddPair(PieceText(p), m) == Meaning(p, m)
    ensures '&' !in PieceText(p)
  {
    var text := PieceText(p);
    match p
    case Named(blanks, key, value) =>
      forall i | 0 <= i < |blanks| ensures blanks[i] != '=' && blanks[i] != '&' {
        assert IsSpace(blanks[i]);
      }
      FindIs(text, '=', |blanks + key|);
      assert text[..|blanks + key|] == blanks + key && text[|blanks + key| + 1..] == value;
      BlanksTrimmed(blanks, key);
    case Stray(_) =>
      FindIs(text, '=', |text|);
  }

  /** Keys and values are decoded, blanks in front of a key and pieces without `=` dropped, later pairs win. */
  lemma {:induction false} PiecesRead(ps: seq<Piece>, m: Parameters)
    requires GoodPieces(ps)
    ensures ParsePairs(PiecesText(ps), m) == Meanings(ps, m)
    decreases |ps|
  {
    if ps != [] {
      var text, first := PiecesText(ps), PieceText(ps[0]);
      PieceRead(ps[0], m);
      FindIs(text, '&', |first|);
      if |ps| == 1 {
        assert first != "" || AddPair("", m) == m;
      } else {
        assert text[..|first|] == first && text[|first| + 1..] == PiecesText(ps[1..]);
        PiecesRead(ps[1..], Meaning(ps[0], m));
      }
    }
  }

  predicate Skipped(s: string) {
    forall i :: 0 <= i < |s| ==> s[i] == '?' || IsSpace(s[i])
  }

  lemma {:induction false} LeadSkipped(lead: string, text: string)
    requires Skipped(lead) && (text == "" || !(text[0] == '?' || IsSpace(text[0])))
    ensures SkipLead(lead + text) == text
    decreases |lead|
  {
    if lead == "" {
      assert lead + text == text;
    } else {
      assert (lead + text)[1..] == lead[1..] + text;
      LeadSkipped(lead[1..], text);
    }
  }

  /** A whole input, with the question marks and blanks in front of it. */
  lemma {:induction false} InputMeans(lead: string, ps: seq<Piece>, m: Parameters)
    requires Skipped(lead) && GoodPieces(ps)
    requires var text := PiecesText(ps); text == "" || !(text[0] == '?' || IsSpace(text[0]))
    ensures ParseInput(lead + PiecesText(ps), m) == Meanings(ps, m)
  {
    LeadSkipped(lead, PiecesText(ps));
    PiecesRead(ps, m);
    if lead + PiecesText(ps) == "" {
      assert lead == "" && PiecesText(ps) == "";
    }
  }
}
