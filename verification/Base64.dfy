/** `base64_encode`, with the decoder of section 4 of RFC 4648 as its reference. */
module Base64 {
  import opened CText

  const UPPER := "ABCDEFGHIJKLMNOPQRSTUVWXYZ"
  const LOWER := "abcdefghijklmnopqrstuvwxyz"
  const REST := "0123456789+/"

  function Letter(k: nat): char
    requires k < 64
  {
    if k < 26 then UPPER[k] else if k < 52 then LOWER[k - 26] else REST[k - 52]
  }

  function Symbol(v: Byte): char
    requires v < 64
  {
    Letter(v as int)
  }

  /** The alphabet of table 1 of RFC 4648, by ranges of characters; 64 for any other. */
  function Index(c: char): (k: nat)
    ensures k <= 64
  {
    if 'A' <= c <= 'Z' then c as int - 'A' as int
    else if 'a' <= c <= 'z' then c as int - 'a' as int + 26
    else if '0' <= c <= '9' then c as int - '0' as int + 52
    else if c == '+' then 62
    else if c == '/' then 63
    else 64
  }

  function ToByte(k: nat): (r: Byte)
    requires k < 64
    ensures r as int == k && r < 64
  {
    if k == 0 then 0 else
      var r := ToByte(k - 1);
      Successor(r);
      r + 1
  }

  lemma Successor(r: Byte)
    requires r < 63
    ensures (r + 1) as int == r as int + 1
  {
  }

  function Value(c: char): Maybe<Byte> {
    if Index(c) < 64 then Some(ToByte(Index(c))) else None
  }

  lemma UpperAt(k: nat)
    requires k < 26
    ensures UPPER[k] as int == 'A' as int + k
  {
  }

  lemma LowerAt(k: nat)
    requires k < 26
    ensures LOWER[k] as int == 'a' as int + k
  {
  }

  lemma RestAt(k: nat)
    requires k < 12
    ensures k < 10 ==> REST[k] as int == '0' as int + k
    ensures k == 10 ==> REST[k] == '+'
    ensures k == 11 ==> REST[k] == '/'
  {
  }

  lemma IndexLetter(k: nat)
    requires k < 64
    ensures Index(Letter(k)) == k
  {
    if k < 26 { UpperAt(k); } else if k < 52 { LowerAt(k - 26); } else { RestAt(k - 52); }
  }

  lemma LetterIndex(c: char)
    requires Index(c) < 64
    ensures Letter(Index(c)) == c
  {
    var k := Index(c);
    if k < 26 { UpperAt(k); } else if k < 52 { LowerAt(k - 26); } else { RestAt(k - 52); }
  }

  lemma ByteBack(v: Byte)
    requires v < 64
    ensures v as int < 64 && (v as int) as Byte == v
  {
  }

  lemma SymbolValue(v: Byte)
    requires v < 64
    ensures Value(Symbol(v)) == Some(v) && Symbol(v) != '='
  {
    ByteBack(v);
    IndexLetter(v as int);
    ByteBack(ToByte(v as int));
  }

  lemma ValueSymbol(c: char)
    requires Value(c).Some?
    ensures Value(c).value < 64 && Symbol(Value(c).value) == c
  {
    LetterIndex(c);
  }

  // ---- six bits at a time --------------------------------------------------

  function First(a: Byte): Byte { (a >> 2) & 0x3f }
  function Second(a: Byte, b: Byte): Byte { ((a & 0x03) << 4) | ((b >> 4) & 0x0f) }
  function Third(b: Byte, c: Byte): Byte { ((b & 0x0f) << 2) | ((c >> 6) & 0x03) }
  function Fourth(c: Byte): Byte { c & 0x3f }

  lemma SixBits(a: Byte, b: Byte, c: Byte)
    ensures First(a) < 64 && Second(a, b) < 64 && Third(b, c) < 64 && Fourth(c) < 64
  {
  }

  function Join1(v: Byte, w: Byte): Byte { (v << 2) | (w >> 4) }
  function Join2(w: Byte, x: Byte): Byte { (w << 4) | (x >> 2) }
  function Join3(x: Byte, y: Byte): Byte { (x << 6) | y }

  lemma JoinSplit(a: Byte, b: Byte, c: Byte)
    ensures Join1(First(a), Second(a, b)) == a
    ensures Join2(Second(a, b), Third(b, c)) == b
    ensures Join3(Third(b, c), Fourth(c)) == c
  {
  }

  lemma SplitJoin(v: Byte, w: Byte, x: Byte, y: Byte)
    requires v < 64 && w < 64 && x < 64 && y < 64
    ensures First(Join1(v, w)) == v
    ensures Second(Join1(v, w), Join2(w, x)) == w
    ensures Third(Join2(w, x), Join3(x, y)) == x
    ensures Fourth(Join3(x, y)) == y
  {
  }

  // ---- texts ---------------------------------------------------------------

  function Sym(v: Byte): char {
    if v < 64 then Symbol(v) else '='
  }

  /** The four characters that stand for one, two or three bytes. */
  function Group(g: seq<Byte>): string
    requires 1 <= |g| <= 3
  {
    if |g| == 1 then [Sym(First(g[0])), Sym(Second(g[0], 0)), '=', '=']
    else if |g| == 2 then [Sym(First(g[0])), Sym(Second(g[0], g[1])), Sym(Third(g[1], 0)), '=']
    else [Sym(First(g[0])), Sym(Second(g[0], g[1])), Sym(Third(g[1], g[2])), Sym(Fourth(g[2]))]
  }

  /** The bytes that go into the group at `i`. */
  function Taken(d: seq<Byte>, i: nat): (r: seq<Byte>)
    requires i < |d|
    ensures 1 <= |r| <= 3
  {
    if i + 1 == |d| then [d[i]] else if i + 2 == |d| then [d[i], d[i + 1]] else [d[i], d[i + 1], d[i + 2]]
  }

  /** The text of the bytes from `i` on. */
  function Encoded(d: seq<Byte>, i: nat := 0): string
    decreases |d| - i
  {
    if i >= |d| then "" else Group(Taken(d, i)) + Encoded(d, i + 3)
  }

  /** The bytes of four characters; padding only in the last four, unused bits zero. */
  function Quad(p: char, q: char, r: char, s: char, last: bool): Maybe<seq<Byte>> {
    var v :- Value(p);
    var w :- Value(q);
    if r == '=' then
      if last && s == '=' && w & 0x0f == 0 then Some([Join1(v, w)]) else None
    else
      var x :- Value(r);
      if s == '=' then
        if last && x & 0x03 == 0 then Some([Join1(v, w), Join2(w, x)]) else None
      else
        var y :- Value(s);
        Some([Join1(v, w), Join2(w, x), Join3(x, y)])
  }

  /** The reference decoder. */
  function Decoded(t: string): Maybe<seq<Byte>> {
    if t == "" then Some([])
    else if |t| < 4 then None
    else
      var group :- Quad(t[0], t[1], t[2], t[3], |t| == 4);
      var rest :- Decoded(t[4..]);
      Some(group + rest)
  }

  lemma SplitRest(v: Byte, w: Byte, x: Byte)
    requires v < 64 && w < 64 && x < 64
    ensures w & 0x0f == 0 ==> Second(Join1(v, w), 0) == w
    ensures x & 0x03 == 0 ==> Third(Join2(w, x), 0) == x
  {
  }

  lemma RestSplit(a: Byte, b: Byte)
    ensures Second(a, 0) & 0x0f == 0 && Join1(First(a), Second(a, 0)) == a
    ensures Third(b, 0) & 0x03 == 0 && Join2(Second(a, b), Third(b, 0)) == b
  {
  }

  lemma OneBack(a: Byte)
    ensures Quad(Sym(First(a)), Sym(Second(a, 0)), '=', '=', true) == Some([a])
  {
    SixBits(a, 0, 0);
    SymbolValue(First(a));
    SymbolValue(Second(a, 0));
    RestSplit(a, 0);
  }

  lemma TwoBack(a: Byte, b: Byte)
    ensures Quad(Sym(First(a)), Sym(Second(a, b)), Sym(Third(b, 0)), '=', true) == Some([a, b])
  {
    SixBits(a, b, 0);
    SymbolValue(First(a));
    SymbolValue(Second(a, b));
    SymbolValue(Third(b, 0));
    JoinSplit(a, b, 0);
    RestSplit(a, b);
  }

  lemma ThreeBack(a: Byte, b: Byte, c: Byte, last: bool)
    ensures Quad(Sym(First(a)), Sym(Second(a, b)), Sym(Third(b, c)), Sym(Fourth(c)), last) == Some([a, b, c])
  {
    SixBits(a, b, c);
    SymbolValue(First(a));
    SymbolValue(Second(a, b));
    SymbolValue(Third(b, c));
    SymbolValue(Fourth(c));
    JoinSplit(a, b, c);
  }

  lemma GroupBack(g: seq<Byte>, last: bool)
    requires 1 <= |g| <= 3 && (|g| < 3 ==> last)
    ensures var t := Group(g); Quad(t[0], t[1], t[2], t[3], last) == Some(g)
  {
    if |g| == 1 {
      OneBack(g[0]);
      assert g == [g[0]];
    } else if |g| == 2 {
      TwoBack(g[0], g[1]);
      assert g == [g[0], g[1]];
    } else {
      ThreeBack(g[0], g[1], g[2], last);
      assert g == [g[0], g[1], g[2]];
    }
  }

  lemma QuadBack(p: char, q: char, r: char, s: char, last: bool)
    requires Quad(p, q, r, s, last).Some?
    ensures var g := Quad(p, q, r, s, last).value;
            1 <= |g| <= 3 && (|g| < 3 ==> last) && Group(g) == [p, q, r, s]
  {
    var v, w := Value(p).value, Value(q).value;
    ValueSymbol(p);
    ValueSymbol(q);
    if r == '=' {
      SplitRest(v, w, 0);
      SplitJoin(v, w, 0, 0);
    } else {
      var x := Value(r).value;
      ValueSymbol(r);
      if s == '=' {
        SplitRest(v, w, x);
        SplitJoin(v, w, x, 0);
      } else {
        ValueSymbol(s);
        SplitJoin(v, w, x, Value(s).value);
      }
    }
  }

  lemma {:induction false} EncodedLength(d: seq<Byte>, i: nat := 0)
    ensures |Encoded(d, i)| == if i < |d| then (|d| - i + 2) / 3 * 4 else 0
    decreases |d| - i
  {
    if i < |d| { EncodedLength(d, i + 3); }
  }

  lemma {:induction false} RecoversFrom(d: seq<Byte>, i: nat)
    requires i <= |d|
    ensures Decoded(Encoded(d, i)) == Some(d[i..])
    decreases |d| - i
  {
    if i < |d| {
      var next := if i + 3 < |d| then i + 3 else |d|;
      var t, g := Encoded(d, i), Taken(d, i);
      EncodedLength(d, i + 3);
      assert t[4..] == Encoded(d, next);
      assert d[i..] == g + d[next..];
      GroupBack(g, |t| == 4);
      RecoversFrom(d, next);
    } else {
      assert d[i..] == [];
    }
  }

  /** Every sequence of bytes is recovered from its text, in all three cases of padding. */
  lemma Recovers(d: seq<Byte>)
    ensures Decoded(Encoded(d)) == Some(d) && |Encoded(d)| == (|d| + 2) / 3 * 4
  {
    RecoversFrom(d, 0);
    EncodedLength(d);
  }

  lemma {:induction false} Shifted(g: seq<Byte>, rest: seq<Byte>, i: nat)
    ensures Encoded(g + rest, |g| + i) == Encoded(rest, i)
    decreases |rest| - i
  {
    if i < |rest| {
      assert Taken(g + rest, |g| + i) == Taken(rest, i);
      Shifted(g, rest, i + 3);
    }
  }

  lemma {:induction false} DecodedText(t: string)
    requires Decoded(t).Some?
    ensures t == Encoded(Decoded(t).value)
  {
    if t != "" {
      var g := Quad(t[0], t[1], t[2], t[3], |t| == 4).value;
      var rest := Decoded(t[4..]).value;
      QuadBack(t[0], t[1], t[2], t[3], |t| == 4);
      DecodedText(t[4..]);
      FirstGroup(g, rest, t);
    }
  }

  lemma FirstGroup(g: seq<Byte>, rest: seq<Byte>, t: string)
    requires |t| >= 4 && 1 <= |g| <= 3 && t[..4] == Group(g) && t[4..] == Encoded(rest)
    requires |g| < 3 ==> |t| == 4
    ensures t == Encoded(g + rest)
  {
    EncodedLength(rest);
    assert rest != [] ==> |g| == 3;
    assert Taken(g + rest, 0) == g;
    if |g| == 3 { Shifted(g, rest, 0); }
  }

  /** The texts the decoder accepts are exactly those the encoder produces. */
  lemma Exact(t: string, d: seq<Byte>)
    ensures Decoded(t) == Some(d) <==> t == Encoded(d)
  {
    Recovers(d);
    if Decoded(t).Some? { DecodedText(t); }
  }

  // ---- the loop --------------------------------------------------------------

  lemma PaddedBits(a: Byte, b: Byte)
    ensures (a & 0x03) << 4 == Second(a, 0) && (b & 0x0f) << 2 == Third(b, 0)
  {
  }

  /** The text of the whole groups before `i`. */
  function Front(d: seq<Byte>, i: nat): string
    requires i <= |d|
  {
    if i < 3 then "" else Front(d, i - 3) + Group([d[i - 3], d[i - 2], d[i - 1]])
  }

  lemma {:induction false} FrontEncoded(d: seq<Byte>, i: nat)
    requires i <= |d| && i % 3 == 0
    ensures Encoded(d) == Front(d, i) + Encoded(d, i)
  {
    if i > 0 {
      FrontEncoded(d, i - 3);
      GroupAdds(Front(d, i - 3), Group(Taken(d, i - 3)), Encoded(d, i));
    }
  }

  lemma GroupAdds(front: string, group: string, rest: string)
    ensures front + (group + rest) == (front + group) + rest
  {
  }

  lemma LastGroup(d: seq<Byte>, i: nat)
    requires i % 3 == 0 && |d| - 2 <= i <= |d|
    ensures Encoded(d) == Front(d, i) + if i == |d| then "" else Group(d[i..])
  {
    FrontEncoded(d, i);
    if i < |d| {
      assert Taken(d, i) == d[i..];
      assert Encoded(d, i) == Group(Taken(d, i)) + "";
    }
  }

  /** One turn of the loop: three bytes, four characters. */
  method PutThree(a: Byte, b: Byte, c: Byte, out: array<char>, j: nat)
    requires j + 4 <= out.Length
    modifies out
    ensures out[..j + 4] == old(out[..j]) + Group([a, b, c])
  {
    SixBits(a, b, c);
    out[j] := Symbol(First(a));
    out[j + 1] := Symbol(Second(a, b));
    out[j + 2] := Symbol(Third(b, c));
    out[j + 3] := Symbol(Fourth(c));
  }

  /** The last one or two bytes, padded. */
  method PutRest(g: seq<Byte>, out: array<char>, j: nat)
    requires 1 <= |g| <= 2 && j + 4 <= out.Length
    modifies out
    ensures out[..j + 4] == old(out[..j]) + Group(g)
  {
    var a, b := g[0], if |g| == 2 then g[1] else 0;
    SixBits(a, b, 0);
    PaddedBits(a, b);
    out[j] := Symbol(First(a));
    if |g| == 2 {
      out[j + 1] := Symbol(Second(a, b));
      out[j + 2] := Symbol((b & 0x0f) << 2);
    } else {
      out[j + 1] := Symbol((a & 0x03) << 4);
      out[j + 2] := '=';
    }
    out[j + 3] := '=';
  }

  /** The loop: all groups of three. */
  method PutGroups(data: array<Byte>, out: array<char>) returns (i: nat, j: nat)
    requires out.Length == (data.Length + 2) / 3 * 4 + 1
    modifies out
    ensures i % 3 == 0 && i <= data.Length < i + 3 && j == i / 3 * 4
    ensures out[..j] == Front(data[..], i)
  {
    i, j := 0, 0;
    ghost var d := data[..];
    while i + 2 < data.Length
      invariant i <= data.Length && i % 3 == 0 && j == i / 3 * 4
      invariant out[..j] == Front(d, i)
    {
      PutThree(data[i], data[i + 1], data[i + 2], out, j);
      i, j := i + 3, j + 4;
    }
  }

  /** What the loop leaves over, if anything, completes the text. */
  method PutTail(rest: seq<Byte>, out: array<char>, j: nat, ghost text: string)
    requires |rest| <= 2 && |text| + 1 == out.Length && j == |text| - (if rest == [] then 0 else 4)
    requires text == out[..j] + PaddedText(rest)
    modifies out
    ensures out[..|text|] == text
  {
    if rest != [] { PutRest(rest, out, j); }
  }

  function PaddedText(rest: seq<Byte>): string
    requires |rest| <= 2
  {
    if rest == [] then "" else Group(rest)
  }

  /** `base64_encode`: the text in a buffer one longer than needed, for the terminator. */
  method Encode(data: array<Byte>) returns (out: array<char>, length: nat)
    ensures length == (data.Length + 2) / 3 * 4 && out.Length == length + 1
    ensures out[..length] == Encoded(data[..]) && out[length] == '\0'
  {
    length := (data.Length + 2) / 3 * 4;
    out := new char[length + 1](_ => '\0');
    var i, j := PutGroups(data, out);
    ghost var text := WholeText(data[..], i);
    PutTail(data[i..], out, j, text);
    out[length] := '\0';
  }

  /** The text of all bytes, given that the whole groups before `i` have been written. */
  lemma WholeText(d: seq<Byte>, i: nat) returns (text: string)
    requires i % 3 == 0 && i <= |d| < i + 3
    ensures text == Encoded(d) && text == Front(d, i) + PaddedText(d[i..]) && |text| == (|d| + 2) / 3 * 4
  {
    text := Encoded(d);
    LastGroup(d, i);
    EncodedLength(d);
  }
}
