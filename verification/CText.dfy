/** C strings as the config reader sees them: searching, trimming, cutting to a
    buffer, and the `%d` / `atoi` pair with the widths of the C types.

    Scans are written over an index into the string, as the pointers of the C code move. */
module CText {
  type Byte = bv8

  datatype Maybe<+T> = None | Some(value: T) {
    predicate IsFailure() { None? }
    function PropagateFailure<U>(): Maybe<U>
      requires None?
    { None }
    function Extract(): T
      requires Some?
    { value }
  }

  /** `isspace` in the C locale. */
  predicate IsSpace(c: char) {
    c == ' ' || '\t' <= c <= '\r'
  }

  predicate IsBlank(c: char) {
    c == ' ' || c == '\t'
  }

  /** The characters that end a line buffer: the terminator, CR and LF. */
  predicate EndsLine(c: char) {
    c == '\0' || c == '\r' || c == '\n'
  }

  /** Nothing in `s` ends a line buffer. */
  predicate Clean(s: string) {
    forall i :: 0 <= i < |s| ==> !EndsLine(s[i])
  }

  /** `c` does not occur in `s`. */
  predicate Lacks(s: string, c: char) {
    forall i :: 0 <= i < |s| ==> s[i] != c
  }

  /** `s` does not begin with white space. */
  predicate Lead(s: string) {
    s != "" ==> !IsSpace(s[0])
  }

  /** `s` neither begins nor ends with white space. */
  predicate Trimmed(s: string) {
    s != "" ==> !IsSpace(s[0]) && !IsSpace(s[|s| - 1])
  }

  /** A copy into a buffer of `n + 1` bytes. */
  function Cut(s: string, n: nat): string {
    if |s| <= n then s else s[..n]
  }

  // ---- searching -------------------------------------------------------

  /** `strchr` from position `i`, with `|s|` for "not found". */
  function Find(s: string, c: char, i: nat := 0): (r: nat)
    requires i <= |s|
    ensures i <= r <= |s|
    ensures forall j :: i <= j < r ==> s[j] != c
    ensures r < |s| ==> s[r] == c
    decreases |s| - i
  {
    if i == |s| || s[i] == c then i else Find(s, c, i + 1)
  }

  /** `strrchr` before position `n`, with -1 for "not found". */
  function FindLast(s: string, c: char, n: nat): (r: int)
    requires n <= |s|
    ensures -1 <= r < n
    ensures forall j :: r < j < n ==> s[j] != c
    ensures r >= 0 ==> s[r] == c
  {
    if n == 0 then -1 else if s[n - 1] == c then n - 1 else FindLast(s, c, n - 1)
  }

  /** The first position at or after `i` that ends a line buffer. */
  function LineEnd(s: string, i: nat): (r: nat)
    requires i <= |s|
    ensures i <= r <= |s|
    ensures forall j :: i <= j < r ==> !EndsLine(s[j])
    ensures r < |s| ==> EndsLine(s[r])
    decreases |s| - i
  {
    if i == |s| || EndsLine(s[i]) then i else LineEnd(s, i + 1)
  }

  // ---- trimming --------------------------------------------------------

  /** The first position at or after `i` that holds no white space. */
  function SpaceEnd(s: string, i: nat): (r: nat)
    requires i <= |s|
    ensures i <= r <= |s|
    ensures forall j :: i <= j < r ==> IsSpace(s[j])
    ensures r < |s| ==> !IsSpace(s[r])
    decreases |s| - i
  {
    if i < |s| && IsSpace(s[i]) then SpaceEnd(s, i + 1) else i
  }

  /** The end of the text of `s[lo..n]` without the white space it ends with. */
  function TextEnd(s: string, lo: nat, n: nat): (r: nat)
    requires lo <= n <= |s|
    ensures lo <= r <= n
    ensures forall j :: r <= j < n ==> IsSpace(s[j])
    ensures lo < r ==> !IsSpace(s[r - 1])
    decreases n
  {
    if lo < n && IsSpace(s[n - 1]) then TextEnd(s, lo, n - 1) else n
  }

  /** `trim`. */
  function Trim(s: string): string {
    var lo := SpaceEnd(s, 0);
    s[lo..TextEnd(s, lo, |s|)]
  }

  /** White space, a text with nothing to trim, white space: `Trim` finds the text. */
  lemma TrimUnique(s: string, lo: nat, hi: nat)
    requires lo <= hi <= |s| && Trimmed(s[lo..hi])
    requires forall j :: 0 <= j < lo ==> IsSpace(s[j])
    requires forall j :: hi <= j < |s| ==> IsSpace(s[j])
    ensures Trim(s) == s[lo..hi]
  {
    var a := SpaceEnd(s, 0);
    var b := TextEnd(s, a, |s|);
    if lo < hi {
      assert s[lo..hi][0] == s[lo] && s[lo..hi][hi - lo - 1] == s[hi - 1];
      assert a == lo;
      assert b == hi;
    } else if a < |s| {
      assert false;
    }
  }

  lemma TrimFacts(s: string)
    ensures Trimmed(Trim(s)) && |Trim(s)| <= |s|
    ensures Clean(s) ==> Clean(Trim(s))
  {
  }

  // ---- decimals --------------------------------------------------------

  predicate IsDigit(c: char) {
    '0' <= c <= '9'
  }

  function Digits(n: nat): (s: string)
    ensures s != "" && forall i :: 0 <= i < |s| ==> IsDigit(s[i])
  {
    if n < 10 then ['0' + n as char] else Digits(n / 10) + ['0' + (n % 10) as char]
  }

  /** `%d`. */
  function FormatInt(n: int): string {
    if n < 0 then "-" + Digits(-n) else Digits(n)
  }

  predicate IsInt32(n: int) {
    -0x8000_0000 <= n <= 0x7fff_ffff
  }

  /** What glibc stores in an `int` for a decimal of value `n`: `strtol` saturates at
      64 bits and the conversion keeps the low 32. */
  function StoreInt(n: int): (r: int)
    ensures IsInt32(r)
    ensures IsInt32(n) ==> r == n
  {
    if IsInt32(n) then n else
      var long := if n > 0x7fff_ffff_ffff_ffff then 0x7fff_ffff_ffff_ffff
                  else if n < -0x8000_0000_0000_0000 then -0x8000_0000_0000_0000 else n;
      (long + 0x8000_0000) % 0x1_0000_0000 - 0x8000_0000
  }

  /** The digits from position `i` on, appended to the number `acc`. */
  function ReadDigits(s: string, i: nat, acc: nat): nat
    requires i <= |s|
    decreases |s| - i
  {
    if i < |s| && IsDigit(s[i]) then ReadDigits(s, i + 1, 10 * acc + (s[i] as int - '0' as int)) else acc
  }

  function DigitEnd(s: string, i: nat): (r: nat)
    requires i <= |s|
    ensures i <= r <= |s|
    decreases |s| - i
  {
    if i < |s| && IsDigit(s[i]) then DigitEnd(s, i + 1) else i
  }

  /** Where the digits of a number at `i` start: after white space and one sign. */
  function NumberStart(s: string, i: nat): (r: nat)
    requires i <= |s|
    ensures i <= r <= |s|
  {
    var j := SpaceEnd(s, i);
    if j < |s| && (s[j] == '-' || s[j] == '+') then j + 1 else j
  }

  /** The `int` read at `i`: zero when there are no digits. */
  function ReadInt(s: string, i: nat): (r: int)
    requires i <= |s|
    ensures IsInt32(r)
  {
    var j := NumberStart(s, i);
    var n := ReadDigits(s, j, 0);
    StoreInt(if j > i && s[j - 1] == '-' then 0 - n else n)
  }

  /** `atoi`. */
  function Atoi(s: string): int {
    ReadInt(s, 0)
  }

  lemma {:induction false} ReadDigitsBack(pre: string, n: nat, post: string)
    ensures var s := pre + Digits(n) + post;
            ReadDigits(s, |pre|, 0) == ReadDigits(s, |pre| + |Digits(n)|, n)
  {
    var s := pre + Digits(n) + post;
    if n >= 10 {
      var d := ['0' + (n % 10) as char];
      ReadDigitsBack(pre, n / 10, d + post);
      assert s == pre + Digits(n / 10) + (d + post);
    }
  }

  function Pow10(n: nat): nat {
    if n == 0 then 1 else 10 * Pow10(n - 1)
  }

  lemma {:induction false} DigitsLength(n: nat, width: nat)
    requires 0 < width && n < Pow10(width)
    ensures |Digits(n)| <= width
  {
    if n >= 10 {
      DigitsLength(n / 10, width - 1);
    }
  }

  lemma PowTen()
    ensures Pow10(10) == 10_000_000_000
  {
    assert Pow10(5) == 100_000;
    assert Pow10(10) == 10 * 10 * 10 * 10 * 10 * Pow10(5);
  }

  /** `atoi` reads back what `%d` wrote, for every `int`; and it takes at most eleven characters. */
  lemma AtoiFormat(n: int)
    requires IsInt32(n)
    ensures Atoi(FormatInt(n)) == n
    ensures 0 < |FormatInt(n)| <= 11
    ensures forall i :: 0 <= i < |FormatInt(n)| ==> IsDigit(FormatInt(n)[i]) || FormatInt(n)[i] == '-'
  {
    var m: nat := if n < 0 then -n else n;
    var sign := if n < 0 then "-" else "";
    var s := FormatInt(n);
    assert s == sign + Digits(m) + "";
    PowTen();
    DigitsLength(m, 10);
    ReadDigitsBack(sign, m, "");
    assert SpaceEnd(s, 0) == 0;
    assert NumberStart(s, 0) == |sign|;
  }

  // ---- keywords --------------------------------------------------------

  function Lower(c: char): char {
    if 'A' <= c <= 'Z' then c - 'A' + 'a' else c
  }

  /** `strcasecmp(a, b) == 0`. */
  predicate KwEq(a: string, b: string) {
    |a| == |b| && forall i :: 0 <= i < |a| ==> Lower(a[i]) == Lower(b[i])
  }

  // ---- what the basic functions mean -----------------------------------

  /** A copy into a buffer keeps the beginning, as much as fits. */
  lemma CutKeepsFront(s: string, n: nat)
    ensures Cut(s, n) <= s && |Cut(s, n)| == if |s| < n then |s| else n
  {
  }

  /** White space as `isspace` knows it: the space, and tab to carriage return. */
  lemma SpaceCodes(c: char)
    ensures IsSpace(c) <==> c as int == 32 || 9 <= c as int <= 13
  {
  }

  /** Values of 64 bits are reduced modulo 2^32; larger ones give -1, smaller ones 0. */
  lemma StoredBits(n: int)
    ensures -0x8000_0000_0000_0000 <= n <= 0x7fff_ffff_ffff_ffff ==> (StoreInt(n) - n) % 0x1_0000_0000 == 0
    ensures n > 0x7fff_ffff_ffff_ffff ==> StoreInt(n) == -1
    ensures n < -0x8000_0000_0000_0000 ==> StoreInt(n) == 0
  {
  }

  lemma {:induction false} NoLeadingZero(n: nat)
    requires n > 0
    ensures |Digits(n)| > 0 && Digits(n)[0] != '0'
  {
    if n >= 10 { NoLeadingZero(n / 10); }
  }

  /** `%d` prints no plus sign and no leading zero, and a minus sign for negative numbers only. */
  lemma ShortestFormat(n: int)
    ensures n == 0 ==> FormatInt(n) == "0"
    ensures n > 0 ==> FormatInt(n)[0] != '0' && FormatInt(n)[0] != '+' && FormatInt(n)[0] != '-'
    ensures n < 0 ==> FormatInt(n)[0] == '-' && |FormatInt(n)| > 1 && FormatInt(n)[1] != '0'
  {
    if n != 0 { NoLeadingZero(if n < 0 then -n else n); }
  }
}
