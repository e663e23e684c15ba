/** The formats of forwards that the printer does not use: `port:host:port`, `addr:port:host:port`,
    `port host:port`, other gaps, and the two formats of a dynamic forward. */
module ColonForwards {
  import opened CText
  import opened SshHost
  import opened LineCodec

  lemma {:induction false} DigitRun(s: string, i: nat, e: nat)
    requires i <= e <= |s| && (forall j :: i <= j < e ==> IsDigit(s[j])) && (e < |s| ==> !IsDigit(s[e]))
    ensures DigitEnd(s, i) == e
    decreases e - i
  {
    if i < e { DigitRun(s, i + 1, e); }
  }

  lemma Cut3(s: string, j: nat, d: string)
    requires j + |d| <= |s| && s[j..j + |d|] == d
    ensures s == s[..j] + d + s[j + |d|..]
  {
  }

  /** `m` stands at `j`, and no digit behind it. */
  lemma DigitsIn(s: string, j: nat, m: nat)
    requires j + |Digits(m)| <= |s| && s[j..j + |Digits(m)|] == Digits(m)
    requires j + |Digits(m)| < |s| ==> !IsDigit(s[j + |Digits(m)|])
    ensures DigitEnd(s, j) == j + |Digits(m)| && ReadDigits(s, j, 0) == m && |Digits(m)| > 0
  {
    var d := Digits(m);
    var e := j + |d|;
    assert forall k :: j <= k < e ==> s[k] == d[k - j];
    DigitRun(s, j, e);
    Cut3(s, j, d);
    ReadDigitsBack(s[..j], m, s[e..]);
  }

  /** A sign, or none, before digits. */
  lemma SignedIn(s: string, i: nat, sign: string, m: nat)
    requires sign == "" || sign == "-" || sign == "+"
    requires i + |sign| + |Digits(m)| <= |s| && s[i..i + |sign|] == sign
    requires s[i + |sign|..i + |sign| + |Digits(m)|] == Digits(m)
    requires i + |sign| + |Digits(m)| < |s| ==> !IsDigit(s[i + |sign| + |Digits(m)|])
    ensures ScanInt(s, i) == Some(i + |sign| + |Digits(m)|)
    ensures ReadInt(s, i) == StoreInt(if sign == "-" then 0 - m else m)
  {
    var j := i + |sign|;
    DigitsIn(s, j, m);
    assert s[j] == s[j..j + |Digits(m)|][0];
    assert sign != "" ==> s[i] == s[i..j][0];
    assert SpaceEnd(s, i) == i;
    assert NumberStart(s, i) == j;
  }

  /** A number with anything but a digit behind it is read back, and the scan stops behind it. */
  lemma NumberIn(pre: string, n: int, post: string)
    requires IsInt32(n) && (post != "" ==> !IsDigit(post[0]))
    ensures var s := pre + FormatInt(n) + post;
            ReadInt(s, |pre|) == n && ScanInt(s, |pre|) == Some(|pre| + |FormatInt(n)|)
  {
    var m: nat := if n < 0 then -n else n;
    var sign := if n < 0 then "-" else "";
    assert FormatInt(n) == sign + Digits(m);
    SignedNumber(pre, sign, m, post);
  }

  lemma SignedNumber(pre: string, sign: string, m: nat, post: string)
    requires sign == "" || sign == "-"
    requires post != "" ==> !IsDigit(post[0])
    ensures var s := pre + (sign + Digits(m)) + post;
            && ScanInt(s, |pre|) == Some(|pre| + |sign + Digits(m)|)
            && ReadInt(s, |pre|) == StoreInt(if sign == "-" then 0 - m else m)
  {
    Placed(pre, sign, Digits(m), post);
    SignedIn(pre + (sign + Digits(m)) + post, |pre|, sign, m);
  }

  lemma Placed(pre: string, sign: string, d: string, post: string)
    ensures var s := pre + (sign + d) + post;
            var j := |pre| + |sign|;
            && s[|pre|..j] == sign && s[j..j + |d|] == d
            && (j + |d| < |s| ==> post != "" && s[j + |d|] == post[0])
  {
  }

  lemma {:induction false} CountedApart(a: string, b: string)
    ensures CountColons(a + b, |a + b|) == CountColons(a, |a|) + CountColons(b, |b|)
  {
    CountedUpTo(a, b, |b|);
  }

  lemma {:induction false} CountedUpTo(a: string, b: string, n: nat)
    requires n <= |b|
    ensures CountColons(a + b, |a| + n) == CountColons(a, |a|) + CountColons(b, n)
  {
    if n == 0 {
      SameCount(a, a + b, |a|);
    } else {
      CountedUpTo(a, b, n - 1);
    }
  }

  lemma {:induction false} SameCount(a: string, b: string, n: nat)
    requires n <= |a| && n <= |b| && forall i :: 0 <= i < n ==> a[i] == b[i]
    ensures CountColons(a, n) == CountColons(b, n)
  {
    if n > 0 { SameCount(a, b, n - 1); }
  }

  lemma {:induction false} NoColons(s: string, n: nat)
    requires Lacks(s, ':') && n <= |s|
    ensures CountColons(s, n) == 0
  {
    if n > 0 { NoColons(s, n - 1); }
  }

  /** A part of the format: neither blank nor colon in it. */
  predicate Part(s: string, max: nat) {
    0 < |s| <= max && Lacks(s, ':') && Lacks(s, ' ') && Lacks(s, '\t')
  }

  lemma NumberPart(n: int)
    requires IsInt32(n)
    ensures Part(FormatInt(n), 11)
  {
    AtoiFormat(n);
  }

  function Tail(f: Forward): string {
    FormatInt(f.bindPort) + ":" + f.remoteHost + ":" + FormatInt(f.remotePort)
  }

  lemma ScanParts(addr: string, s: string, i: nat, e: nat, g: nat)
    requires i <= e < g < |s| && ScanInt(s, i) == Some(e) && s[e] == ':'
    requires ScanField(s, e + 1, 255) == Some(g) && ScanInt(s, g + 1).Some?
    ensures ScanForward(addr, s, i) == Some(Forward(addr, ReadInt(s, i), s[e + 1..g], ReadInt(s, g + 1)))
  {
  }

  lemma Arranged(pre: string, p: string, h: string, q: string)
    ensures var s := pre + (p + ":" + h + ":" + q);
            var e := |pre| + |p|;
            var g := e + 1 + |h|;
            && s == pre + p + (":" + h + ":" + q) && s == (pre + p + ":" + h + ":") + q + ""
            && |pre + p + ":" + h + ":"| == g + 1
            && s[e] == ':' && s[g] == ':' && s[e + 1..g] == h
  {
  }

  lemma ScanAround(addr: string, s: string, i: nat, e: nat, h: string)
    requires Part(h, 255) && i <= e && e + 1 + |h| < |s|
    requires ScanInt(s, i) == Some(e) && ScanInt(s, e + 2 + |h|).Some?
    requires s[e] == ':' && s[e + 1..e + 1 + |h|] == h && s[e + 1 + |h|] == ':'
    ensures ScanForward(addr, s, i) == Some(Forward(addr, ReadInt(s, i), h, ReadInt(s, e + 2 + |h|)))
  {
    HostField(s, e + 1, h);
    ScanParts(addr, s, i, e, e + 1 + |h|);
  }

  lemma TailBind(pre: string, f: Forward)
    requires IsInt32(f.bindPort)
    ensures var s := pre + Tail(f);
            ReadInt(s, |pre|) == f.bindPort && ScanInt(s, |pre|) == Some(|pre| + |FormatInt(f.bindPort)|)
  {
    Arranged(pre, FormatInt(f.bindPort), f.remoteHost, FormatInt(f.remotePort));
    NumberIn(pre, f.bindPort, ":" + f.remoteHost + ":" + FormatInt(f.remotePort));
  }

  lemma TailTarget(pre: string, f: Forward)
    requires IsInt32(f.remotePort)
    ensures var s := pre + Tail(f);
            var g := |pre| + |FormatInt(f.bindPort)| + 2 + |f.remoteHost|;
            g <= |s| && ReadInt(s, g) == f.remotePort && ScanInt(s, g).Some?
  {
    var p, h := FormatInt(f.bindPort), f.remoteHost;
    Arranged(pre, p, h, FormatInt(f.remotePort));
    NumberIn(pre + p + ":" + h + ":", f.remotePort, "");
  }

  lemma ScanFrom(addr: string, pre: string, p: string, h: string, q: string, bindPort: int, remotePort: int)
    requires Part(h, 255)
    requires var s := pre + (p + ":" + h + ":" + q);
             var g := |pre| + |p| + 2 + |h|;
             && ReadInt(s, |pre|) == bindPort && ScanInt(s, |pre|) == Some(|pre| + |p|)
             && ReadInt(s, g) == remotePort && ScanInt(s, g).Some?
    ensures ScanForward(addr, pre + (p + ":" + h + ":" + q), |pre|) == Some(Forward(addr, bindPort, h, remotePort))
  {
    Arranged(pre, p, h, q);
    ScanAround(addr, pre + (p + ":" + h + ":" + q), |pre|, |pre| + |p|, h);
  }

  lemma ScanTail(addr: string, pre: string, f: Forward)
    requires Part(f.remoteHost, 255) && IsInt32(f.bindPort) && IsInt32(f.remotePort)
    ensures ScanForward(addr, pre + Tail(f), |pre|) == Some(f.(bindAddr := addr))
  {
    TailBind(pre, f);
    TailTarget(pre, f);
    ScanFrom(addr, pre, FormatInt(f.bindPort), f.remoteHost, FormatInt(f.remotePort), f.bindPort, f.remotePort);
  }

  lemma HostField(s: string, i: nat, h: string)
    requires Part(h, 255) && i + |h| < |s| && s[i..i + |h|] == h && s[i + |h|] == ':'
    ensures ScanField(s, i, 255) == Some(i + |h|)
  {
    assert forall j :: 0 <= j < |h| ==> s[i..i + |h|][j] == h[j];
    assert forall j :: i <= j < i + |h| ==> s[j] == h[j - i];
  }

  lemma TailCount(f: Forward)
    requires Part(f.remoteHost, 255) && IsInt32(f.bindPort) && IsInt32(f.remotePort)
    ensures CountColons(Tail(f), |Tail(f)|) == 2 && Lacks(Tail(f), ' ') && Lacks(Tail(f), '\t') && |Tail(f)| <= 279
  {
    var p, h, q := FormatInt(f.bindPort), f.remoteHost, FormatInt(f.remotePort);
    NumberPart(f.bindPort);
    NumberPart(f.remotePort);
    NoColons(p, |p|);
    NoColons(h, |h|);
    NoColons(q, |q|);
    CountedApart(p, ":");
    CountedApart(p + ":", h);
    CountedApart(p + ":" + h, ":");
    CountedApart(p + ":" + h + ":", q);
  }

  lemma NoGap(s: string)
    requires Lacks(s, ' ') && Lacks(s, '\t') && |s| <= 511
    ensures ParseForward(s) == ColonForward(s)
  {
  }

  /** `port:host:port` listens on localhost. Any 32-bit port is accepted, unlike in the format with a
      blank. */
  lemma ReadsThreeParts(f: Forward)
    requires f.bindAddr == "localhost" && Part(f.remoteHost, 255) && IsInt32(f.bindPort) && IsInt32(f.remotePort)
    ensures ParseForward(Tail(f)) == Some(f)
  {
    TailCount(f);
    NoGap(Tail(f));
    ScanTail("localhost", "", f);
    assert "" + Tail(f) == Tail(f);
  }

  lemma AddressCount(addr: string, t: string)
    requires Part(addr, 63) && CountColons(t, |t|) == 2 && Lacks(t, ' ') && Lacks(t, '\t')
    ensures var s := addr + ":" + t;
            && CountColons(s, |s|) == 3 && Lacks(s, ' ') && Lacks(s, '\t')
            && s[..|addr|] == addr && ScanField(s, 0, 63) == Some(|addr|)
  {
    NoColons(addr, |addr|);
    CountedApart(addr, ":");
    CountedApart(addr + ":", t);
    var s := addr + ":" + t;
    assert forall j :: 0 <= j < |addr| ==> s[j] == addr[j];
    assert s[|addr|] == ':';
  }

  /** `addr:port:host:port` listens on the address. */
  lemma ReadsFourParts(f: Forward)
    requires Part(f.bindAddr, 63) && Part(f.remoteHost, 255) && IsInt32(f.bindPort) && IsInt32(f.remotePort)
    ensures ParseForward(f.bindAddr + ":" + Tail(f)) == Some(f)
  {
    TailCount(f);
    AddressFirst(f.bindAddr, Tail(f));
    ScanTail(f.bindAddr, f.bindAddr + ":", f);
  }

  lemma AddressFirst(addr: string, t: string)
    requires Part(addr, 63) && CountColons(t, |t|) == 2 && Lacks(t, ' ') && Lacks(t, '\t') && |t| <= 279
    ensures ParseForward(addr + ":" + t) == ScanForward(addr, addr + ":" + t, |addr + ":"|)
  {
    AddressCount(addr, t);
    NoGap(addr + ":" + t);
  }

  lemma SpaceParts(p: string, h: string, q: string)
    requires NumberChars(q) && Lacks(p, ':')
    ensures SpaceForward(p, h + ":" + q)
         == Checked(Forward("localhost", Atoi(p), Cut(h, 255), ReadInt(h + ":" + q, |h| + 1)))
  {
    LastColon(h, q);
  }

  lemma TargetShape(h: string, q: string)
    requires Part(q, 11) && (h != "" ==> !IsBlank(h[0])) && |h| <= 255
    ensures var r := h + ":" + q; r != "" && !IsBlank(r[0]) && |r| <= 267
  {
  }

  lemma PortThenTarget(p: string, h: string, q: string)
    requires Part(p, 11) && Part(q, 11) && NumberChars(q) && (h != "" ==> !IsBlank(h[0])) && |h| <= 255
    ensures ParseForward(p + " " + (h + ":" + q))
         == Checked(Forward("localhost", Atoi(p), h, ReadInt(h + ":" + q, |h| + 1)))
  {
    TargetShape(h, q);
    GapForward(p, h + ":" + q);
    SpaceParts(p, h, q);
  }

  /** `port host:port` listens on localhost, if both ports are positive. */
  lemma ReadsPortAndTarget(f: Forward)
    requires f.bindAddr == "localhost" && |f.remoteHost| <= 255 && IsInt32(f.bindPort) && IsInt32(f.remotePort)
    requires f.remoteHost != "" ==> !IsBlank(f.remoteHost[0])
    ensures ParseForward(FormatInt(f.bindPort) + " " + (f.remoteHost + ":" + FormatInt(f.remotePort)))
         == if f.bindPort > 0 && f.remotePort > 0 then Some(f) else None
  {
    NumberPart(f.bindPort);
    NumberPart(f.remotePort);
    AtoiFormat(f.bindPort);
    NumberAt("", f.remotePort);
    NumberAt(f.remoteHost + ":", f.remotePort);
    PortThenTarget(FormatInt(f.bindPort), f.remoteHost, FormatInt(f.remotePort));
  }

  // ---- numbers in other guises ----------------------------------------------

  predicate AllSpace(s: string) {
    forall i :: 0 <= i < |s| ==> IsSpace(s[i])
  }

  lemma {:induction false} SpacesEnd(s: string, i: nat, e: nat)
    requires i <= e <= |s| && (forall j :: i <= j < e ==> IsSpace(s[j])) && (e < |s| ==> !IsSpace(s[e]))
    ensures SpaceEnd(s, i) == e
    decreases e - i
  {
    if i < e { SpacesEnd(s, i + 1, e); }
  }

  /** `atoi` skips white space and takes one sign; what follows the digits does not matter. */
  lemma LooseNumber(blanks: string, sign: string, m: nat, post: string)
    requires AllSpace(blanks) && (sign == "" || sign == "-" || sign == "+")
    requires post != "" ==> !IsDigit(post[0])
    ensures Atoi(blanks + (sign + Digits(m)) + post) == StoreInt(if sign == "-" then 0 - m else m)
  {
    var s, b := blanks + (sign + Digits(m)) + post, |blanks|;
    Placed(blanks, sign, Digits(m), post);
    SignedIn(s, b, sign, m);
    assert forall j :: 0 <= j < b ==> s[j] == blanks[j];
    assert s[b] == (sign + Digits(m))[0];
    NumberAfterSpace(s, b);
  }

  lemma NumberAfterSpace(s: string, b: nat)
    requires b < |s| && !IsSpace(s[b]) && forall j :: 0 <= j < b ==> IsSpace(s[j])
    ensures NumberStart(s, 0) == NumberStart(s, b) && Atoi(s) == ReadInt(s, b)
  {
    SpacesEnd(s, 0, b);
    SpacesEnd(s, b, b);
  }

  /** Without a digit where one is due, `atoi` gives 0. */
  lemma NoNumber(s: string)
    requires NumberStart(s, 0) < |s| ==> !IsDigit(s[NumberStart(s, 0)])
    ensures Atoi(s) == 0
  {
  }

  // ---- dynamic forwards -------------------------------------------------------

  predicate Blanks(s: string) {
    forall i :: 0 <= i < |s| ==> s[i] == ' ' || s[i] == '\t'
  }

  lemma {:induction false} BlanksEnd(s: string, i: nat, e: nat)
    requires i <= e <= |s| && (forall j :: i <= j < e ==> s[j] == ' ' || s[j] == '\t')
    requires e < |s| ==> s[e] != ' ' && s[e] != '\t'
    ensures BlankEnd(s, i) == e
    decreases e - i
  {
    if i < e { BlanksEnd(s, i + 1, e); }
  }

  lemma BlanksCut(blanks: string, v: string)
    requires Blanks(blanks) && (v != "" ==> v[0] != ' ' && v[0] != '\t')
    ensures (blanks + v)[BlankEnd(blanks + v, 0)..] == v
  {
    var s := blanks + v;
    assert forall j :: 0 <= j < |blanks| ==> s[j] == blanks[j];
    assert v != "" ==> s[|blanks|] == v[0];
    BlanksEnd(s, 0, |blanks|);
  }

  /** `DynamicForward port` listens on localhost, blanks in front or not. */
  lemma ReadsDynamicPort(blanks: string, n: int)
    requires Blanks(blanks) && IsInt32(n)
    ensures ParseDynamic(blanks + FormatInt(n)) == Dynamic("localhost", n)
  {
    NumberPart(n);
    AtoiFormat(n);
    BlanksCut(blanks, FormatInt(n));
  }

  /** `DynamicForward addr:port` listens on the address, or as much of it as fits its buffer. */
  lemma ReadsDynamicAddress(blanks: string, addr: string, n: int)
    requires Blanks(blanks) && IsInt32(n) && Lacks(addr, ':') && (addr != "" ==> addr[0] != ' ' && addr[0] != '\t')
    ensures var d := ParseDynamic(blanks + (addr + ":" + FormatInt(n)));
            d.bindPort == n && d.bindAddr <= addr && |d.bindAddr| == if |addr| < 63 then |addr| else 63
  {
    NumberAt(addr + ":", n);
    FirstColon(addr, FormatInt(n));
    BlanksCut(blanks, addr + ":" + FormatInt(n));
  }

  // ---- other gaps, and what is no forward -------------------------------------

  /** Any run of spaces and tabs that begins with a space separates the two parts; or, if there is no
      space at all, any run of tabs. */
  lemma AnyGap(bind: string, gap: string, remote: string)
    requires Blanks(gap) && gap != "" && |bind + gap + remote| <= 511
    requires remote != "" ==> remote[0] != ' ' && remote[0] != '\t'
    requires Lacks(bind, ' ') && (gap[0] == '\t' ==> Lacks(bind, '\t') && Lacks(gap, ' ') && Lacks(remote, ' '))
    ensures ParseForward(bind + gap + remote) == SpaceForward(bind, remote)
  {
    var s, k := bind + gap + remote, |bind|;
    assert forall j :: 0 <= j < k ==> s[j] == bind[j];
    assert forall j :: k <= j < k + |gap| ==> s[j] == gap[j - k];
    assert forall j :: k + |gap| <= j < |s| ==> s[j] == remote[j - k - |gap|];
    assert s[k] == gap[0];
    if gap[0] == '\t' { assert forall j :: 0 <= j < |s| ==> s[j] != ' '; }
    assert FindGap(s) == k;
    BlanksEnd(s, k + 1, k + |gap|);
    assert s[..k] == bind && s[k + |gap|..] == remote;
  }

  /** Two parts of which the second has no colon are no forward, nor is a value without a blank that has
      neither two nor three colons. */
  lemma RejectsOthers(bind: string, remote: string, s: string)
    ensures Lacks(remote, ':') ==> SpaceForward(bind, remote) == None
    ensures Lacks(s, ' ') && Lacks(s, '\t') && |s| <= 511 && CountColons(s, |s|) !in {2, 3} ==> ParseForward(s) == None
  {
  }

  /** Only the first 511 characters of a value are looked at. */
  lemma LongValue(s: string)
    requires |s| > 511
    ensures ParseForward(s) == ParseForward(s[..511])
  {
    assert Cut(s, 511) == s[..511] == Cut(s[..511], 511);
  }
}
