/** Single lines, numbers and forwards: what is written is read back. */
module LineCodec {
  import opened CText
  import opened SshBlocks
  import opened SshHost
  import opened SshParse
  import opened SshPrint

  // ---- one line --------------------------------------------------------

  predicate Spaces(s: string) {
    forall i :: 0 <= i < |s| ==> IsSpace(s[i])
  }

  /** A line is read as the text between its white space. */
  lemma ParseLinePadded(pad: string, s: string, tail: string)
    requires Spaces(pad) && Spaces(tail) && Trimmed(s)
    requires Clean(pad) && Clean(s) && Clean(tail)
    ensures ParseLine(pad + s + tail + "\n") == SplitLine(s)
  {
    var t := pad + s + tail;
    var raw := t + "\n";
    assert forall j :: 0 <= j < |t| ==> raw[j] == t[j];
    assert Clean(t) && raw[|t|] == '\n' && EndsLine(raw[|t|]);
    assert LineEnd(raw, 0) == |t|;
    assert raw[..|t|] == t;
    assert t[|pad|..|pad| + |s|] == s;
    TrimUnique(t, |pad|, |pad| + |s|);
  }

  lemma TrimWhole(s: string)
    requires Trimmed(s)
    ensures Trim(s) == s
  {
    assert s[0..|s|] == s;
    TrimUnique(s, 0, |s|);
  }

  function MakeItem(key: string, value: string): Item {
    if KwEq(key, "Host") then HostLine(value) else OtherLine(key, value)
  }

  lemma SplitAtSpace(key: string, v: string)
    requires KeyShape(key)
    ensures SplitAt(key + " " + v) == |key|
  {
    var s := key + " " + v;
    assert forall j :: 0 <= j < |key| ==> s[j] == key[j];
    assert s[|key|] == ' ';
    assert Find(s, ' ') == |key|;
  }

  lemma SplitKeyValue(key: string, v: string)
    requires KeyShape(key) && Trimmed(v) && v != "" && |v| <= 959
    ensures SplitLine(key + " " + v) == Some(MakeItem(key, v))
  {
    var s := key + " " + v;
    SplitAtSpace(key, v);
    assert s[..|key|] == key;
    assert s[|key| + 1..] == v;
    assert s[0] == key[0];
    TrimWhole(v);
  }

  lemma SplitKeyOnly(key: string, k: nat)
    requires KeyShape(key) && Lacks(key, '\t') && 0 < k <= |key|
    ensures SplitLine(key[..k]) == None
  {
  }

  /** The text of a value that starts with no white space: a prefix of it. */
  lemma TrimTail(v: string)
    requires Lead(v)
    ensures |Trim(v)| <= |v| && Trim(v) == v[..|Trim(v)|] && Spaces(v[|Trim(v)|..])
    ensures v != "" ==> Trim(v) != ""
  {
    assert SpaceEnd(v, 0) == 0;
  }

  /** What a written `key value` line is read as. */
  lemma ReadPrinted(pad: string, key: string, v: string)
    requires Spaces(pad) && Clean(pad) && KeyShape(key)
    requires Clean(v) && Lead(v) && |v| <= 959 && (v == "" ==> Lacks(key, '\t'))
    ensures ParseLine(pad + key + " " + v + "\n") == if v == "" then None else Some(MakeItem(key, Trim(v)))
  {
    var raw := pad + key + " " + v + "\n";
    if v == "" {
      TrimTail(key);
      var k := |Trim(key)|;
      TrimFacts(key);
      assert raw == pad + key[..k] + (key[k..] + " ") + "\n";
      ParseLinePadded(pad, key[..k], key[k..] + " ");
      SplitKeyOnly(key, k);
    } else {
      TrimTail(v);
      var w := Trim(v);
      TrimFacts(v);
      assert raw == pad + (key + " " + w) + v[|w|..] + "\n";
      ParseLinePadded(pad, key + " " + w, v[|w|..]);
      SplitKeyValue(key, w);
    }
  }

  // ---- the whole text --------------------------------------------------

  /** A line that one `fgets` takes whole. */
  predicate WholeLine(l: string) {
    l != "" && |l| <= LINE_MAX && l[|l| - 1] == '\n' && Lacks(l[..|l| - 1], '\n')
  }

  predicate All(whole: string -> bool, ls: seq<string>) {
    forall l :: l in ls ==> whole(l)
  }

  lemma ChunkIsLine(pre: string, l: string, post: string)
    requires WholeLine(l)
    ensures ChunkEnd(pre + l + post, |pre|) == |pre| + |l|
  {
    var text := pre + l + post;
    assert forall j :: 0 <= j < |l| ==> text[|pre| + j] == l[j];
    assert forall j :: 0 <= j < |l| - 1 ==> l[j] == l[..|l| - 1][j];
    assert Find(text, '\n', |pre|) == |pre| + |l| - 1;
  }

  lemma FirstLine(pre: string, l: string, post: string)
    requires WholeLine(l)
    ensures Lines(pre + l + post, |pre|) == [l] + Lines(pre + l + post, |pre + l|)
  {
    var text := pre + l + post;
    ChunkIsLine(pre, l, post);
    assert text[|pre|..|pre| + |l|] == l;
  }

  lemma {:induction false} LinesOfRender(pre: string, ls: seq<string>)
    requires All(WholeLine, ls)
    ensures Lines(pre + Render(ls), |pre|) == ls
    decreases |ls|
  {
    if ls == [] {
      assert pre + Render(ls) == pre;
    } else {
      var l, post := ls[0], Render(ls[1..]);
      assert l in ls;
      assert pre + l + post == pre + Render(ls);
      FirstLine(pre, l, post);
      LinesOfRender(pre + l, ls[1..]);
      assert ls == [l] + ls[1..];
    }
  }

  /** What one `fgets` may return: at most 1023 characters, complete unless the buffer is full or the
      text ends. */
  predicate Chunk(text: string, i: nat, l: string) {
    && 0 < |l| <= 1023 && i + |l| <= |text| && l == text[i..i + |l|]
    && (forall j :: i <= j < i + |l| - 1 ==> text[j] != '\n')
    && (l[|l| - 1] == '\n' || |l| == 1023 || i + |l| == |text|)
  }

  lemma ChunkShape(text: string, i: nat)
    requires i < |text|
    ensures Chunk(text, i, text[i..ChunkEnd(text, i)])
  {
    var nl := Find(text, '\n', i);
  }

  /** Reading line by line loses nothing of any text and never overruns the buffer. */
  lemma {:induction false} LinesCover(text: string, i: nat)
    requires i <= |text|
    ensures Render(Lines(text, i)) == text[i..]
    ensures forall l :: l in Lines(text, i) ==> 0 < |l| <= 1023
    decreases |text| - i
  {
    if i < |text| {
      var e := ChunkEnd(text, i);
      LinesCover(text, e);
      ChunkFits(text, i);
      CoverStep(text, i, e, text[i..e], Lines(text, e));
    }
  }

  lemma ChunkFits(text: string, i: nat)
    requires i < |text|
    ensures i < ChunkEnd(text, i) <= |text| && ChunkEnd(text, i) - i <= 1023
  {
    ChunkShape(text, i);
  }

  lemma CoverStep(text: string, i: nat, e: nat, l: string, rest: seq<string>)
    requires i < e <= |text| && e - i <= 1023 && l == text[i..e]
    requires Render(rest) == text[e..] && forall k :: k in rest ==> 0 < |k| <= 1023
    ensures Render([l] + rest) == text[i..]
    ensures forall k :: k in [l] + rest ==> 0 < |k| <= 1023
  {
    assert ([l] + rest)[1..] == rest;
    assert text[i..] == text[i..e] + text[e..];
  }

  /** Pieces as long as `fgets` makes them: a newline only ends one, and all but the last end in one or are full. */
  predicate Greedy(ls: seq<string>) {
    && (forall l, j {:trigger l[j], l in ls} :: l in ls && 0 <= j < |l| - 1 ==> l[j] != '\n')
    && (forall k {:trigger ls[k]} :: 0 <= k < |ls| - 1 ==>
          |ls[k]| == 1023 || (ls[k] != "" && ls[k][|ls[k]| - 1] == '\n'))
  }

  /** Together with `LinesCover`: the pieces are the only ones `fgets` can return. */
  lemma {:induction false} LinesGreedy(text: string, i: nat)
    requires i <= |text|
    ensures Greedy(Lines(text, i))
    decreases |text| - i
  {
    if i < |text| {
      ChunkShape(text, i);
      var e := ChunkEnd(text, i);
      LinesGreedy(text, e);
      GreedyStep(text, i, e, text[i..e], Lines(text, e));
    }
  }

  lemma GreedyStep(text: string, i: nat, e: nat, l: string, rest: seq<string>)
    requires i < e <= |text| && l == text[i..e] && Chunk(text, i, l) && Greedy(rest) && (rest == [] <==> e == |text|)
    ensures Greedy([l] + rest)
  {
    assert forall j :: 0 <= j < |l| ==> l[j] == text[i + j];
  }

  lemma LineIsWhole(p: Pair)
    requires Clean(p.key) && Clean(p.value) && |p.key| <= 63 && |p.value| <= 900
    ensures WholeLine(Line(p))
  {
    var l := Line(p);
    assert l[..|l| - 1] == "    " + p.key + " " + p.value;
  }

  // ---- numbers and forwards --------------------------------------------

  predicate NumberChars(s: string) {
    s != "" && forall i :: 0 <= i < |s| ==> IsDigit(s[i]) || s[i] == '-'
  }

  lemma NumberAt(pre: string, n: int)
    requires IsInt32(n)
    ensures ReadInt(pre + FormatInt(n), |pre|) == n
    ensures NumberChars(FormatInt(n)) && |FormatInt(n)| <= 11
  {
    AtoiFormat(n);
    var m: nat := if n < 0 then -n else n;
    var sign := if n < 0 then "-" else "";
    var s := pre + FormatInt(n);
    assert s == (pre + sign) + Digits(m) + "";
    ReadDigitsBack(pre + sign, m, "");
    assert SpaceEnd(s, |pre|) == |pre|;
    assert NumberStart(s, |pre|) == |pre| + |sign|;
  }

  /** Splitting `addr:port` at its first colon gives the two back. */
  lemma FirstColon(addr: string, num: string)
    requires Lacks(addr, ':') && NumberChars(num)
    ensures Find(addr + ":" + num, ':') == |addr|
    ensures (addr + ":" + num)[..|addr|] == addr
  {
    var s := addr + ":" + num;
    assert forall j :: 0 <= j < |addr| ==> s[j] == addr[j];
    assert s[|addr|] == ':';
  }

  /** Splitting `host:port` at its last colon does, whatever the host contains. */
  lemma LastColon(host: string, num: string)
    requires NumberChars(num)
    ensures var s := host + ":" + num; FindLast(s, ':', |s|) == |host|
    ensures (host + ":" + num)[..|host|] == host
  {
    var s := host + ":" + num;
    assert forall j :: 0 <= j < |num| ==> s[|host| + 1 + j] == num[j];
    assert s[|host|] == ':';
    assert forall j :: |host| < j < |s| ==> s[j] == num[j - |host| - 1];
  }

  lemma ReadSpaceForward(f: Forward)
    requires ForwardShape(f)
    ensures SpaceForward(f.bindAddr + ":" + FormatInt(f.bindPort), f.remoteHost + ":" + FormatInt(f.remotePort))
            == Checked(f)
  {
    var bind := f.bindAddr + ":" + FormatInt(f.bindPort);
    var remote := f.remoteHost + ":" + FormatInt(f.remotePort);
    NumberAt(f.bindAddr + ":", f.bindPort);
    NumberAt(f.remoteHost + ":", f.remotePort);
    FirstColon(f.bindAddr, FormatInt(f.bindPort));
    LastColon(f.remoteHost, FormatInt(f.remotePort));
  }

  lemma FirstGap(a: string, b: string)
    requires Lacks(a, ' ') && (b != "" ==> !IsBlank(b[0]))
    ensures var s := a + " " + b;
            FindGap(s) == |a| && s[..|a|] == a && s[BlankEnd(s, |a| + 1)..] == b
  {
    var s := a + " " + b;
    assert forall j :: 0 <= j < |a| ==> s[j] == a[j];
    assert s[|a|] == ' ';
    assert Find(s, ' ') == |a|;
    assert b != "" ==> s[|a| + 1] == b[0];
    assert BlankEnd(s, |a| + 1) == |a| + 1;
  }

  lemma GapForward(bind: string, remote: string)
    requires Lacks(bind, ' ') && (remote != "" ==> !IsBlank(remote[0])) && |bind + " " + remote| <= 511
    ensures ParseForward(bind + " " + remote) == SpaceForward(bind, remote)
  {
    FirstGap(bind, remote);
  }

  /** The text of a forward: what it is read back as, and that the line reader takes it unchanged. */
  lemma ReadForward(f: Forward)
    requires ForwardShape(f)
    ensures var t := ForwardText(f);
            ParseForward(t) == (if f.bindPort > 0 && f.remotePort > 0 then Some(f) else None)
            && Clean(t) && Trimmed(t) && t != "" && |t| <= 400
  {
    NumberAt("", f.bindPort);
    NumberAt("", f.remotePort);
    TextShape(f);
    ReadForwardText(f, f.bindAddr + ":" + FormatInt(f.bindPort), f.remoteHost + ":" + FormatInt(f.remotePort));
  }

  lemma ReadForwardText(f: Forward, bind: string, remote: string)
    requires ForwardShape(f) && NumberChars(FormatInt(f.bindPort)) && NumberChars(FormatInt(f.remotePort))
    requires bind == f.bindAddr + ":" + FormatInt(f.bindPort) && remote == f.remoteHost + ":" + FormatInt(f.remotePort)
    requires Lacks(bind, ' ') && remote != "" && !IsBlank(remote[0]) && |bind| <= 90 && |remote| <= 280
    ensures ParseForward(ForwardText(f)) == Checked(f) && |ForwardText(f)| <= 400
  {
    assert ForwardText(f) == bind + " " + remote;
    GapForward(bind, remote);
    ReadSpaceForward(f);
  }

  lemma TextShape(f: Forward)
    requires ForwardShape(f) && NumberChars(FormatInt(f.bindPort)) && NumberChars(FormatInt(f.remotePort))
    ensures Lacks(f.bindAddr + ":" + FormatInt(f.bindPort), ' ')
    ensures !IsBlank((f.remoteHost + ":" + FormatInt(f.remotePort))[0])
    ensures Clean(ForwardText(f)) && Trimmed(ForwardText(f))
  {
    var p, q := FormatInt(f.bindPort), FormatInt(f.remotePort);
    var t := ForwardText(f);
    assert t[|t| - 1] == q[|q| - 1];
    assert forall c :: c in t ==> c in f.bindAddr || c in p || c in f.remoteHost || c in q || c == ':' || c == ' ';
    assert forall i :: 0 <= i < |t| ==> t[i] in t;
  }

  lemma ReadDynamic(d: Dynamic)
    requires DynamicShape(d)
    ensures var t := DynamicText(d);
            ParseDynamic(t) == d && Clean(t) && Trimmed(t) && t != "" && |t| <= 400
  {
    var p := FormatInt(d.bindPort);
    var t := DynamicText(d);
    NumberAt(d.bindAddr + ":", d.bindPort);
    FirstColon(d.bindAddr, p);
    assert t[|t| - 1] == p[|p| - 1];
    assert BlankEnd(t, 0) == 0 && t[0..] == t;
  }
}
