/** What a block of a config file means, in terms of the lines it consists of: which line decides
    each field, whatever the case of its keyword, and what is inherited. */
module SshMeaning {
  import opened CText
  import opened SshBlocks
  import opened SshHost
  import opened SshParse

  // ---- keywords ----------------------------------------------------------

  /** An upper-case letter and the lower-case one. */
  predicate CasePair(upper: char, lower: char) {
    'A' <= upper <= 'Z' && lower as int == upper as int + 32
  }

  predicate SameButCase(a: string, b: string) {
    |a| == |b| && forall i :: 0 <= i < |a| ==> a[i] == b[i] || CasePair(a[i], b[i]) || CasePair(b[i], a[i])
  }

  lemma LowerMeans(c: char, d: char)
    ensures Lower(c) == Lower(d) <==> c == d || CasePair(c, d) || CasePair(d, c)
  {
  }

  lemma KeywordsMatch(a: string, b: string)
    ensures KwEq(a, b) <==> SameButCase(a, b)
  {
    if |a| == |b| {
      forall i | 0 <= i < |a|
        ensures Lower(a[i]) == Lower(b[i]) <==> a[i] == b[i] || CasePair(a[i], b[i]) || CasePair(b[i], a[i])
      {
        LowerMeans(a[i], b[i]);
      }
    }
  }

  /** A keyword in any case is that keyword, and no other. */
  lemma AnyCase(key: string)
    ensures Classify(key) == HostNameKw <==> SameButCase(key, "HostName")
    ensures Classify(key) == UserKw <==> SameButCase(key, "User")
    ensures Classify(key) == PortKw <==> SameButCase(key, "Port")
    ensures Classify(key) == IdentityKw <==> SameButCase(key, "IdentityFile")
    ensures Classify(key) == ProxyKw <==> SameButCase(key, "ProxyJump")
    ensures Classify(key) == LocalKw <==> SameButCase(key, "LocalForward")
    ensures Classify(key) == RemoteKw <==> SameButCase(key, "RemoteForward")
    ensures Classify(key) == DynamicKw <==> SameButCase(key, "DynamicForward")
  {
    KeywordsMatch(key, "HostName");
    KeywordsMatch(key, "User");
    KeywordsMatch(key, "Port");
    KeywordsMatch(key, "IdentityFile");
    KeywordsMatch(key, "ProxyJump");
    KeywordsMatch(key, "LocalForward");
    KeywordsMatch(key, "RemoteForward");
    KeywordsMatch(key, "DynamicForward");
    assert "User"[0] == 'U' && "Port"[0] == 'P' && "IdentityFile"[0] == 'I' && "LocalForward"[0] == 'L';
    assert Lower('U') != Lower('P') && Lower('I') != Lower('L');
  }

  // ---- the lines of a block ----------------------------------------------

  predicate Is(d: Item, keyword: string) {
    d.OtherLine? && SameButCase(d.key, keyword)
  }

  /** The value of the last line with a keyword. */
  function LastOf(ds: seq<Item>, keyword: string): Maybe<string> {
    if ds == [] then None
    else if Is(ds[|ds| - 1], keyword) then Some(ds[|ds| - 1].value)
    else LastOf(ds[..|ds| - 1], keyword)
  }

  predicate IsPort(d: Item) {
    Is(d, "Port") && 1 <= Atoi(d.value) <= 65535
  }

  /** The number of the last line that gives a port a host can have. */
  function LastPort(ds: seq<Item>): Maybe<int> {
    if ds == [] then None
    else if IsPort(ds[|ds| - 1]) then Some(Atoi(ds[|ds| - 1].value))
    else LastPort(ds[..|ds| - 1])
  }

  /** The forwards of all lines with a keyword whose value can be read, in order. */
  function ForwardsOf(ds: seq<Item>, keyword: string): seq<Forward> {
    if ds == [] then [] else
      var d := ds[|ds| - 1];
      ForwardsOf(ds[..|ds| - 1], keyword)
      + (if Is(d, keyword) && ParseForward(d.value).Some? then [ParseForward(d.value).value] else [])
  }

  function DynamicsOf(ds: seq<Item>): seq<Dynamic> {
    if ds == [] then [] else
      DynamicsOf(ds[..|ds| - 1])
      + (if Is(ds[|ds| - 1], "DynamicForward") then [ParseDynamic(ds[|ds| - 1].value)] else [])
  }

  predicate IsGeneric(d: Item) {
    && d.OtherLine?
    && !Is(d, "HostName") && !Is(d, "User") && !Is(d, "Port") && !Is(d, "IdentityFile") && !Is(d, "ProxyJump")
    && !Is(d, "LocalForward") && !Is(d, "RemoteForward") && !Is(d, "DynamicForward")
  }

  function GenericsOf(ds: seq<Item>): seq<HostOption> {
    if ds == [] then [] else
      var d := ds[|ds| - 1];
      GenericsOf(ds[..|ds| - 1]) + (if IsGeneric(d) then [HostOption(Cut(d.key, 63), Cut(d.value, 255))] else [])
  }

  function AtMost<T>(xs: seq<T>, n: nat): seq<T> {
    if |xs| <= n then xs else xs[..n]
  }

  // ---- what one line changes ---------------------------------------------

  lemma LineScalars(home: string, h: Host, d: Item)
    requires d.OtherLine?
    ensures var f := ProcessKv(home, h, d.key, d.value);
            && f.name == h.name
            && f.hostname == (if Is(d, "HostName") then Cut(d.value, 255) else h.hostname)
            && f.user == (if Is(d, "User") then Cut(d.value, 63) else h.user)
            && f.identityFile == (if Is(d, "IdentityFile") then ExpandTilde(home, d.value, 511) else h.identityFile)
            && f.proxyJump == (if Is(d, "ProxyJump") then Cut(d.value, 127) else h.proxyJump)
            && f.port == (if IsPort(d) then Atoi(d.value) else h.port)
  {
    AnyCase(d.key);
  }

  lemma LineLists(home: string, h: Host, d: Item)
    requires d.OtherLine?
    ensures var f := ProcessKv(home, h, d.key, d.value);
            && f.local == (if Is(d, "LocalForward") then AddForward(h.local, d.value) else h.local)
            && f.remote == (if Is(d, "RemoteForward") then AddForward(h.remote, d.value) else h.remote)
            && f.dynamic == (if Is(d, "DynamicForward") && |h.dynamic| < 16
                             then h.dynamic + [ParseDynamic(d.value)] else h.dynamic)
            && f.options == (if IsGeneric(d) && |h.options| < 32
                             then h.options + [HostOption(Cut(d.key, 63), Cut(d.value, 255))] else h.options)
  {
    AnyCase(d.key);
  }

  lemma AtMostSnoc<T>(xs: seq<T>, x: T, n: nat)
    ensures AtMost(xs + [x], n) == if |AtMost(xs, n)| < n then AtMost(xs, n) + [x] else AtMost(xs, n)
  {
  }

  lemma AddedAtMost(fs: seq<Forward>, v: string)
    ensures AddForward(AtMost(fs, 16), v)
         == AtMost(fs + (if ParseForward(v).Some? then [ParseForward(v).value] else []), 16)
  {
    if ParseForward(v).Some? {
      AtMostSnoc(fs, ParseForward(v).value, 16);
    } else {
      assert fs + [] == fs;
    }
  }

  /** The single-valued fields of a record that lines have been applied to: the last line wins. */
  lemma {:induction false} FoldScalars(home: string, h: Host, ds: seq<Item>)
    requires NoHost(ds)
    ensures var f := Fold(SshRules(home), h, ds);
            && f.name == h.name
            && f.hostname ==
               (if LastOf(ds, "HostName").Some? then Cut(LastOf(ds, "HostName").value, 255) else h.hostname)
            && f.user == (if LastOf(ds, "User").Some? then Cut(LastOf(ds, "User").value, 63) else h.user)
            && f.identityFile == (if LastOf(ds, "IdentityFile").Some?
                                  then ExpandTilde(home, LastOf(ds, "IdentityFile").value, 511) else h.identityFile)
            && f.proxyJump == (if LastOf(ds, "ProxyJump").Some? then Cut(LastOf(ds, "ProxyJump").value, 127)
                               else h.proxyJump)
            && f.port == (if LastPort(ds).Some? then LastPort(ds).value else h.port)
  {
    if ds != [] {
      FoldScalars(home, h, ds[..|ds| - 1]);
      LineScalars(home, Fold(SshRules(home), h, ds[..|ds| - 1]), ds[|ds| - 1]);
    }
  }

  /** The lists: everything that can be read, in order, up to the size of the table. */
  lemma {:induction false} FoldLists(home: string, h: Host, ds: seq<Item>)
    requires NoHost(ds) && h.local == [] && h.remote == [] && h.dynamic == [] && h.options == []
    ensures var f := Fold(SshRules(home), h, ds);
            && f.local == AtMost(ForwardsOf(ds, "LocalForward"), 16)
            && f.remote == AtMost(ForwardsOf(ds, "RemoteForward"), 16)
            && f.dynamic == AtMost(DynamicsOf(ds), 16)
            && f.options == AtMost(GenericsOf(ds), 32)
  {
    if ds != [] {
      var front, d := ds[..|ds| - 1], ds[|ds| - 1];
      FoldLists(home, h, front);
      LineLists(home, Fold(SshRules(home), h, front), d);
      ListsGrow(front, d, ds);
    }
  }

  lemma ListsGrow(front: seq<Item>, d: Item, ds: seq<Item>)
    requires ds != [] && ds[..|ds| - 1] == front && ds[|ds| - 1] == d && d.OtherLine?
    ensures AtMost(ForwardsOf(ds, "LocalForward"), 16) == GrownForwards(front, d, "LocalForward")
    ensures AtMost(ForwardsOf(ds, "RemoteForward"), 16) == GrownForwards(front, d, "RemoteForward")
    ensures AtMost(DynamicsOf(ds), 16) ==
            if Is(d, "DynamicForward") && |AtMost(DynamicsOf(front), 16)| < 16
            then AtMost(DynamicsOf(front), 16) + [ParseDynamic(d.value)] else AtMost(DynamicsOf(front), 16)
    ensures AtMost(GenericsOf(ds), 32) ==
            if IsGeneric(d) && |AtMost(GenericsOf(front), 32)| < 32
            then AtMost(GenericsOf(front), 32) + [HostOption(Cut(d.key, 63), Cut(d.value, 255))]
            else AtMost(GenericsOf(front), 32)
  {
    ForwardsGrow(front, d, ds, "LocalForward");
    ForwardsGrow(front, d, ds, "RemoteForward");
    AtMostSnoc(DynamicsOf(front), ParseDynamic(d.value), 16);
    AtMostSnoc(GenericsOf(front), HostOption(Cut(d.key, 63), Cut(d.value, 255)), 32);
    assert DynamicsOf(front) + [] == DynamicsOf(front) && GenericsOf(front) + [] == GenericsOf(front);
  }

  function GrownForwards(front: seq<Item>, d: Item, keyword: string): seq<Forward>
    requires d.OtherLine?
  {
    var fs := AtMost(ForwardsOf(front, keyword), 16);
    if Is(d, keyword) then AddForward(fs, d.value) else fs
  }

  lemma ForwardsGrow(front: seq<Item>, d: Item, ds: seq<Item>, keyword: string)
    requires ds != [] && ds[..|ds| - 1] == front && ds[|ds| - 1] == d && d.OtherLine?
    ensures AtMost(ForwardsOf(ds, keyword), 16) == GrownForwards(front, d, keyword)
  {
    AddedAtMost(ForwardsOf(front, keyword), d.value);
    assert ForwardsOf(front, keyword) + [] == ForwardsOf(front, keyword);
  }

  // ---- what a block means --------------------------------------------------

  /** No '*' and no '?' in it. */
  predicate Plain(pattern: string) {
    forall i :: 0 <= i < |pattern| ==> pattern[i] != '*' && pattern[i] != '?'
  }

  /** The first of two texts that is not empty, the host's own one first. */
  function Or(own: string, global: string): string {
    if own != "" then own else global
  }

  function TextOf(ds: seq<Item>, keyword: string, max: nat): string {
    if LastOf(ds, keyword).Some? then Cut(LastOf(ds, keyword).value, max) else ""
  }

  function IdentityOf(home: string, ds: seq<Item>): string {
    if LastOf(ds, "IdentityFile").Some? then ExpandTilde(home, LastOf(ds, "IdentityFile").value, 511) else ""
  }

  /** `h` is what a block `Host value` with the lines `body` means, `before` being the lines before the
      first `Host` of the file. */
  predicate Means(home: string, before: seq<Item>, value: string, body: seq<Item>, h: Host) {
    && h.name == Cut(value, 127)
    && h.hostname == Or(if LastOf(body, "HostName").Some? then TextOf(body, "HostName", 255) else Cut(value, 255),
                        TextOf(before, "HostName", 255))
    && h.user == Or(TextOf(body, "User", 63), TextOf(before, "User", 63))
    && h.identityFile == Or(IdentityOf(home, body), IdentityOf(home, before))
    && h.proxyJump == Or(TextOf(body, "ProxyJump", 127), TextOf(before, "ProxyJump", 127))
    && h.port == (if LastPort(body).Some? then LastPort(body).value else 22)
    && h.local == AtMost(ForwardsOf(body, "LocalForward"), 16)
    && h.remote == AtMost(ForwardsOf(body, "RemoteForward"), 16)
    && h.dynamic == AtMost(DynamicsOf(body), 16)
    && h.options == MergeOptions(AtMost(GenericsOf(body), 32), AtMost(GenericsOf(before), 32))
  }

  lemma {:induction false} PortFound(ds: seq<Item>)
    ensures LastPort(ds).Some? ==> 1 <= LastPort(ds).value <= 65535
  {
    if ds != [] { PortFound(ds[..|ds| - 1]); }
  }

  lemma RecordMeans(home: string, before: seq<Item>, value: string, body: seq<Item>, own: Host, global: Host)
    requires NoHost(before) && NoHost(body)
    requires own == Fold(SshRules(home), NewHost(value), body) && global == Fold(SshRules(home), EMPTY_HOST, before)
    ensures Means(home, before, value, body, ApplyDefaults(own, global))
  {
    FoldScalars(home, NewHost(value), body);
    FoldLists(home, NewHost(value), body);
    FoldScalars(home, EMPTY_HOST, before);
    FoldLists(home, EMPTY_HOST, before);
    PortFound(body);
  }

  lemma BlockMeans(home: string, before: seq<Item>, value: string, body: seq<Item>, global: Host)
    requires NoHost(before) && NoHost(body) && global == Fold(SshRules(home), EMPTY_HOST, before)
    ensures var hs := Block(SshRules(home), global, value, body);
            if Plain(value) then |hs| == 1 && Means(home, before, value, body, hs[0]) else hs == []
  {
    RecordMeans(home, before, value, body, Fold(SshRules(home), NewHost(value), body), global);
  }

  // ---- what a file means ---------------------------------------------------

  lemma FirstHost(before: seq<Item>, rest: seq<Item>)
    requires NoHost(before) && rest != [] && rest[0].HostLine?
    ensures NextHost(before + rest, 0) == |before| && (before + rest)[..|before|] == before
    ensures (before + rest)[|before|..] == rest
  {
    var ds := before + rest;
    assert forall i :: 0 <= i < |before| ==> ds[i] == before[i];
    assert ds[|before|] == rest[0];
  }

  /** Any block of any file: what precedes the first `Host`, other blocks, this one, and others again.
      The hosts are those of the other blocks and between them the one this block means, or none if
      its pattern holds a wildcard. */
  lemma FileMeans(home: string, before: seq<Item>, mid: seq<Item>, value: string, body: seq<Item>, rest: seq<Item>)
    returns (x: seq<Host>, hs: seq<Host>, y: seq<Host>)
    requires NoHost(before) && NoHost(body)
    requires (mid != [] ==> mid[0].HostLine?) && (rest != [] ==> rest[0].HostLine?)
    ensures ReadAll(SshRules(home), before + (mid + (([HostLine(value)] + body) + rest))) == x + (hs + y)
    ensures if Plain(value) then |hs| == 1 && Means(home, before, value, body, hs[0]) else hs == []
    ensures x == ReadBlocks(SshRules(home), Fold(SshRules(home), EMPTY_HOST, before), mid)
    ensures y == ReadBlocks(SshRules(home), Fold(SshRules(home), EMPTY_HOST, before), rest)
  {
    var r := SshRules(home);
    var global, block := Fold(r, EMPTY_HOST, before), [HostLine(value)] + body;
    FirstHost(before, mid + (block + rest));
    BlocksConcat(r, global, mid, block + rest);
    BlocksConcat(r, global, block, rest);
    LastBlock(r, global, value, body);
    BlockMeans(home, before, value, body, global);
    x, hs, y := ReadBlocks(r, global, mid), Block(r, global, value, body), ReadBlocks(r, global, rest);
  }

  function Names(hs: seq<Host>): seq<string> {
    seq(|hs|, i requires 0 <= i < |hs| => hs[i].name)
  }

  function PlainName(value: string): seq<string> {
    if Plain(value) then [Cut(value, 127)] else []
  }

  /** The patterns without wildcards, in order, in at most 127 characters. */
  function PlainNames(ds: seq<Item>): seq<string> {
    if ds == [] then [] else
      (if ds[0].HostLine? then PlainName(ds[0].value) else []) + PlainNames(ds[1..])
  }

  lemma {:induction false} NamesBehind(ds: seq<Item>, e: nat)
    requires e <= |ds| && NoHost(ds[..e])
    ensures PlainNames(ds) == PlainNames(ds[e..])
  {
    if e > 0 {
      assert ds[0] == ds[..e][0] && ds[1..][..e - 1] == ds[..e][1..] && ds[1..][e - 1..] == ds[e..];
      NamesBehind(ds[1..], e - 1);
    } else {
      assert ds[0..] == ds;
    }
  }

  lemma {:induction false} BlockNames(r: Rules<Host>, global: Host, ds: seq<Item>)
    requires ds != [] ==> ds[0].HostLine?
    requires forall value, body: seq<Item> {:trigger Block(r, global, value, body)} ::
               NoHost(body) ==> Names(Block(r, global, value, body)) == PlainName(value)
    ensures Names(ReadBlocks(r, global, ds)) == PlainNames(ds)
    decreases |ds|
  {
    if ds != [] {
      var e := NextHost(ds, 1);
      BlockNames(r, global, ds[e..]);
      assert ds[1..][..e - 1] == ds[1..e] && ds[1..][e - 1..] == ds[e..];
      NamesBehind(ds[1..], e - 1);
      NamesJoin(Block(r, global, ds[0].value, ds[1..e]), ReadBlocks(r, global, ds[e..]));
    }
  }

  lemma NamesJoin(a: seq<Host>, b: seq<Host>)
    ensures Names(a + b) == Names(a) + Names(b)
  {
  }

  /** The hosts of a file are named after exactly the `Host` patterns without '*' and '?', in order;
      so no host is called like a pattern, and no other block is lost. */
  lemma HostsAreThePlainOnes(home: string, text: string)
    ensures Names(ParseConfig(home, text)) == PlainNames(Items(ParseLine, Lines(text, 0)))
  {
    var ds := Items(ParseLine, Lines(text, 0));
    var e := NextHost(ds, 0);
    var r, global := SshRules(home), Fold(SshRules(home), EMPTY_HOST, ds[..e]);
    NamesBehind(ds, e);
    forall value, body: seq<Item> | NoHost(body)
      ensures Names(Block(r, global, value, body)) == PlainName(value)
    {
      BlockMeans(home, ds[..e], value, body, global);
    }
    BlockNames(r, global, ds[e..]);
  }

  // ---- what a line means ---------------------------------------------------

  predicate Bare(key: string) {
    key != "" && |key| <= 63 && key[0] != '#' && forall i :: 0 <= i < |key| ==> key[i] !in {'=', ' ', '\t'}
  }

  function ItemOf(key: string, rest: string): Item {
    if SameButCase(key, "Host") then HostLine(Cut(Trim(rest), 959)) else OtherLine(key, Cut(Trim(rest), 959))
  }

  lemma SplitThere(s: string, key: string, rest: string)
    requires Bare(key) && |s| == |key| + 1 + |rest| && s[..|key|] == key && s[|key| + 1..] == rest
    requires SplitAt(s) == |key|
    ensures SplitLine(s) == Some(ItemOf(key, rest))
  {
    assert s[0] == s[..|key|][0];
    KeywordsMatch(key, "Host");
  }

  /** A keyword is separated from its value by a '=', by a space, or, if there is neither of these in the
      line, by a tab; what lies around the value is trimmed. Behind a space or tab a '=' is part of
      the value. */
  lemma Separators(key: string, rest: string)
    requires Bare(key)
    ensures SplitLine(key + "=" + rest) == Some(ItemOf(key, rest))
    ensures SplitLine(key + " " + rest) == Some(ItemOf(key, rest))
    ensures Lacks(rest, ' ') ==> SplitLine(key + "\t" + rest) == Some(ItemOf(key, rest))
  {
    Separated(key, '=', rest);
    Separated(key, ' ', rest);
    Separated(key, '\t', rest);
    SplitThere(key + "=" + rest, key, rest);
    SplitThere(key + " " + rest, key, rest);
    if Lacks(rest, ' ') { SplitThere(key + "\t" + rest, key, rest); }
  }

  lemma Separated(key: string, sep: char, rest: string)
    requires Bare(key) && sep in {'=', ' ', '\t'}
    ensures var s := key + [sep] + rest;
            && s[..|key|] == key && s[|key| + 1..] == rest
            && (sep != '\t' || Lacks(rest, ' ') ==> SplitAt(s) == |key|)
  {
    var s := key + [sep] + rest;
    assert s[|key|] == sep;
    assert forall i :: 0 <= i < |key| ==> s[i] == key[i];
    assert forall i :: |key| < i < |s| ==> s[i] == rest[i - |key| - 1];
  }

  /** What follows a carriage return, a line feed or a terminator is not looked at, so that a line means the
      same whichever of the usual line ends it has. */
  lemma LineEnds(s: string, c: char, rest: string)
    requires c as int in {0, 10, 13}
    ensures ParseLine(s + [c] + rest) == ParseLine(s)
  {
    var t, e := s + [c] + rest, LineEnd(s, 0);
    assert t[|s|] == c && forall i :: 0 <= i < |s| ==> t[i] == s[i];
    assert LineEnd(t, 0) == e && t[..e] == s[..e];
  }

  /** Skipped are comments, lines without a separator, and keywords that are empty or of more than 63
      characters. */
  lemma Skipped(s: string)
    ensures SplitLine(s).None? <==>
              || s == "" || s[0] == '#' || SplitAt(s) == 0 || SplitAt(s) > 63
              || forall i :: 0 <= i < |s| ==> s[i] !in {'=', ' ', '\t'}
  {
    var sep := SplitAt(s);
    assert sep < |s| ==> s[sep] in {'=', ' ', '\t'};
  }

  /** `~/p` is the path `p` in the home directory; any other path is taken as it is. */
  lemma TildeMeans(home: string, p: string, max: nat)
    ensures |home| + 1 + |p| <= max ==> ExpandTilde(home, "~/" + p, max) == home + "/" + p
    ensures |p| <= max && (|p| < 2 || p[0] != '~' || p[1] != '/') ==> ExpandTilde(home, p, max) == p
  {
    assert ("~/" + p)[1..] == "/" + p;
    assert home + ("/" + p) == home + "/" + p;
  }
}
