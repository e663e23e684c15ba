/** The config file as a batch: lines, directives, blocks. This is the specification the
    one-pass reader of `SshReader` is proved against. */
module SshParse {
  import opened CText
  import opened SshBlocks
  import opened SshHost

  /** What one `fgets` into the line buffer takes at most. */
  const LINE_MAX := 1023

  /** Where the `fgets` that starts at `i` stops. */
  function ChunkEnd(text: string, i: nat): (r: nat)
    requires i < |text|
    ensures i < r <= |text|
  {
    var nl := Find(text, '\n', i);
    var e := if nl < |text| then nl + 1 else nl;
    if e - i <= LINE_MAX then e else i + LINE_MAX
  }

  function Lines(text: string, i: nat): seq<string>
    requires i <= |text|
    decreases |text| - i
  {
    if i == |text| then [] else [text[i..ChunkEnd(text, i)]] + Lines(text, ChunkEnd(text, i))
  }

  /** The first of '=' and the first gap. */
  function SplitAt(s: string): nat {
    var eq, gap := Find(s, '='), FindGap(s);
    if eq < gap then eq else gap
  }

  /** The keyword and value of a trimmed line, if it has both. */
  function SplitLine(s: string): Maybe<Item> {
    if s == "" || s[0] == '#' then None else
      var sep := SplitAt(s);
      if sep == |s| || sep == 0 || sep > 63 then None else
        var key, value := s[..sep], Cut(Trim(s[sep + 1..]), 959);
        Some(if KwEq(key, "Host") then HostLine(value) else OtherLine(key, value))
  }

  function ParseLine(raw: string): Maybe<Item> {
    SplitLine(Trim(raw[..LineEnd(raw, 0)]))
  }

  /** The directives a line reader finds among `lines`, in order. */
  function Items(read: string -> Maybe<Item>, lines: seq<string>): seq<Item> {
    if lines == [] then [] else
      var rest := Items(read, lines[1..]);
      match read(lines[0])
      case Some(d) => [d] + rest
      case None => rest
  }

  /** What an `ssh_config` fills the block structure with. */
  function SshRules(home: string): Rules<Host> {
    Rules(EMPTY_HOST,
          value => if HasWildcard(value) then None else Some(NewHost(value)),
          (h, key, value) => ProcessKv(home, h, key, value),
          (h, global) => ApplyDefaults(h, global))
  }

  function ParseConfig(home: string, text: string): seq<Host> {
    ReadAll(SshRules(home), Items(ParseLine, Lines(text, 0)))
  }

  lemma {:induction false} ItemsConcat(read: string -> Maybe<Item>, a: seq<string>, b: seq<string>)
    ensures Items(read, a + b) == Items(read, a) + Items(read, b)
  {
    if a == [] {
      assert a + b == b;
    } else {
      assert (a + b)[1..] == a[1..] + b;
      ItemsConcat(read, a[1..], b);
    }
  }

  // ---- every parsed host has the shape of a parsed host -----------------

  predicate ItemShape(d: Item) {
    match d
    case HostLine(value) => Clean(value) && Lead(value)
    case OtherLine(key, value) =>
      KeyShape(key) && !KwEq(key, "Host") && Clean(value) && Lead(value) && (value == "" ==> Lacks(key, '\t'))
  }

  lemma KeyPart(s: string, sep: nat)
    requires Clean(s) && Trimmed(s) && s != "" && s[0] != '#' && sep == SplitAt(s) && 0 < sep < |s| && sep <= 63
    ensures KeyShape(s[..sep])
  {
  }

  lemma ValuePart(rest: string)
    requires Clean(rest)
    ensures var v := Cut(Trim(rest), 959); Clean(v) && Lead(v)
    ensures rest != "" && !IsSpace(rest[|rest| - 1]) ==> Cut(Trim(rest), 959) != ""
  {
    TrimFacts(rest);
  }

  /** Behind a keyword with a tab in it there is a space somewhere, and so a value. */
  lemma TabMeansValue(s: string, sep: nat)
    requires Trimmed(s) && sep == SplitAt(s) && 0 < sep < |s| && !Lacks(s[..sep], '\t')
    ensures s[sep + 1..] != "" && !IsSpace(s[sep + 1..][|s[sep + 1..]| - 1])
  {
    var rest := s[sep + 1..];
    assert rest != "" && rest[|rest| - 1] == s[|s| - 1];
  }

  lemma SplitLineShape(s: string)
    requires Clean(s) && Trimmed(s) && SplitLine(s).Some?
    ensures ItemShape(SplitLine(s).value)
  {
    var sep := SplitAt(s);
    KeyPart(s, sep);
    ValuePart(s[sep + 1..]);
    if !Lacks(s[..sep], '\t') { TabMeansValue(s, sep); }
  }

  lemma ParseLineShape(raw: string)
    requires ParseLine(raw).Some?
    ensures ItemShape(ParseLine(raw).value)
  {
    TrimFacts(raw[..LineEnd(raw, 0)]);
    SplitLineShape(Trim(raw[..LineEnd(raw, 0)]));
  }

  predicate Shaped(ds: seq<Item>) {
    forall d :: d in ds ==> ItemShape(d)
  }

  lemma {:induction false} ItemsShape(lines: seq<string>)
    ensures Shaped(Items(ParseLine, lines))
  {
    if lines != [] {
      ItemsShape(lines[1..]);
      if ParseLine(lines[0]).Some? {
        ParseLineShape(lines[0]);
      }
    }
  }

  lemma ApplyShape(home: string, h: Host, d: Item)
    requires HomeOk(home) && FieldsShape(h) && ItemShape(d) && d.OtherLine?
    ensures var f := SshRules(home).apply(h, d.key, d.value);
            FieldsShape(f) && f.name == h.name && (0 < h.port <= 65535 ==> 0 < f.port <= 65535)
  {
    ProcessKvShape(home, h, d.key, d.value);
  }

  lemma {:induction false} FoldShape(home: string, h: Host, ds: seq<Item>)
    requires HomeOk(home) && FieldsShape(h) && Shaped(ds) && NoHost(ds)
    ensures var f := Fold(SshRules(home), h, ds);
            FieldsShape(f) && f.name == h.name && (0 < h.port <= 65535 ==> 0 < f.port <= 65535)
  {
    if ds != [] {
      var d := ds[|ds| - 1];
      FoldShape(home, h, ds[..|ds| - 1]);
      ApplyShape(home, Fold(SshRules(home), h, ds[..|ds| - 1]), d);
    }
  }

  lemma BlockShape(home: string, global: Host, value: string, body: seq<Item>)
    requires HomeOk(home) && FieldsShape(global) && Clean(value) && Lead(value) && Shaped(body) && NoHost(body)
    ensures forall h :: h in Block(SshRules(home), global, value, body) ==> HostShape(h)
  {
    if !HasWildcard(value) {
      NewHostShape(value);
      FoldShape(home, NewHost(value), body);
      ApplyDefaultsShape(Fold(SshRules(home), NewHost(value), body), global);
    }
  }

  lemma {:induction false} BlocksShape(home: string, global: Host, ds: seq<Item>)
    requires HomeOk(home) && FieldsShape(global) && Shaped(ds)
    requires ds != [] ==> ds[0].HostLine?
    ensures forall h :: h in ReadBlocks(SshRules(home), global, ds) ==> HostShape(h)
    decreases |ds|
  {
    if ds != [] {
      var e := NextHost(ds, 1);
      BlocksShape(home, global, ds[e..]);
      assert ItemShape(ds[0]);
      BlockShape(home, global, ds[0].value, ds[1..e]);
    }
  }

  /** Whatever the text, a parsed host obeys every bound and character rule of `HostShape`. */
  lemma ParsedShape(home: string, text: string)
    requires HomeOk(home)
    ensures forall h :: h in ParseConfig(home, text) ==> HostShape(h)
  {
    var ds := Items(ParseLine, Lines(text, 0));
    var e := NextHost(ds, 0);
    ItemsShape(Lines(text, 0));
    FoldShape(home, EMPTY_HOST, ds[..e]);
    BlocksShape(home, Global(SshRules(home), ds), ds[e..]);
  }

  // ---- what a block inherits ---------------------------------------------

  lemma PortStays(home: string, h: Host, key: string, val: string)
    requires h.port > 0
    ensures ProcessKv(home, h, key, val).port > 0
  {
  }

  lemma {:induction false} FoldPort(r: Rules<Host>, h: Host, ds: seq<Item>)
    requires NoHost(ds) && h.port > 0
    requires forall m: Host, key, val {:trigger r.apply(m, key, val)} :: m.port > 0 ==> r.apply(m, key, val).port > 0
    ensures Fold(r, h, ds).port > 0
  {
    if ds != [] { FoldPort(r, h, ds[..|ds| - 1]); }
  }

  lemma MergesSame(h: Host, g: Host, g2: Host)
    requires h.port > 0
    requires g2.hostname == g.hostname && g2.user == g.user && g2.identityFile == g.identityFile
    requires g2.proxyJump == g.proxyJump && g2.options == g.options
    ensures ApplyDefaults(h, g) == ApplyDefaults(h, g2)
  {
  }

  lemma BlockInherits(home: string, g: Host, g2: Host, value: string, body: seq<Item>)
    requires NoHost(body)
    requires g2.hostname == g.hostname && g2.user == g.user && g2.identityFile == g.identityFile
    requires g2.proxyJump == g.proxyJump && g2.options == g.options
    ensures Block(SshRules(home), g, value, body) == Block(SshRules(home), g2, value, body)
  {
    var r := SshRules(home);
    forall m: Host, key, val | m.port > 0 ensures r.apply(m, key, val).port > 0 {
      PortStays(home, m, key, val);
    }
    if r.open(value).Some? {
      var h := r.open(value).value;
      FoldPort(r, h, body);
      MergesSame(Fold(r, h, body), g, g2);
    }
  }

  /** A host inherits no more than the host name, user, identity file, jump host and generic options
      given before the first `Host`: a port or a forward there has no effect on any host. */
  lemma {:induction false} OnlyFiveInherited(home: string, g: Host, g2: Host, ds: seq<Item>)
    requires ds != [] ==> ds[0].HostLine?
    requires g2.hostname == g.hostname && g2.user == g.user && g2.identityFile == g.identityFile
    requires g2.proxyJump == g.proxyJump && g2.options == g.options
    ensures ReadBlocks(SshRules(home), g, ds) == ReadBlocks(SshRules(home), g2, ds)
    decreases |ds|
  {
    if ds != [] {
      var e := NextHost(ds, 1);
      BlockInherits(home, g, g2, ds[0].value, ds[1..e]);
      OnlyFiveInherited(home, g, g2, ds[e..]);
    }
  }
}
