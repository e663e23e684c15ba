/** Which texts survive a rewrite: what the lines of a file must be like for the hosts read from
    it to be read back unchanged. */
module Stability {
  import opened CText
  import opened SshBlocks
  import opened SshHost
  import opened SshParse
  import opened SshPrint
  import opened RoundTrip

  /** The value of an identity file before it is cut to its buffer. */
  function Expanded(home: string, v: string): string {
    if HasTilde(v) then home + v[1..] else v
  }

  /** A directive that neither loses the end of its value, nor has an empty value where one is
      needed, nor gives a forward a port that is not positive. */
  predicate Whole(home: string, d: Item) {
    if d.HostLine? then 0 < |d.value| <= 127
    else match Classify(d.key)
      case HostNameKw => 0 < |d.value| <= 255
      case UserKw => |d.value| <= 63
      case IdentityKw => |Expanded(home, d.value)| <= 511
      case ProxyKw => |d.value| <= 127
      case LocalKw => PositiveIfRead(d.value)
      case RemoteKw => PositiveIfRead(d.value)
      case OtherKw => 0 < |d.value| <= 255
      case _ => true
  }

  predicate PositiveIfRead(v: string) {
    ParseForward(v).Some? ==> Positive(ParseForward(v).value)
  }

  predicate AllWhole(home: string, ds: seq<Item>) {
    forall d :: d in ds ==> Whole(home, d)
  }

  /** The directives of every block that is not dropped are whole. */
  predicate WholeBlocks(home: string, ds: seq<Item>)
    requires ds != [] ==> ds[0].HostLine?
    decreases |ds|
  {
    ds != [] ==>
      var e := NextHost(ds, 1);
      (HasWildcard(ds[0].value) || AllWhole(home, ds[..e])) && WholeBlocks(home, ds[e..])
  }

  /** The directives of a text that can reach a host are whole. */
  predicate WholeText(home: string, text: string) {
    var ds := Items(ParseLine, Lines(text, 0));
    AllWhole(home, ds[..NextHost(ds, 0)]) && WholeBlocks(home, ds[NextHost(ds, 0)..])
  }

  // ---- values are trimmed unless their buffer is full ----------------------

  predicate TrimShape(d: Item) {
    |d.value| < 959 ==> Trimmed(d.value)
  }

  lemma CutTrimmed(s: string)
    ensures |Cut(Trim(s), 959)| < 959 ==> Trimmed(Cut(Trim(s), 959))
  {
    TrimFacts(s);
  }

  lemma LineTrimShape(s: string)
    requires SplitLine(s).Some?
    ensures TrimShape(SplitLine(s).value)
  {
    CutTrimmed(s[SplitAt(s) + 1..]);
  }

  lemma {:induction false} ItemsTrimShape(lines: seq<string>)
    ensures forall d :: d in Items(ParseLine, lines) ==> TrimShape(d)
  {
    if lines != [] {
      ItemsTrimShape(lines[1..]);
      var raw := lines[0];
      if ParseLine(raw).Some? { LineTrimShape(Trim(raw[..LineEnd(raw, 0)])); }
    }
  }

  // ---- records stay stable -------------------------------------------------

  /** What global defaults and host blocks have in common of being stable. */
  predicate FieldsStable(h: Host) {
    && Trimmed(h.hostname) && Trimmed(h.user) && Trimmed(h.proxyJump)
    && Trimmed(h.identityFile) && !HasTilde(h.identityFile)
    && (forall f :: f in h.local ==> Positive(f))
    && (forall f :: f in h.remote ==> Positive(f))
    && (forall o :: o in h.options ==> Solid(o))
  }

  predicate Named(h: Host) {
    h.name != "" && Trimmed(h.name) && h.hostname != ""
  }

  lemma ExpandedStable(home: string, v: string)
    requires HomeOk(home) && Trimmed(v) && |Expanded(home, v)| <= 511
    ensures var e := ExpandTilde(home, v, 511); Trimmed(e) && !HasTilde(e)
  {
  }

  lemma AddStable(fs: seq<Forward>, v: string)
    requires (forall f :: f in fs ==> Positive(f)) && PositiveIfRead(v)
    ensures forall f :: f in AddForward(fs, v) ==> Positive(f)
  {
  }

  lemma ShortIdentity(home: string, v: string)
    requires |Expanded(home, v)| <= 511
    ensures |v| < 959
  {
  }

  lemma DirectiveStable(home: string, h: Host, key: string, v: string)
    requires HomeOk(home) && FieldsStable(h)
    requires Whole(home, OtherLine(key, v)) && TrimShape(OtherLine(key, v))
    ensures FieldsStable(ProcessKv(home, h, key, v))
    ensures Named(h) ==> Named(ProcessKv(home, h, key, v))
  {
    match Classify(key)
    case IdentityKw =>
      ShortIdentity(home, v);
      ExpandedStable(home, v);
    case LocalKw => AddStable(h.local, v);
    case RemoteKw => AddStable(h.remote, v);
    case _ =>
  }

  lemma {:induction false} FoldStable(home: string, h: Host, ds: seq<Item>)
    requires HomeOk(home) && FieldsStable(h) && NoHost(ds)
    requires AllWhole(home, ds) && forall d :: d in ds ==> TrimShape(d)
    ensures FieldsStable(Fold(SshRules(home), h, ds))
    ensures Named(h) ==> Named(Fold(SshRules(home), h, ds))
  {
    if ds != [] {
      var d := ds[|ds| - 1];
      assert d in ds;
      FoldStable(home, h, ds[..|ds| - 1]);
      DirectiveStable(home, Fold(SshRules(home), h, ds[..|ds| - 1]), d.key, d.value);
    }
  }

  lemma MergeStable(h: Host, g: Host)
    requires FieldsStable(h) && Named(h) && FieldsStable(g)
    ensures Stable(ApplyDefaults(h, g))
  {
  }

  lemma NewStable(v: string)
    requires 0 < |v| <= 127 && Trimmed(v)
    ensures FieldsStable(NewHost(v)) && Named(NewHost(v))
  {
  }

  lemma BlockStable(home: string, g: Host, value: string, body: seq<Item>)
    requires HomeOk(home) && FieldsStable(g) && NoHost(body)
    requires HasWildcard(value) || (0 < |value| <= 127 && Trimmed(value) && AllWhole(home, body))
    requires forall d :: d in body ==> TrimShape(d)
    ensures forall h :: h in Block(SshRules(home), g, value, body) ==> Stable(h)
  {
    if !HasWildcard(value) {
      NewStable(value);
      FoldStable(home, NewHost(value), body);
      MergeStable(Fold(SshRules(home), NewHost(value), body), g);
    }
  }

  lemma {:induction false} BlocksStable(home: string, g: Host, ds: seq<Item>)
    requires HomeOk(home) && FieldsStable(g)
    requires ds != [] ==> ds[0].HostLine?
    requires WholeBlocks(home, ds) && forall d :: d in ds ==> TrimShape(d)
    ensures forall h :: h in ReadBlocks(SshRules(home), g, ds) ==> Stable(h)
    decreases |ds|
  {
    if ds != [] {
      var e := NextHost(ds, 1);
      assert forall d :: d in ds[1..e] ==> d in ds[..e];
      assert ds[0] in ds && (e > 0 ==> ds[0] in ds[..e]);
      BlockStable(home, g, ds[0].value, ds[1..e]);
      BlocksStable(home, g, ds[e..]);
    }
  }

  lemma WholeTextStable(home: string, text: string)
    requires HomeOk(home) && WholeText(home, text)
    ensures forall h :: h in ParseConfig(home, text) ==> Stable(h)
  {
    var ds := Items(ParseLine, Lines(text, 0));
    var e := NextHost(ds, 0);
    ItemsTrimShape(Lines(text, 0));
    FoldStable(home, EMPTY_HOST, ds[..e]);
    BlocksStable(home, Global(SshRules(home), ds), ds[e..]);
  }

  /** A text without truncation, without empty values and without ports that are not positive, apart
      from the blocks that are dropped anyway: writing what was parsed and parsing it again gives the
      same list. */
  lemma WholeTextStabilises(home: string, text: string)
    requires HomeOk(home) && WholeText(home, text)
    ensures ParseConfig(home, PrintConfig(ParseConfig(home, text))) == ParseConfig(home, text)
  {
    WholeTextStable(home, text);
    Stabilises(home, text);
  }
}
