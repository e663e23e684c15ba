/** One `ssh_host_t`: what a directive does to it, how global defaults are merged into
    it, and the shape every record filled in this way has. */
module SshHost {
  import opened CText

  const MAX_FORWARDS := 16
  const MAX_OPTIONS := 32

  datatype Forward = Forward(bindAddr: string, bindPort: int, remoteHost: string, remotePort: int)
  datatype Dynamic = Dynamic(bindAddr: string, bindPort: int)
  datatype HostOption = HostOption(key: string, value: string)

  datatype Host = Host(
    name: string, hostname: string, user: string, port: int,
    identityFile: string, proxyJump: string,
    local: seq<Forward>, remote: seq<Forward>, dynamic: seq<Dynamic>,
    options: seq<HostOption>)

  /** `memset(&host, 0, sizeof host)`. */
  const EMPTY_HOST := Host("", "", "", 0, "", "", [], [], [], [])

  datatype Keyword =
    | HostNameKw | UserKw | PortKw | IdentityKw | ProxyKw
    | LocalKw | RemoteKw | DynamicKw | OtherKw

  function Classify(key: string): Keyword {
    if KwEq(key, "HostName") then HostNameKw
    else if KwEq(key, "User") then UserKw
    else if KwEq(key, "Port") then PortKw
    else if KwEq(key, "IdentityFile") then IdentityKw
    else if KwEq(key, "ProxyJump") then ProxyKw
    else if KwEq(key, "LocalForward") then LocalKw
    else if KwEq(key, "RemoteForward") then RemoteKw
    else if KwEq(key, "DynamicForward") then DynamicKw
    else OtherKw
  }

  predicate HasTilde(s: string) {
    |s| >= 2 && s[0] == '~' && s[1] == '/'
  }

  /** `expand_tilde` into a buffer of `max + 1` bytes. */
  function ExpandTilde(home: string, s: string, max: nat): string {
    if HasTilde(s) then Cut(home + s[1..], max) else Cut(s, max)
  }

  // ---- forwards --------------------------------------------------------

  /** The first position at or after `i` that holds neither space nor tab. */
  function BlankEnd(s: string, i: nat): (r: nat)
    requires i <= |s|
    ensures i <= r <= |s|
    ensures forall j :: i <= j < r ==> IsBlank(s[j])
    ensures r < |s| ==> !IsBlank(s[r])
    decreases |s| - i
  {
    if i < |s| && IsBlank(s[i]) then BlankEnd(s, i + 1) else i
  }

  /** The first space, or else the first tab, or else `|s|`. */
  function FindGap(s: string): nat {
    var sp := Find(s, ' ');
    if sp < |s| then sp else Find(s, '\t')
  }

  /** Both ports positive, as the format with a space demands. */
  function Checked(f: Forward): Maybe<Forward> {
    if f.bindPort > 0 && f.remotePort > 0 then Some(f) else None
  }

  /** `bind remote`, already separated at the first gap. */
  function SpaceForward(bind: string, remote: string): Maybe<Forward> {
    var c := Find(bind, ':');
    var r := FindLast(remote, ':', |remote|);
    if r < 0 then None
    else if c < |bind|
    then Checked(Forward(Cut(bind[..c], 63), ReadInt(bind, c + 1), Cut(remote[..r], 255), ReadInt(remote, r + 1)))
    else Checked(Forward("localhost", Atoi(bind), Cut(remote[..r], 255), ReadInt(remote, r + 1)))
  }

  function CountColons(s: string, n: nat): nat
    requires n <= |s|
  {
    if n == 0 then 0 else CountColons(s, n - 1) + (if s[n - 1] == ':' then 1 else 0)
  }

  /** `%<width>[^:]:` at `i`: the end of a non-empty run of at most `width` characters other
      than ':', which a ':' must follow. */
  function ScanField(s: string, i: nat, width: nat): (r: Maybe<nat>)
    requires i <= |s|
    ensures r.Some? ==> i < r.value < |s| && r.value - i <= width && s[r.value] == ':'
    ensures r.Some? ==> forall j :: i <= j < r.value ==> s[j] != ':'
  {
    var e := Find(s, ':', i);
    if i < e < |s| && e - i <= width then Some(e) else None
  }

  /** `%d` at `i`: where the number ends. */
  function ScanInt(s: string, i: nat): (r: Maybe<nat>)
    requires i <= |s|
    ensures r.Some? ==> i < r.value <= |s|
  {
    var j := NumberStart(s, i);
    var e := DigitEnd(s, j);
    if j < e then Some(e) else None
  }

  /** `%d:%255[^:]:%d` at `i`. */
  function ScanForward(addr: string, s: string, i: nat): Maybe<Forward>
    requires i <= |s|
  {
    var e :- ScanInt(s, i);
    if e == |s| || s[e] != ':' then None else
      var f :- ScanField(s, e + 1, 255);
      var _ :- ScanInt(s, f + 1);
      Some(Forward(addr, ReadInt(s, i), s[e + 1..f], ReadInt(s, f + 1)))
  }

  /** `port:host:port` or `addr:port:host:port`; no check on the sign of the ports. */
  function ColonForward(s: string): Maybe<Forward> {
    if CountColons(s, |s|) == 2 then ScanForward("localhost", s, 0)
    else if CountColons(s, |s|) == 3 then
      var e :- ScanField(s, 0, 63);
      ScanForward(s[..e], s, e + 1)
    else None
  }

  /** `parse_forward`. */
  function ParseForward(val: string): Maybe<Forward> {
    var buf := Cut(val, 511);
    var gap := FindGap(buf);
    if gap < |buf| then SpaceForward(buf[..gap], buf[BlankEnd(buf, gap + 1)..]) else ColonForward(buf)
  }

  /** `parse_dynamic`. */
  function ParseDynamic(val: string): Dynamic {
    var v := val[BlankEnd(val, 0)..];
    var c := Find(v, ':');
    if c < |v| then Dynamic(Cut(v[..c], 63), ReadInt(v, c + 1)) else Dynamic("localhost", Atoi(v))
  }

  // ---- directives ------------------------------------------------------

  function AddForward(fs: seq<Forward>, val: string): seq<Forward> {
    if |fs| < MAX_FORWARDS && ParseForward(val).Some? then fs + [ParseForward(val).value] else fs
  }

  /** `process_kv`. */
  function ProcessKv(home: string, h: Host, key: string, val: string): Host {
    match Classify(key)
    case HostNameKw => h.(hostname := Cut(val, 255))
    case UserKw => h.(user := Cut(val, 63))
    case PortKw => if 0 < Atoi(val) <= 65535 then h.(port := Atoi(val)) else h
    case IdentityKw => h.(identityFile := ExpandTilde(home, val, 511))
    case ProxyKw => h.(proxyJump := Cut(val, 127))
    case LocalKw => h.(local := AddForward(h.local, val))
    case RemoteKw => h.(remote := AddForward(h.remote, val))
    case DynamicKw =>
      if |h.dynamic| < MAX_FORWARDS then h.(dynamic := h.dynamic + [ParseDynamic(val)]) else h
    case _ =>
      if |h.options| < MAX_OPTIONS
      then h.(options := h.options + [HostOption(Cut(key, 63), Cut(val, 255))]) else h
  }

  predicate HasKey(os: seq<HostOption>, key: string) {
    exists i :: 0 <= i < |os| && KwEq(os[i].key, key)
  }

  /** The options of `os` followed by those of `ds` whose key is not present yet, while there is room. */
  function MergeOptions(os: seq<HostOption>, ds: seq<HostOption>): (r: seq<HostOption>)
    ensures os <= r
    ensures |os| <= MAX_OPTIONS ==> |r| <= MAX_OPTIONS
    ensures forall o :: o in r ==> o in os || o in ds
  {
    if ds == [] then os else
      var r := MergeOptions(os, ds[..|ds| - 1]);
      var d := ds[|ds| - 1];
      if !HasKey(r, d.key) && |r| < MAX_OPTIONS then r + [d] else r
  }

  /** `o` is the first of `ds` with its key. */
  predicate FirstOf(ds: seq<HostOption>, o: HostOption) {
    exists k :: 0 <= k < |ds| && ds[k] == o && !HasKey(ds[..k], o.key)
  }

  lemma HasKeySnoc(os: seq<HostOption>, o: HostOption, key: string)
    ensures HasKey(os + [o], key) <==> HasKey(os, key) || KwEq(o.key, key)
  {
    var r := os + [o];
    if i :| 0 <= i < |os| && KwEq(os[i].key, key) { assert KwEq(r[i].key, key); }
    if KwEq(o.key, key) { assert KwEq(r[|os|].key, key); }
  }

  lemma SameKeys(os: seq<HostOption>, key: string, other: string)
    requires HasKey(os, key) && KwEq(key, other)
    ensures HasKey(os, other)
  {
  }

  /** Every default is represented by its key or there is no room; an added option repeats no key
      before it. */
  lemma {:induction false} MergeComplete(os: seq<HostOption>, ds: seq<HostOption>)
    ensures var r := MergeOptions(os, ds);
            && (forall d :: d in ds ==> HasKey(r, d.key) || |r| >= MAX_OPTIONS)
            && (forall i :: |os| <= i < |r| ==> !HasKey(r[..i], r[i].key))
  {
    if ds != [] {
      var front, d := ds[..|ds| - 1], ds[|ds| - 1];
      var before, r := MergeOptions(os, front), MergeOptions(os, ds);
      MergeComplete(os, front);
      if r != before {
        forall x | x in ds ensures HasKey(r, x.key) {
          HasKeySnoc(before, d, x.key);
          assert x != d ==> x in front;
        }
        forall i | |os| <= i < |r| ensures !HasKey(r[..i], r[i].key) {
          assert r[..i] == before[..i];
          assert i == |before| ==> before[..i] == before;
        }
      } else {
        forall x | x in ds ensures HasKey(r, x.key) || |r| >= MAX_OPTIONS {
          assert x != d ==> x in front;
        }
      }
    }
  }

  /** And of several defaults with one key it is the first that is added. */
  lemma {:induction false} FirstDefaultWins(os: seq<HostOption>, ds: seq<HostOption>)
    ensures var r := MergeOptions(os, ds); forall i :: |os| <= i < |r| ==> FirstOf(ds, r[i])
  {
    if ds != [] {
      var front, d := ds[..|ds| - 1], ds[|ds| - 1];
      var before, r := MergeOptions(os, front), MergeOptions(os, ds);
      FirstDefaultWins(os, front);
      MergeComplete(os, front);
      forall i | |os| <= i < |r| ensures FirstOf(ds, r[i]) {
        if i < |before| {
          var k :| 0 <= k < |front| && front[k] == r[i] && !HasKey(front[..k], r[i].key);
          assert ds[..k] == front[..k] && ds[k] == r[i];
        } else {
          if HasKey(front, d.key) {
            var j :| 0 <= j < |front| && KwEq(front[j].key, d.key);
            assert front[j] in front;
            SameKeys(before, front[j].key, d.key);
            assert false;
          }
          assert ds[|ds| - 1] == r[i] && ds[..|ds| - 1] == front;
        }
      }
    }
  }

  function Inherit(own: string, global: string): string {
    if own == "" then global else own
  }

  /** `apply_defaults`. */
  function ApplyDefaults(h: Host, d: Host): Host {
    h.(hostname := Inherit(h.hostname, d.hostname),
       user := Inherit(h.user, d.user),
       port := if h.port == 0 then d.port else h.port,
       identityFile := Inherit(h.identityFile, d.identityFile),
       proxyJump := Inherit(h.proxyJump, d.proxyJump),
       options := MergeOptions(h.options, d.options))
  }

  /** A record claimed for `Host value`. */
  function NewHost(value: string): Host {
    EMPTY_HOST.(name := Cut(value, 127), hostname := Cut(value, 255), port := 22)
  }

  predicate HasWildcard(pattern: string) {
    !Lacks(pattern, '*') || !Lacks(pattern, '?')
  }

  // ---- the shape of what the reader produces ---------------------------

  /** A value kept in a buffer of `max + 1` bytes. */
  predicate Field(s: string, max: nat) {
    |s| <= max && Clean(s) && Lead(s)
  }

  predicate ForwardShape(f: Forward) {
    && Field(f.bindAddr, 63) && Lacks(f.bindAddr, ' ') && Lacks(f.bindAddr, ':')
    && |f.remoteHost| <= 255 && Clean(f.remoteHost)
    && (f.remoteHost != "" ==> !IsBlank(f.remoteHost[0]))
    && IsInt32(f.bindPort) && IsInt32(f.remotePort)
  }

  predicate DynamicShape(d: Dynamic) {
    Field(d.bindAddr, 63) && Lacks(d.bindAddr, ':') && IsInt32(d.bindPort)
  }

  /** A keyword as the line splitter cuts it out. */
  predicate KeyShape(key: string) {
    && key != "" && Field(key, 63) && key[0] != '#'
    && Lacks(key, ' ') && Lacks(key, '=')
  }

  predicate OptionShape(o: HostOption) {
    && KeyShape(o.key) && Field(o.value, 255)
    && Classify(o.key) == OtherKw && !KwEq(o.key, "Host")
    && (o.value == "" ==> Lacks(o.key, '\t'))
  }

  /** The fields that global defaults and host blocks have in common. */
  predicate FieldsShape(h: Host) {
    && Field(h.hostname, 255) && Field(h.user, 63)
    && Field(h.identityFile, 511) && Field(h.proxyJump, 127)
    && |h.local| <= MAX_FORWARDS && (forall f :: f in h.local ==> ForwardShape(f))
    && |h.remote| <= MAX_FORWARDS && (forall f :: f in h.remote ==> ForwardShape(f))
    && |h.dynamic| <= MAX_FORWARDS && (forall d :: d in h.dynamic ==> DynamicShape(d))
    && |h.options| <= MAX_OPTIONS && (forall o :: o in h.options ==> OptionShape(o))
  }

  predicate HostShape(h: Host) {
    && FieldsShape(h)
    && Field(h.name, 127) && !HasWildcard(h.name)
    && 0 < h.port <= 65535
  }

  /** A home directory is a path: one line, not itself starting with white space or '~'. */
  predicate HomeOk(home: string) {
    Clean(home) && (home != "" ==> !IsSpace(home[0]) && home[0] != '~')
  }

  lemma SpaceForwardShape(bind: string, remote: string)
    requires Clean(bind) && Lead(bind) && Lacks(bind, ' ')
    requires Clean(remote) && (remote != "" ==> !IsBlank(remote[0]))
    requires SpaceForward(bind, remote).Some?
    ensures ForwardShape(SpaceForward(bind, remote).value)
  {
  }

  lemma ScanForwardShape(addr: string, s: string, i: nat)
    requires Field(addr, 63) && Lacks(addr, ' ') && Lacks(addr, ':')
    requires i <= |s| && Clean(s) && Lacks(s, ' ') && Lacks(s, '\t')
    requires ScanForward(addr, s, i).Some?
    ensures ForwardShape(ScanForward(addr, s, i).value)
  {
  }

  lemma ColonForwardShape(s: string)
    requires Clean(s) && Lead(s) && Lacks(s, ' ') && Lacks(s, '\t')
    requires ColonForward(s).Some?
    ensures ForwardShape(ColonForward(s).value)
  {
    if CountColons(s, |s|) == 2 {
      ScanForwardShape("localhost", s, 0);
    } else {
      var e := ScanField(s, 0, 63).value;
      ScanForwardShape(s[..e], s, e + 1);
    }
  }

  lemma GapParts(buf: string)
    requires Clean(buf) && Lead(buf)
    ensures FindGap(buf) <= |buf|
    ensures var gap := FindGap(buf);
            if gap < |buf| then
              && Clean(buf[..gap]) && Lead(buf[..gap]) && Lacks(buf[..gap], ' ')
              && var remote := buf[BlankEnd(buf, gap + 1)..];
                 Clean(remote) && (remote != "" ==> !IsBlank(remote[0]))
            else Lacks(buf, ' ') && Lacks(buf, '\t')
  {
  }

  lemma ParseForwardShape(val: string)
    requires Clean(val) && Lead(val)
    ensures ParseForward(val).Some? ==> ForwardShape(ParseForward(val).value)
  {
    var buf := Cut(val, 511);
    var gap := FindGap(buf);
    GapParts(buf);
    if ParseForward(val).Some? {
      if gap < |buf| {
        SpaceForwardShape(buf[..gap], buf[BlankEnd(buf, gap + 1)..]);
      } else {
        ColonForwardShape(buf);
      }
    }
  }

  lemma ParseDynamicShape(val: string)
    requires Clean(val) && Lead(val)
    ensures DynamicShape(ParseDynamic(val))
  {
  }

  lemma AddForwardShape(fs: seq<Forward>, val: string)
    requires Clean(val) && Lead(val)
    requires |fs| <= MAX_FORWARDS && forall f :: f in fs ==> ForwardShape(f)
    ensures |AddForward(fs, val)| <= MAX_FORWARDS
    ensures forall f :: f in AddForward(fs, val) ==> ForwardShape(f)
  {
    ParseForwardShape(val);
  }

  /** A directive keeps the shape of the record it is applied to. */
  lemma ProcessKvShape(home: string, h: Host, key: string, val: string)
    requires HomeOk(home) && FieldsShape(h)
    requires KeyShape(key) && !KwEq(key, "Host") && Clean(val) && Lead(val) && (val == "" ==> Lacks(key, '\t'))
    ensures FieldsShape(ProcessKv(home, h, key, val))
    ensures ProcessKv(home, h, key, val).name == h.name
    ensures 0 < h.port <= 65535 ==> 0 < ProcessKv(home, h, key, val).port <= 65535
  {
    match Classify(key)
    case LocalKw => AddForwardShape(h.local, val);
    case RemoteKw => AddForwardShape(h.remote, val);
    case DynamicKw => ParseDynamicShape(val);
    case _ =>
  }

  lemma ApplyDefaultsShape(h: Host, d: Host)
    requires HostShape(h) && FieldsShape(d)
    ensures HostShape(ApplyDefaults(h, d))
  {
  }

  lemma NewHostShape(value: string)
    requires Clean(value) && Lead(value) && !HasWildcard(value)
    ensures HostShape(NewHost(value))
  {
  }
}
