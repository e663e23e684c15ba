/** One line, one directive, one forward, step by step; proved against the functions of `SshHost`
    and `SshParse`. */
module SshDirectives {
  import opened CText
  import opened SshBlocks
  import opened SshHost
  import opened SshParse

  /** `trim`: move the front up, then the end down. */
  method TrimText(s: string) returns (r: string)
    ensures r == Trim(s)
  {
    var lo := 0;
    while lo < |s| && IsSpace(s[lo])
      invariant 0 <= lo <= |s|
      invariant forall j :: 0 <= j < lo ==> IsSpace(s[j])
    {
      lo := lo + 1;
    }
    var hi := |s|;
    while lo < hi && IsSpace(s[hi - 1])
      invariant lo <= hi <= |s|
      invariant forall j :: hi <= j < |s| ==> IsSpace(s[j])
      invariant lo < |s| ==> lo < hi
    {
      hi := hi - 1;
    }
    TrimUnique(s, lo, hi);
    r := s[lo..hi];
  }

  /** `kw_eq`. */
  method SameKeyword(a: string, b: string) returns (same: bool)
    ensures same <==> KwEq(a, b)
  {
    var i := 0;
    while i < |a| && i < |b|
      invariant 0 <= i <= |a| && i <= |b|
      invariant forall j :: 0 <= j < i ==> Lower(a[j]) == Lower(b[j])
    {
      if Lower(a[i]) != Lower(b[i]) { return false; }
      i := i + 1;
    }
    same := i == |a| && i == |b|;
  }

  /** The option merge of `apply_defaults`: every global option against every own one. */
  method MergeInto(own: seq<HostOption>, globals: seq<HostOption>) returns (merged: seq<HostOption>)
    ensures merged == MergeOptions(own, globals)
  {
    merged := own;
    for di := 0 to |globals|
      invariant merged == MergeOptions(own, globals[..di])
    {
      var found := false;
      for hi := 0 to |merged|
        invariant found <==> HasKey(merged[..hi], globals[di].key)
      {
        var same := SameKeyword(merged[hi].key, globals[di].key);
        if same { found := true; break; }
      }
      if !found && |merged| < MAX_OPTIONS {
        merged := merged + [globals[di]];
      }
      assert globals[..di + 1][..di] == globals[..di];
    }
    assert globals[..|globals|] == globals;
  }

  /** `apply_defaults`. */
  method InheritDefaults(host: Host, defaults: Host) returns (h: Host)
    ensures h == ApplyDefaults(host, defaults)
  {
    h := host;
    if h.hostname == "" && defaults.hostname != "" { h := h.(hostname := defaults.hostname); }
    if h.user == "" && defaults.user != "" { h := h.(user := defaults.user); }
    if h.port == 0 && defaults.port != 0 { h := h.(port := defaults.port); }
    if h.identityFile == "" && defaults.identityFile != "" { h := h.(identityFile := defaults.identityFile); }
    if h.proxyJump == "" && defaults.proxyJump != "" { h := h.(proxyJump := defaults.proxyJump); }
    var options := MergeInto(h.options, defaults.options);
    h := h.(options := options);
  }

  // ---- forwards --------------------------------------------------------

  method SkipBlanks(s: string, i: nat) returns (r: nat)
    requires i <= |s|
    ensures r == BlankEnd(s, i)
  {
    r := i;
    while r < |s| && (s[r] == ' ' || s[r] == '\t')
      invariant i <= r <= |s| && BlankEnd(s, i) == BlankEnd(s, r)
    {
      r := r + 1;
    }
  }

  /** The format with a blank, its two parts already separated. */
  method ReadSpaced(bind: string, remote: string) returns (rule: Maybe<Forward>)
    ensures rule == SpaceForward(bind, remote)
  {
    var addr, port := "localhost", 0;
    var colon := Find(bind, ':');
    if colon < |bind| {
      addr, port := Cut(bind[..colon], 63), ReadInt(bind, colon + 1);
    } else {
      port := Atoi(bind);
    }
    var last := FindLast(remote, ':', |remote|);
    if last < 0 { return None; }
    var target := ReadInt(remote, last + 1);
    if port > 0 && target > 0 {
      rule := Some(Forward(addr, port, Cut(remote[..last], 255), target));
    } else {
      rule := None;
    }
  }

  /** The format without a blank. */
  method ReadColons(s: string) returns (rule: Maybe<Forward>)
    ensures rule == ColonForward(s)
  {
    var colons := 0;
    for i := 0 to |s|
      invariant colons == CountColons(s, i)
    {
      if s[i] == ':' { colons := colons + 1; }
    }
    if colons == 2 {
      rule := ScanForward("localhost", s, 0);
    } else if colons == 3 {
      var e := ScanField(s, 0, 63);
      if e.None? { return None; }
      rule := ScanForward(s[..e.value], s, e.value + 1);
    } else {
      rule := None;
    }
  }

  /** `parse_forward`. */
  method ReadForwardRule(val: string) returns (rule: Maybe<Forward>)
    ensures rule == ParseForward(val)
  {
    var buf := Cut(val, 511);
    var space := Find(buf, ' ');
    if space == |buf| { space := Find(buf, '\t'); }
    if space < |buf| {
      var rest := SkipBlanks(buf, space + 1);
      rule := ReadSpaced(buf[..space], buf[rest..]);
    } else {
      rule := ReadColons(buf);
    }
  }

  /** `parse_dynamic`. */
  method ReadDynamicRule(val: string) returns (rule: Dynamic)
    ensures rule == ParseDynamic(val)
  {
    var start := SkipBlanks(val, 0);
    var v := val[start..];
    var colon := Find(v, ':');
    if colon < |v| {
      var len := colon;
      if len >= 64 { len := 63; }
      rule := Dynamic(v[..len], ReadInt(v, colon + 1));
    } else {
      rule := Dynamic("localhost", Atoi(v));
    }
  }

  // ---- directives ------------------------------------------------------

  /** The chain of comparisons of `process_kv`. */
  method FindKeyword(key: string) returns (k: Keyword)
    ensures k == Classify(key)
  {
    var same := SameKeyword(key, "HostName");
    if same { return HostNameKw; }
    same := SameKeyword(key, "User");
    if same { return UserKw; }
    same := SameKeyword(key, "Port");
    if same { return PortKw; }
    same := SameKeyword(key, "IdentityFile");
    if same { return IdentityKw; }
    same := SameKeyword(key, "ProxyJump");
    if same { return ProxyKw; }
    same := SameKeyword(key, "LocalForward");
    if same { return LocalKw; }
    same := SameKeyword(key, "RemoteForward");
    if same { return RemoteKw; }
    same := SameKeyword(key, "DynamicForward");
    if same { return DynamicKw; }
    return OtherKw;
  }

  /** `process_kv`. */
  method ApplyDirective(home: string, host: Host, key: string, val: string) returns (h: Host)
    ensures h == ProcessKv(home, host, key, val)
  {
    h := host;
    var k := FindKeyword(key);
    match k {
      case HostNameKw => h := h.(hostname := Cut(val, 255));
      case UserKw => h := h.(user := Cut(val, 63));
      case PortKw =>
        var p := Atoi(val);
        if p > 0 && p <= 65535 { h := h.(port := p); }
      case IdentityKw => h := h.(identityFile := ExpandTilde(home, val, 511));
      case ProxyKw => h := h.(proxyJump := Cut(val, 127));
      case LocalKw =>
        var fs := AppendForward(h.local, val);
        h := h.(local := fs);
      case RemoteKw =>
        var fs := AppendForward(h.remote, val);
        h := h.(remote := fs);
      case DynamicKw =>
        if |h.dynamic| < MAX_FORWARDS {
          var rule := ReadDynamicRule(val);
          h := h.(dynamic := h.dynamic + [rule]);
        }
      case OtherKw =>
        if |h.options| < MAX_OPTIONS {
          h := h.(options := h.options + [HostOption(Cut(key, 63), Cut(val, 255))]);
        }
    }
  }

  method AppendForward(fs: seq<Forward>, val: string) returns (r: seq<Forward>)
    ensures r == AddForward(fs, val)
  {
    r := fs;
    if |fs| < MAX_FORWARDS {
      var rule := ReadForwardRule(val);
      if rule.Some? { r := r + [rule.value]; }
    }
  }

  // ---- lines -----------------------------------------------------------

  /** Keyword and value of a trimmed line. */
  method SplitText(s: string) returns (parsed: Maybe<Item>)
    ensures parsed == SplitLine(s)
  {
    if s == "" || s[0] == '#' { return None; }
    var eq, sp, sep := Find(s, '='), Find(s, ' '), 0;
    if sp == |s| { sp := Find(s, '\t'); }
    if eq < |s| && sp < |s| {
      sep := if eq < sp then eq else sp;
    } else if eq < |s| {
      sep := eq;
    } else if sp < |s| {
      sep := sp;
    } else {
      return None;
    }
    if sep == 0 || sep >= 64 { return None; }
    var key := s[..sep];
    var value := TrimText(s[sep + 1..]);
    value := Cut(value, 959);
    var same := SameKeyword(key, "Host");
    parsed := Some(if same then HostLine(value) else OtherLine(key, value));
  }

  /** One line buffer: strip the line end, trim, split. */
  method ReadLine(raw: string) returns (parsed: Maybe<Item>)
    ensures parsed == ParseLine(raw)
  {
    var nl := 0;
    while nl < |raw| && !EndsLine(raw[nl])
      invariant nl <= |raw| && LineEnd(raw, 0) == LineEnd(raw, nl)
    {
      nl := nl + 1;
    }
    var s := TrimText(raw[..nl]);
    parsed := SplitText(s);
  }
}
