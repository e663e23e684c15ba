/** Hosts as a JSON tree, the form in which they are encrypted and stored remotely. */
module HostJson {
  import opened CText
  import opened SshHost

  /** The object keys the two directions agree on. */
  datatype Key =
    | NameKey | HostNameKey | UserKey | PortKey | IdentityKey | ProxyKey
    | LocalKey | RemoteKey | DynamicKey
    | BindAddrKey | BindPortKey | RemoteHostKey | RemotePortKey
    | OtherKey(text: string)

  datatype Json =
    | JNull | JBool(b: bool) | JInt(n: int) | JText(s: string)
    | JArray(items: seq<Json>) | JObject(fields: map<Key, Json>)

  /** How json-c turns a value of another type into a C string and into an `int`. */
  datatype Coercion = Coercion(text: Json -> string, number: Json -> int)

  /** `json_object_get_int` gives an `int` whatever it is applied to. */
  ghost predicate CoercionOk(c: Coercion) {
    forall j :: IsInt32(c.number(j))
  }

  // ---- writing ---------------------------------------------------------

  function ForwardJson(f: Forward): Json {
    JObject(map[BindAddrKey := JText(f.bindAddr), BindPortKey := JInt(f.bindPort),
                RemoteHostKey := JText(f.remoteHost), RemotePortKey := JInt(f.remotePort)])
  }

  function DynamicJson(d: Dynamic): Json {
    JObject(map[BindAddrKey := JText(d.bindAddr), BindPortKey := JInt(d.bindPort)])
  }

  function Map<A, B>(f: A -> B, xs: seq<A>): (r: seq<B>)
    ensures |r| == |xs| && forall i :: 0 <= i < |xs| ==> r[i] == f(xs[i])
  {
    if xs == [] then [] else Map(f, xs[..|xs| - 1]) + [f(xs[|xs| - 1])]
  }

  function HostToJson(h: Host): Json {
    JObject(map[
      NameKey := JText(h.name), HostNameKey := JText(h.hostname), UserKey := JText(h.user),
      PortKey := JInt(if h.port != 0 then h.port else 22),
      IdentityKey := JText(h.identityFile), ProxyKey := JText(h.proxyJump),
      LocalKey := JArray(Map(ForwardJson, h.local)), RemoteKey := JArray(Map(ForwardJson, h.remote)),
      DynamicKey := JArray(Map(DynamicJson, h.dynamic))])
  }

  /** `ssh_hosts_to_json`: generic options are not stored. */
  function ToJson(hs: seq<Host>): Json {
    JArray(Map(HostToJson, hs))
  }

  // ---- reading ---------------------------------------------------------

  /** `snprintf("%s")` of a string value into `max + 1` bytes; an absent key leaves it empty. */
  function TextAt(c: Coercion, j: Json, key: Key, max: nat): string {
    if j.JObject? && key in j.fields then
      var v := j.fields[key];
      var s := if v.JText? then v.s else c.text(v);
      Cut(s[..Find(s, '\0')], max)
    else ""
  }

  function Saturate(n: int): int {
    if n > 0x7fff_ffff then 0x7fff_ffff else if n < -0x8000_0000 then -0x8000_0000 else n
  }

  function NumberAt(c: Coercion, j: Json, key: Key): int {
    if j.JObject? && key in j.fields then
      var v := j.fields[key];
      if v.JInt? then Saturate(v.n) else c.number(v)
    else 0
  }

  /** The first sixteen elements of an array value. */
  function ItemsAt(j: Json, key: Key): seq<Json> {
    if j.JObject? && key in j.fields && j.fields[key].JArray? then
      var items := j.fields[key].items;
      if |items| > MAX_FORWARDS then items[..MAX_FORWARDS] else items
    else []
  }

  function ReadForward(c: Coercion, j: Json): Forward {
    Forward(TextAt(c, j, BindAddrKey, 63), NumberAt(c, j, BindPortKey),
            TextAt(c, j, RemoteHostKey, 255), NumberAt(c, j, RemotePortKey))
  }

  function ReadDynamic(c: Coercion, j: Json): Dynamic {
    Dynamic(TextAt(c, j, BindAddrKey, 63), NumberAt(c, j, BindPortKey))
  }

  function ReadForwards(c: Coercion, js: seq<Json>): seq<Forward> {
    Map(j => ReadForward(c, j), js)
  }

  function ReadDynamics(c: Coercion, js: seq<Json>): seq<Dynamic> {
    Map(j => ReadDynamic(c, j), js)
  }

  function ReadHost(c: Coercion, j: Json): Host {
    Host(TextAt(c, j, NameKey, 127), TextAt(c, j, HostNameKey, 255), TextAt(c, j, UserKey, 63),
         NumberAt(c, j, PortKey), TextAt(c, j, IdentityKey, 511), TextAt(c, j, ProxyKey, 127),
         ReadForwards(c, ItemsAt(j, LocalKey)), ReadForwards(c, ItemsAt(j, RemoteKey)),
         ReadDynamics(c, ItemsAt(j, DynamicKey)), [])
  }

  /** `ssh_hosts_from_json`: what is no array gives no hosts. */
  function FromJson(c: Coercion, j: Json): seq<Host> {
    if j.JArray? then Map(h => ReadHost(c, h), j.items) else []
  }

  // ---- what any tree is read as ------------------------------------------

  /** `r` is the longest beginning of `s` that holds no terminator and fits `max` characters. */
  predicate Front(r: string, s: string, max: nat) {
    r <= s && |r| <= max && Lacks(r, '\0') && (|r| == max || |r| == |s| || s[|r|] == '\0')
  }

  /** `r` is the 32-bit integer nearest to `n`. */
  predicate Nearest(r: int, n: int) {
    IsInt32(r) && (IsInt32(n) ==> r == n) && (n > 0x7fff_ffff ==> r == 0x7fff_ffff)
    && (n < -0x8000_0000 ==> r == -0x8000_0000)
  }

  lemma TextIsFront(c: Coercion, m: map<Key, Json>, key: Key, s: string, max: nat)
    requires key in m && m[key] == JText(s)
    ensures Front(TextAt(c, JObject(m), key, max), s, max)
  {
    var e := Find(s, '\0');
    assert forall j :: 0 <= j < e ==> s[..e][j] == s[j];
  }

  /** The scalars of an object of any strings and numbers: each goes to its own field, cut to its buffer. */
  lemma ScalarsRead(c: Coercion, m: map<Key, Json>, h: Host)
    requires {NameKey, HostNameKey, UserKey, PortKey, IdentityKey, ProxyKey} <= m.Keys
    requires m[NameKey] == JText(h.name) && m[HostNameKey] == JText(h.hostname) && m[UserKey] == JText(h.user)
    requires m[PortKey] == JInt(h.port) && m[IdentityKey] == JText(h.identityFile) && m[ProxyKey] == JText(h.proxyJump)
    ensures var r := ReadHost(c, JObject(m));
            && Front(r.name, h.name, 127) && Front(r.hostname, h.hostname, 255) && Front(r.user, h.user, 63)
            && Nearest(r.port, h.port) && Front(r.identityFile, h.identityFile, 511)
            && Front(r.proxyJump, h.proxyJump, 127)
  {
    TextIsFront(c, m, NameKey, h.name, 127);
    TextIsFront(c, m, HostNameKey, h.hostname, 255);
    TextIsFront(c, m, UserKey, h.user, 63);
    TextIsFront(c, m, IdentityKey, h.identityFile, 511);
    TextIsFront(c, m, ProxyKey, h.proxyJump, 127);
  }

  /** A forward of any strings and numbers likewise. */
  lemma ForwardRead(c: Coercion, f: Forward)
    ensures var r := ReadForward(c, ForwardJson(f));
            && Front(r.bindAddr, f.bindAddr, 63) && Front(r.remoteHost, f.remoteHost, 255)
            && Nearest(r.bindPort, f.bindPort) && Nearest(r.remotePort, f.remotePort)
  {
    TextIsFront(c, ForwardJson(f).fields, BindAddrKey, f.bindAddr, 63);
    TextIsFront(c, ForwardJson(f).fields, RemoteHostKey, f.remoteHost, 255);
  }

  /** What is absent is left empty, and what is no object is a host without any field. */
  lemma AbsentRead(c: Coercion, j: Json)
    requires j.JObject? ==> j.fields == map[]
    ensures ReadHost(c, j) == Host("", "", "", 0, "", "", [], [], [], [])
  {
  }

  /** Of an array of forwards the first sixteen are read, in order; of anything else none. */
  lemma SixteenRead(c: Coercion, j: Json, m: map<Key, Json>, key: Key)
    requires j == JObject(m)
    ensures ReadForwards(c, ItemsAt(j, key)) != [] ==> key in m && m[key].JArray?
    ensures key in m && m[key].JArray? ==>
      var items, fs := m[key].items, ReadForwards(c, ItemsAt(j, key));
      && |fs| == (if |items| < 16 then |items| else 16)
      && forall i {:trigger fs[i]} :: 0 <= i < |fs| ==> fs[i] == ReadForward(c, items[i])
  {
  }

  // ---- exactly what is stored ------------------------------------------

  predicate CString(s: string, max: nat) {
    |s| <= max && Lacks(s, '\0')
  }

  /** The C type of a record. */
  predicate Fits(h: Host) {
    && CString(h.name, 127) && CString(h.hostname, 255) && CString(h.user, 63)
    && CString(h.identityFile, 511) && CString(h.proxyJump, 127) && IsInt32(h.port)
    && |h.local| <= MAX_FORWARDS && (forall f :: f in h.local ==> ForwardFits(f))
    && |h.remote| <= MAX_FORWARDS && (forall f :: f in h.remote ==> ForwardFits(f))
    && |h.dynamic| <= MAX_FORWARDS && (forall d :: d in h.dynamic ==> DynamicFits(d))
  }

  predicate ForwardFits(f: Forward) {
    CString(f.bindAddr, 63) && CString(f.remoteHost, 255) && IsInt32(f.bindPort) && IsInt32(f.remotePort)
  }

  predicate DynamicFits(d: Dynamic) {
    CString(d.bindAddr, 63) && IsInt32(d.bindPort)
  }

  /** What the remote store keeps of a host. */
  function Stored(h: Host): Host {
    h.(port := if h.port != 0 then h.port else 22, options := [])
  }

  lemma CutWhole(s: string, max: nat)
    requires CString(s, max)
    ensures Cut(s[..Find(s, '\0')], max) == s
  {
    assert Find(s, '\0') == |s| && s[..|s|] == s;
  }

  lemma ForwardBack(c: Coercion, f: Forward)
    requires ForwardFits(f)
    ensures ReadForward(c, ForwardJson(f)) == f
  {
    CutWhole(f.bindAddr, 63);
    CutWhole(f.remoteHost, 255);
  }

  lemma DynamicBack(c: Coercion, d: Dynamic)
    requires DynamicFits(d)
    ensures ReadDynamic(c, DynamicJson(d)) == d
  {
    CutWhole(d.bindAddr, 63);
  }

  lemma ForwardsBack(c: Coercion, fs: seq<Forward>)
    requires forall f :: f in fs ==> ForwardFits(f)
    ensures ReadForwards(c, Map(ForwardJson, fs)) == fs
  {
    forall f | f in fs ensures ReadForward(c, ForwardJson(f)) == f { ForwardBack(c, f); }
  }

  lemma DynamicsBack(c: Coercion, ds: seq<Dynamic>)
    requires forall d :: d in ds ==> DynamicFits(d)
    ensures ReadDynamics(c, Map(DynamicJson, ds)) == ds
  {
    forall d | d in ds ensures ReadDynamic(c, DynamicJson(d)) == d { DynamicBack(c, d); }
  }

  lemma TextBack(c: Coercion, fields: map<Key, Json>, key: Key, s: string, max: nat)
    requires key in fields && fields[key] == JText(s) && CString(s, max)
    ensures TextAt(c, JObject(fields), key, max) == s
  {
    CutWhole(s, max);
  }

  lemma ForwardItemsBack(c: Coercion, fields: map<Key, Json>, key: Key, fs: seq<Forward>)
    requires key in fields && fields[key] == JArray(Map(ForwardJson, fs))
    requires |fs| <= MAX_FORWARDS && forall f :: f in fs ==> ForwardFits(f)
    ensures ReadForwards(c, ItemsAt(JObject(fields), key)) == fs
  {
    ForwardsBack(c, fs);
  }

  lemma DynamicItemsBack(c: Coercion, fields: map<Key, Json>, key: Key, ds: seq<Dynamic>)
    requires key in fields && fields[key] == JArray(Map(DynamicJson, ds))
    requires |ds| <= MAX_FORWARDS && forall d :: d in ds ==> DynamicFits(d)
    ensures ReadDynamics(c, ItemsAt(JObject(fields), key)) == ds
  {
    DynamicsBack(c, ds);
  }

  /** What the object of a host holds under each key. */
  predicate Describes(m: map<Key, Json>, h: Host) {
    && m.Keys == {NameKey, HostNameKey, UserKey, PortKey, IdentityKey, ProxyKey, LocalKey, RemoteKey, DynamicKey}
    && m[NameKey] == JText(h.name) && m[HostNameKey] == JText(h.hostname) && m[UserKey] == JText(h.user)
    && m[PortKey] == JInt(if h.port != 0 then h.port else 22)
    && m[IdentityKey] == JText(h.identityFile) && m[ProxyKey] == JText(h.proxyJump)
    && m[LocalKey] == JArray(Map(ForwardJson, h.local)) && m[RemoteKey] == JArray(Map(ForwardJson, h.remote))
    && m[DynamicKey] == JArray(Map(DynamicJson, h.dynamic))
  }

  lemma Described(h: Host)
    ensures HostToJson(h).JObject? && Describes(HostToJson(h).fields, h)
  {
  }

  lemma ScalarsBack(c: Coercion, m: map<Key, Json>, h: Host)
    requires Describes(m, h) && Fits(h)
    ensures ReadHost(c, JObject(m)) == Stored(h).(
              local := ReadForwards(c, ItemsAt(JObject(m), LocalKey)),
              remote := ReadForwards(c, ItemsAt(JObject(m), RemoteKey)),
              dynamic := ReadDynamics(c, ItemsAt(JObject(m), DynamicKey)))
  {
    TextBack(c, m, NameKey, h.name, 127);
    TextBack(c, m, HostNameKey, h.hostname, 255);
    TextBack(c, m, UserKey, h.user, 63);
    TextBack(c, m, IdentityKey, h.identityFile, 511);
    TextBack(c, m, ProxyKey, h.proxyJump, 127);
  }

  /** A host comes back without its generic options and with port 0 read as 22. */
  lemma HostBack(c: Coercion, h: Host)
    requires Fits(h)
    ensures ReadHost(c, HostToJson(h)) == Stored(h)
  {
    Described(h);
    var m := HostToJson(h).fields;
    ScalarsBack(c, m, h);
    ForwardItemsBack(c, m, LocalKey, h.local);
    ForwardItemsBack(c, m, RemoteKey, h.remote);
    DynamicItemsBack(c, m, DynamicKey, h.dynamic);
  }

  lemma MapBack(write: Host -> Json, read: Json -> Host, kept: Host -> Host, hs: seq<Host>)
    requires forall h :: h in hs ==> read(write(h)) == kept(h)
    ensures Map(read, Map(write, hs)) == Map(kept, hs)
  {
  }

  /** Every list of records comes back as what is stored of it. */
  lemma ListBack(c: Coercion, hs: seq<Host>)
    requires forall h :: h in hs ==> Fits(h)
    ensures FromJson(c, ToJson(hs)) == Map(Stored, hs)
  {
    var read := (j: Json) => ReadHost(c, j);
    forall h | h in hs ensures read(HostToJson(h)) == Stored(h) {
      HostBack(c, h);
    }
    MapBack(HostToJson, read, Stored, hs);
  }

  lemma TextFits(c: Coercion, j: Json, key: Key, max: nat)
    ensures CString(TextAt(c, j, key, max), max)
  {
  }

  lemma ForwardsFit(c: Coercion, js: seq<Json>)
    requires CoercionOk(c)
    ensures forall f :: f in ReadForwards(c, js) ==> ForwardFits(f)
  {
    forall j: Json ensures ForwardFits(ReadForward(c, j)) {
      TextFits(c, j, BindAddrKey, 63);
      TextFits(c, j, RemoteHostKey, 255);
    }
  }

  lemma DynamicsFit(c: Coercion, js: seq<Json>)
    requires CoercionOk(c)
    ensures forall d :: d in ReadDynamics(c, js) ==> DynamicFits(d)
  {
    forall j: Json ensures DynamicFits(ReadDynamic(c, j)) {
      TextFits(c, j, BindAddrKey, 63);
    }
  }

  /** Whatever the tree, what is read of it fits its record and has no generic options. */
  lemma ReadFits(c: Coercion, j: Json)
    requires CoercionOk(c)
    ensures Fits(ReadHost(c, j)) && ReadHost(c, j).options == []
  {
    TextFits(c, j, NameKey, 127);
    TextFits(c, j, HostNameKey, 255);
    TextFits(c, j, UserKey, 63);
    TextFits(c, j, IdentityKey, 511);
    TextFits(c, j, ProxyKey, 127);
    ForwardsFit(c, ItemsAt(j, LocalKey));
    ForwardsFit(c, ItemsAt(j, RemoteKey));
    DynamicsFit(c, ItemsAt(j, DynamicKey));
  }

  predicate Storable(h: Host) {
    Fits(h) && h.port != 0 && h.options == []
  }

  /** Exactly the lists of records with a port and without generic options survive the store. */
  lemma JsonRoundTrips(c: Coercion, hs: seq<Host>)
    requires CoercionOk(c)
    ensures FromJson(c, ToJson(hs)) == hs <==> forall h :: h in hs ==> Storable(h)
  {
    var r := FromJson(c, ToJson(hs));
    forall i | 0 <= i < |hs| ensures Storable(hs[i]) ==> r[i] == hs[i] {
      if Fits(hs[i]) { HostBack(c, hs[i]); }
    }
    if r == hs {
      forall i | 0 <= i < |hs| ensures Storable(hs[i]) {
        ReadFits(c, HostToJson(hs[i]));
        HostBack(c, hs[i]);
        assert hs[i] == Stored(hs[i]);
      }
    }
  }

  // ---- the loops -------------------------------------------------------

  /** One array of forwards: at most sixteen elements are looked at. */
  method TakeForwards(c: Coercion, j: Json, key: Key) returns (fs: seq<Forward>)
    ensures fs == ReadForwards(c, ItemsAt(j, key))
  {
    fs := [];
    if !j.JObject? || key !in j.fields || !j.fields[key].JArray? { return; }
    var items := j.fields[key].items;
    var n := if |items| > MAX_FORWARDS then MAX_FORWARDS else |items|;
    for i := 0 to n
      invariant fs == ReadForwards(c, items[..i])
    {
      assert items[..i + 1][..i] == items[..i];
      fs := fs + [ReadForward(c, items[i])];
    }
    assert items[..|items|] == items;
  }

  method TakeDynamics(c: Coercion, j: Json, key: Key) returns (ds: seq<Dynamic>)
    ensures ds == ReadDynamics(c, ItemsAt(j, key))
  {
    ds := [];
    if !j.JObject? || key !in j.fields || !j.fields[key].JArray? { return; }
    var items := j.fields[key].items;
    var n := if |items| > MAX_FORWARDS then MAX_FORWARDS else |items|;
    for i := 0 to n
      invariant ds == ReadDynamics(c, items[..i])
    {
      assert items[..i + 1][..i] == items[..i];
      ds := ds + [ReadDynamic(c, items[i])];
    }
    assert items[..|items|] == items;
  }

  method TakeHosts(c: Coercion, j: Json) returns (hs: seq<Host>)
    ensures hs == FromJson(c, j)
  {
    hs := [];
    if !j.JArray? { return; }
    var read := (h: Json) => ReadHost(c, h);
    for i := 0 to |j.items|
      invariant hs == Map(read, j.items[..i])
    {
      var o := j.items[i];
      var local := TakeForwards(c, o, LocalKey);
      var remote := TakeForwards(c, o, RemoteKey);
      var dynamic := TakeDynamics(c, o, DynamicKey);
      assert j.items[..i + 1][..i] == j.items[..i];
      hs := hs + [Host(TextAt(c, o, NameKey, 127), TextAt(c, o, HostNameKey, 255), TextAt(c, o, UserKey, 63),
                       NumberAt(c, o, PortKey), TextAt(c, o, IdentityKey, 511), TextAt(c, o, ProxyKey, 127),
                       local, remote, dynamic, [])];
    }
    assert j.items[..|j.items|] == j.items;
  }

  method PutForwards(fs: seq<Forward>) returns (j: Json)
    ensures j == JArray(Map(ForwardJson, fs))
  {
    var items := [];
    for i := 0 to |fs|
      invariant items == Map(ForwardJson, fs[..i])
    {
      var f := fs[i];
      assert fs[..i + 1][..i] == fs[..i];
      items := items + [JObject(map[BindAddrKey := JText(f.bindAddr), BindPortKey := JInt(f.bindPort),
                                    RemoteHostKey := JText(f.remoteHost), RemotePortKey := JInt(f.remotePort)])];
    }
    assert fs[..|fs|] == fs;
    j := JArray(items);
  }

  method PutDynamics(ds: seq<Dynamic>) returns (j: Json)
    ensures j == JArray(Map(DynamicJson, ds))
  {
    var items := [];
    for i := 0 to |ds|
      invariant items == Map(DynamicJson, ds[..i])
    {
      assert ds[..i + 1][..i] == ds[..i];
      items := items + [JObject(map[BindAddrKey := JText(ds[i].bindAddr), BindPortKey := JInt(ds[i].bindPort)])];
    }
    assert ds[..|ds|] == ds;
    j := JArray(items);
  }

  /** One host, key by key. */
  method PutHost(h: Host) returns (j: Json)
    ensures j == HostToJson(h)
  {
    var fields := map[NameKey := JText(h.name), HostNameKey := JText(h.hostname), UserKey := JText(h.user),
                      PortKey := JInt(if h.port != 0 then h.port else 22),
                      IdentityKey := JText(h.identityFile), ProxyKey := JText(h.proxyJump)];
    var local := PutForwards(h.local);
    fields := fields[LocalKey := local];
    var remote := PutForwards(h.remote);
    fields := fields[RemoteKey := remote];
    var dynamic := PutDynamics(h.dynamic);
    j := JObject(fields[DynamicKey := dynamic]);
  }

  method PutHosts(hs: seq<Host>) returns (j: Json)
    ensures j == ToJson(hs)
  {
    var items := [];
    for i := 0 to |hs|
      invariant items == Map(HostToJson, hs[..i])
    {
      var o := PutHost(hs[i]);
      assert hs[..i + 1][..i] == hs[..i];
      items := items + [o];
    }
    assert hs[..|hs|] == hs;
    j := JArray(items);
  }
}
