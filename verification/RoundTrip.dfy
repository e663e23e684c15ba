/** Reading back what was written: for every list of hosts, exactly when it gives the list.

    The lemmas about whole blocks take the line reader and the effect of one directive as
    parameters; what they need of them is stated as a precondition and proved of `ParseLine`
    and `ProcessKv` on its own. */
module RoundTrip {
  import opened CText
  import opened LineCodec
  import opened SshBlocks
  import opened SshHost
  import opened SshParse
  import opened SshPrint

  type LineReader = string -> Maybe<Item>
  type Effect = (Host, string, string) -> Host

  // ---- the directives that written lines are read as --------------------

  /** What the line printer may be given. */
  predicate Printable(p: Pair) {
    && KeyShape(p.key) && !KwEq(p.key, "Host")
    && Clean(p.value) && Lead(p.value) && |p.value| <= 900 && (p.value == "" ==> Lacks(p.key, '\t'))
  }

  function PairItem(p: Pair): Maybe<Item> {
    if p.value == "" then None else Some(OtherLine(p.key, Trim(p.value)))
  }

  function PairItems(ps: seq<Pair>): (r: seq<Item>)
    ensures NoHost(r)
  {
    if ps == [] then [] else
      var front := PairItems(ps[..|ps| - 1]);
      match PairItem(ps[|ps| - 1])
      case None => front
      case Some(d) => front + [d]
  }

  /** Printed lines are whole, and each is read as its directive, or as none if its value is empty. */
  ghost predicate Reads(read: LineReader, whole: string -> bool) {
    forall p {:trigger Line(p)} :: Printable(p) ==> whole(Line(p)) && read(Line(p)) == PairItem(p)
  }

  lemma ParseLineReads()
    ensures Reads(ParseLine, WholeLine)
  {
    forall p | Printable(p)
      ensures WholeLine(Line(p)) && ParseLine(Line(p)) == PairItem(p)
    {
      LineIsWhole(p);
      ReadPrinted("    ", p.key, p.value);
    }
  }

  lemma {:induction false} PairLinesItems(read: LineReader, whole: string -> bool, ps: seq<Pair>)
    requires Reads(read, whole) && forall p :: p in ps ==> Printable(p)
    ensures All(whole, PairLines(ps)) && Items(read, PairLines(ps)) == PairItems(ps)
  {
    if ps != [] {
      var p, front := ps[|ps| - 1], ps[..|ps| - 1];
      PairLinesItems(read, whole, front);
      ItemsConcat(read, PairLines(front), [Line(p)]);
      assert [Line(p)][1..] == [];
    }
  }

  // ---- what they do to a record ----------------------------------------

  function Does(apply: Effect, h: Host, p: Pair): Host {
    if p.value == "" then h else apply(h, p.key, Trim(p.value))
  }

  function DoAll(apply: Effect, h: Host, ps: seq<Pair>): Host {
    if ps == [] then h else Does(apply, DoAll(apply, h, ps[..|ps| - 1]), ps[|ps| - 1])
  }

  lemma {:induction false} DoAllFold(r: Rules<Host>, h: Host, ps: seq<Pair>)
    ensures Fold(r, h, PairItems(ps)) == DoAll(r.apply, h, ps)
  {
    if ps != [] {
      var p, front := ps[|ps| - 1], ps[..|ps| - 1];
      DoAllFold(r, h, front);
      if p.value != "" {
        assert PairItems(ps)[..|PairItems(ps)| - 1] == PairItems(front);
      }
    }
  }

  lemma {:induction false} DoAllConcat(apply: Effect, h: Host, a: seq<Pair>, b: seq<Pair>)
    ensures DoAll(apply, h, a + b) == DoAll(apply, DoAll(apply, h, a), b)
  {
    if b == [] {
      assert a + b == a;
    } else {
      assert (a + b)[..|a + b| - 1] == a + b[..|b| - 1];
      DoAllConcat(apply, h, a, b[..|b| - 1]);
    }
  }

  lemma ScalarSection(apply: Effect, g: Host, key: string, v: string)
    ensures DoAll(apply, g, UnlessEmpty(key, v)) == Does(apply, g, Pair(key, v))
  {
    assert [Pair(key, v)][..0] == [];
  }

  // ---- the lists -------------------------------------------------------

  /** The format with a space keeps a forward when both its ports are positive. */
  function Surviving(f: Forward): seq<Forward> {
    if f.bindPort > 0 && f.remotePort > 0 then [f] else []
  }

  /** What is left of each element, in order. */
  function Survivors<T>(part: T -> seq<T>, xs: seq<T>): seq<T> {
    if xs == [] then [] else Survivors(part, xs[..|xs| - 1]) + part(xs[|xs| - 1])
  }

  lemma {:induction false} SurvivorsFew<T>(part: T -> seq<T>, xs: seq<T>)
    requires forall x :: x in xs ==> |part(x)| <= 1
    ensures |Survivors(part, xs)| <= |xs|
  {
    if xs != [] { SurvivorsFew(part, xs[..|xs| - 1]); }
  }

  /** The forwards that survive a round trip. */
  function Accepted(fs: seq<Forward>): (r: seq<Forward>)
    ensures |r| <= |fs|
  {
    SurvivorsFew(Surviving, fs);
    Survivors(Surviving, fs)
  }

  function Reoption(o: HostOption): seq<HostOption> {
    if o.value == "" then [] else [o.(value := Trim(o.value))]
  }

  /** The options that survive, without the white space their values end with. */
  function Kept(os: seq<HostOption>): (r: seq<HostOption>)
    ensures |r| <= |os|
  {
    SurvivorsFew(Reoption, os);
    Survivors(Reoption, os)
  }

  lemma {:induction false} LocalsSection(apply: Effect, text: Forward -> string, fs: seq<Forward>, g: Host)
    requires |g.local| + |fs| <= MAX_FORWARDS
    requires forall m: Host, f {:trigger Does(apply, m, Pair("LocalForward", text(f)))} ::
      f in fs && |m.local| < MAX_FORWARDS ==>
      Does(apply, m, Pair("LocalForward", text(f))) == m.(local := m.local + Surviving(f))
    ensures DoAll(apply, g, PairsOf("LocalForward", text, fs)) == g.(local := g.local + Accepted(fs))
  {
    if fs == [] {
      assert g.local + Accepted(fs) == g.local;
    } else {
      var f, front := fs[|fs| - 1], fs[..|fs| - 1];
      LocalsSection(apply, text, front, g);
      var m := g.(local := g.local + Accepted(front));
      assert m.local + Surviving(f) == g.local + Accepted(fs);
    }
  }

  lemma {:induction false} RemotesSection(apply: Effect, text: Forward -> string, fs: seq<Forward>, g: Host)
    requires |g.remote| + |fs| <= MAX_FORWARDS
    requires forall m: Host, f {:trigger Does(apply, m, Pair("RemoteForward", text(f)))} ::
      f in fs && |m.remote| < MAX_FORWARDS ==>
      Does(apply, m, Pair("RemoteForward", text(f))) == m.(remote := m.remote + Surviving(f))
    ensures DoAll(apply, g, PairsOf("RemoteForward", text, fs)) == g.(remote := g.remote + Accepted(fs))
  {
    if fs == [] {
      assert g.remote + Accepted(fs) == g.remote;
    } else {
      var f, front := fs[|fs| - 1], fs[..|fs| - 1];
      RemotesSection(apply, text, front, g);
      var m := g.(remote := g.remote + Accepted(front));
      assert m.remote + Surviving(f) == g.remote + Accepted(fs);
    }
  }

  lemma {:induction false} DynamicsSection(apply: Effect, text: Dynamic -> string, ds: seq<Dynamic>, g: Host)
    requires |g.dynamic| + |ds| <= MAX_FORWARDS
    requires forall m: Host, d {:trigger Does(apply, m, Pair("DynamicForward", text(d)))} ::
      d in ds && |m.dynamic| < MAX_FORWARDS ==>
      Does(apply, m, Pair("DynamicForward", text(d))) == m.(dynamic := m.dynamic + [d])
    ensures DoAll(apply, g, PairsOf("DynamicForward", text, ds)) == g.(dynamic := g.dynamic + ds)
  {
    if ds == [] {
      assert g.dynamic + ds == g.dynamic;
    } else {
      var d, front := ds[|ds| - 1], ds[..|ds| - 1];
      DynamicsSection(apply, text, front, g);
      var m := g.(dynamic := g.dynamic + front);
      assert Does(apply, m, Pair("DynamicForward", text(d))) == m.(dynamic := m.dynamic + [d]);
      assert m.dynamic + [d] == g.dynamic + ds;
    }
  }

  lemma {:induction false} OptionsSection(apply: Effect, os: seq<HostOption>, g: Host)
    requires |g.options| + |os| <= MAX_OPTIONS
    requires forall m: Host, o: HostOption {:trigger Does(apply, m, Pair(o.key, o.value))} ::
      o in os && |m.options| < MAX_OPTIONS ==>
      Does(apply, m, Pair(o.key, o.value)) == m.(options := m.options + Reoption(o))
    ensures DoAll(apply, g, OptionPairs(os)) == g.(options := g.options + Kept(os))
  {
    if os == [] {
      assert g.options + Kept(os) == g.options;
    } else {
      var o, front := os[|os| - 1], os[..|os| - 1];
      OptionsSection(apply, front, g);
      var m := g.(options := g.options + Kept(front));
      assert Does(apply, m, Pair(o.key, o.value)) == m.(options := m.options + Reoption(o));
      assert m.options + Reoption(o) == g.options + Kept(os);
    }
  }

  // ---- one directive of `process_kv` -----------------------------------

  function Proc(home: string): Effect {
    SshRules(home).apply
  }

  lemma DoesHostName(home: string, g: Host, v: string)
    requires |Trim(v)| <= 255
    ensures DoAll(Proc(home), g, UnlessEmpty("HostName", v)) == if v == "" then g else g.(hostname := Trim(v))
  {
    ScalarSection(Proc(home), g, "HostName", v);
  }

  lemma DoesUser(home: string, g: Host, v: string)
    requires |Trim(v)| <= 63
    ensures DoAll(Proc(home), g, UnlessEmpty("User", v)) == if v == "" then g else g.(user := Trim(v))
  {
    ScalarSection(Proc(home), g, "User", v);
  }

  lemma DoesPort(home: string, g: Host, v: string, port: int)
    requires v != "" ==> Trim(v) == v && Atoi(v) == port && 0 < port <= 65535
    ensures DoAll(Proc(home), g, UnlessEmpty("Port", v)) == if v == "" then g else g.(port := port)
  {
    ScalarSection(Proc(home), g, "Port", v);
    assert "Port"[0] == 'P' && "User"[0] == 'U';
    assert Classify("Port") == PortKw;
  }

  lemma DoesIdentity(home: string, g: Host, v: string)
    ensures DoAll(Proc(home), g, UnlessEmpty("IdentityFile", v)) ==
            if v == "" then g else g.(identityFile := ExpandTilde(home, Trim(v), 511))
  {
    ScalarSection(Proc(home), g, "IdentityFile", v);
    assert Classify("IdentityFile") == IdentityKw;
  }

  lemma DoesProxy(home: string, g: Host, v: string)
    requires |Trim(v)| <= 127
    ensures DoAll(Proc(home), g, UnlessEmpty("ProxyJump", v)) == if v == "" then g else g.(proxyJump := Trim(v))
  {
    ScalarSection(Proc(home), g, "ProxyJump", v);
    assert Classify("ProxyJump") == ProxyKw;
  }

  lemma AddSurviving(fs: seq<Forward>, v: string, f: Forward)
    requires ParseForward(v) == Checked(f) && |fs| < MAX_FORWARDS
    ensures AddForward(fs, v) == fs + Surviving(f)
  {
  }

  lemma DoesForwardKey(home: string, g: Host, key: string, v: string)
    ensures Classify(key) == LocalKw ==>
              Does(Proc(home), g, Pair(key, v)) == if v == "" then g else g.(local := AddForward(g.local, Trim(v)))
    ensures Classify(key) == RemoteKw ==>
              Does(Proc(home), g, Pair(key, v)) == if v == "" then g else g.(remote := AddForward(g.remote, Trim(v)))
  {
  }

  lemma DoesLocal(home: string, g: Host, v: string)
    ensures Does(Proc(home), g, Pair("LocalForward", v)) ==
            if v == "" then g else g.(local := AddForward(g.local, Trim(v)))
  {
    assert "LocalForward"[0] == 'L' && "IdentityFile"[0] == 'I';
    assert Classify("LocalForward") == LocalKw;
    DoesForwardKey(home, g, "LocalForward", v);
  }

  lemma DoesRemote(home: string, g: Host, v: string)
    ensures Does(Proc(home), g, Pair("RemoteForward", v)) ==
            if v == "" then g else g.(remote := AddForward(g.remote, Trim(v)))
  {
    assert Classify("RemoteForward") == RemoteKw;
    DoesForwardKey(home, g, "RemoteForward", v);
  }

  lemma DoesDynamicKey(home: string, g: Host, key: string, v: string)
    requires |g.dynamic| < MAX_FORWARDS && Classify(key) == DynamicKw
    ensures Does(Proc(home), g, Pair(key, v)) ==
            if v == "" then g else g.(dynamic := g.dynamic + [ParseDynamic(Trim(v))])
  {
  }

  lemma DoesDynamic(home: string, g: Host, v: string)
    requires |g.dynamic| < MAX_FORWARDS
    ensures Does(Proc(home), g, Pair("DynamicForward", v)) ==
            if v == "" then g else g.(dynamic := g.dynamic + [ParseDynamic(Trim(v))])
  {
    assert Classify("DynamicForward") == DynamicKw;
    DoesDynamicKey(home, g, "DynamicForward", v);
  }

  lemma DoesOption(home: string, g: Host, o: HostOption)
    requires Classify(o.key) == OtherKw && |o.key| <= 63 && |Trim(o.value)| <= 255 && |g.options| < MAX_OPTIONS
    ensures Does(Proc(home), g, Pair(o.key, o.value)) == g.(options := g.options + Reoption(o))
  {
  }

  // ---- one host --------------------------------------------------------

  /** What a written host with a non-empty name is read back as. */
  function Reread(home: string, h: Host): Host {
    Host(Trim(h.name),
         if h.hostname == "" || h.hostname == h.name then Trim(h.name) else Trim(h.hostname),
         Trim(h.user),
         h.port,
         if h.identityFile == "" then "" else ExpandTilde(home, Trim(h.identityFile), 511),
         Trim(h.proxyJump),
         Accepted(h.local), Accepted(h.remote), h.dynamic, Kept(h.options))
  }

  /** Nine sections, one after the other. */
  lemma NineSections(apply: Effect,
      p1: seq<Pair>, p2: seq<Pair>, p3: seq<Pair>, p4: seq<Pair>, p5: seq<Pair>,
      p6: seq<Pair>, p7: seq<Pair>, p8: seq<Pair>, p9: seq<Pair>,
      g: Host, g1: Host, g2: Host, g3: Host, g4: Host, g5: Host, g6: Host, g7: Host, g8: Host, g9: Host)
    requires DoAll(apply, g, p1) == g1 && DoAll(apply, g1, p2) == g2 && DoAll(apply, g2, p3) == g3
    requires DoAll(apply, g3, p4) == g4 && DoAll(apply, g4, p5) == g5 && DoAll(apply, g5, p6) == g6
    requires DoAll(apply, g6, p7) == g7 && DoAll(apply, g7, p8) == g8 && DoAll(apply, g8, p9) == g9
    ensures DoAll(apply, g, p1 + p2 + p3 + p4 + p5 + p6 + p7 + p8 + p9) == g9
  {
    DoAllConcat(apply, g, p1, p2);
    DoAllConcat(apply, g, p1 + p2, p3);
    DoAllConcat(apply, g, p1 + p2 + p3, p4);
    DoAllConcat(apply, g, p1 + p2 + p3 + p4, p5);
    DoAllConcat(apply, g, p1 + p2 + p3 + p4 + p5, p6);
    DoAllConcat(apply, g, p1 + p2 + p3 + p4 + p5 + p6, p7);
    DoAllConcat(apply, g, p1 + p2 + p3 + p4 + p5 + p6 + p7, p8);
    DoAllConcat(apply, g, p1 + p2 + p3 + p4 + p5 + p6 + p7 + p8, p9);
  }

  /** What the five scalar lines leave in `g`. */
  function ScalarsRead(home: string, h: Host, g: Host): Host {
    g.(hostname := if ShownHostName(h) == "" then g.hostname else Trim(h.hostname),
       user := if h.user == "" then g.user else Trim(h.user),
       port := if ShownPort(h) == "" then g.port else h.port,
       identityFile := if h.identityFile == "" then g.identityFile else ExpandTilde(home, Trim(h.identityFile), 511),
       proxyJump := if h.proxyJump == "" then g.proxyJump else Trim(h.proxyJump))
  }

  /** The bounds the scalar directives need. */
  predicate ScalarBounds(h: Host) {
    && |Trim(ShownHostName(h))| <= 255 && |Trim(h.user)| <= 63 && |Trim(h.proxyJump)| <= 127
    && (ShownPort(h) != "" ==>
      Trim(ShownPort(h)) == ShownPort(h) && Atoi(ShownPort(h)) == h.port && 0 < h.port <= 65535)
  }

  lemma BoundsOfShape(h: Host)
    requires HostShape(h)
    ensures ScalarBounds(h)
  {
    TrimFacts(ShownHostName(h));
    TrimFacts(h.user);
    TrimFacts(h.proxyJump);
    AtoiFormat(h.port);
    TrimWhole(FormatInt(h.port));
  }

  lemma ScalarsThrough(home: string, h: Host, g: Host) returns (g1: Host, g2: Host, g3: Host, g4: Host, g5: Host)
    requires ScalarBounds(h)
    ensures DoAll(Proc(home), g, UnlessEmpty("HostName", ShownHostName(h))) == g1
    ensures DoAll(Proc(home), g1, UnlessEmpty("User", h.user)) == g2
    ensures DoAll(Proc(home), g2, UnlessEmpty("Port", ShownPort(h))) == g3
    ensures DoAll(Proc(home), g3, UnlessEmpty("IdentityFile", h.identityFile)) == g4
    ensures DoAll(Proc(home), g4, UnlessEmpty("ProxyJump", h.proxyJump)) == g5
    ensures g5 == ScalarsRead(home, h, g)
  {
    g1 := if ShownHostName(h) == "" then g else g.(hostname := Trim(ShownHostName(h)));
    g2 := if h.user == "" then g1 else g1.(user := Trim(h.user));
    g3 := if ShownPort(h) == "" then g2 else g2.(port := h.port);
    g4 := if h.identityFile == "" then g3 else g3.(identityFile := ExpandTilde(home, Trim(h.identityFile), 511));
    g5 := if h.proxyJump == "" then g4 else g4.(proxyJump := Trim(h.proxyJump));
    DoesHostName(home, g, ShownHostName(h));
    DoesUser(home, g1, h.user);
    DoesPort(home, g2, ShownPort(h), h.port);
    DoesIdentity(home, g3, h.identityFile);
    DoesProxy(home, g4, h.proxyJump);
  }

  lemma ForwardReads(f: Forward, fs: seq<Forward>)
    requires ForwardShape(f) && |fs| < MAX_FORWARDS
    ensures var t := ForwardText(f);
            t != "" && Trim(t) == t && AddForward(fs, t) == fs + Surviving(f)
  {
    var t := ForwardText(f);
    ReadForward(f);
    TrimWhole(t);
    AddSurviving(fs, t, f);
  }

  lemma LocalsRead(home: string, fs: seq<Forward>, g: Host)
    requires |fs| <= MAX_FORWARDS && (forall f :: f in fs ==> ForwardShape(f)) && g.local == []
    ensures DoAll(Proc(home), g, PairsOf("LocalForward", ForwardText, fs)) == g.(local := Accepted(fs))
  {
    forall m: Host, f | f in fs && |m.local| < MAX_FORWARDS
      ensures Does(Proc(home), m, Pair("LocalForward", ForwardText(f))) == m.(local := m.local + Surviving(f))
    {
      ForwardReads(f, m.local);
      DoesLocal(home, m, ForwardText(f));
    }
    LocalsSection(Proc(home), ForwardText, fs, g);
    assert [] + Accepted(fs) == Accepted(fs);
  }

  lemma RemotesRead(home: string, fs: seq<Forward>, g: Host)
    requires |fs| <= MAX_FORWARDS && (forall f :: f in fs ==> ForwardShape(f)) && g.remote == []
    ensures DoAll(Proc(home), g, PairsOf("RemoteForward", ForwardText, fs)) == g.(remote := Accepted(fs))
  {
    forall m: Host, f | f in fs && |m.remote| < MAX_FORWARDS
      ensures Does(Proc(home), m, Pair("RemoteForward", ForwardText(f))) == m.(remote := m.remote + Surviving(f))
    {
      ForwardReads(f, m.remote);
      DoesRemote(home, m, ForwardText(f));
    }
    RemotesSection(Proc(home), ForwardText, fs, g);
    assert [] + Accepted(fs) == Accepted(fs);
  }

  lemma DynamicsRead(home: string, ds: seq<Dynamic>, g: Host)
    requires |ds| <= MAX_FORWARDS && (forall d :: d in ds ==> DynamicShape(d)) && g.dynamic == []
    ensures DoAll(Proc(home), g, PairsOf("DynamicForward", DynamicText, ds)) == g.(dynamic := ds)
  {
    forall m: Host, d | d in ds && |m.dynamic| < MAX_FORWARDS
      ensures Does(Proc(home), m, Pair("DynamicForward", DynamicText(d))) == m.(dynamic := m.dynamic + [d])
    {
      ReadDynamic(d);
      TrimWhole(DynamicText(d));
      DoesDynamic(home, m, DynamicText(d));
    }
    DynamicsSection(Proc(home), DynamicText, ds, g);
    assert [] + ds == ds;
  }

  lemma OptionsRead(home: string, os: seq<HostOption>, g: Host)
    requires |os| <= MAX_OPTIONS && (forall o :: o in os ==> OptionShape(o)) && g.options == []
    ensures DoAll(Proc(home), g, OptionPairs(os)) == g.(options := Kept(os))
  {
    forall m: Host, o: HostOption | o in os && |m.options| < MAX_OPTIONS
      ensures Does(Proc(home), m, Pair(o.key, o.value)) == m.(options := m.options + Reoption(o))
    {
      TrimFacts(o.value);
      DoesOption(home, m, o);
    }
    OptionsSection(Proc(home), os, g);
    assert [] + Kept(os) == Kept(os);
  }

  lemma ListsThrough(home: string, h: Host, g: Host) returns (g1: Host, g2: Host, g3: Host, g4: Host)
    requires HostShape(h)
    requires g.local == [] && g.remote == [] && g.dynamic == [] && g.options == []
    ensures DoAll(Proc(home), g, PairsOf("LocalForward", ForwardText, h.local)) == g1
    ensures DoAll(Proc(home), g1, PairsOf("RemoteForward", ForwardText, h.remote)) == g2
    ensures DoAll(Proc(home), g2, PairsOf("DynamicForward", DynamicText, h.dynamic)) == g3
    ensures DoAll(Proc(home), g3, OptionPairs(h.options)) == g4
    ensures g4 == g.(local := Accepted(h.local), remote := Accepted(h.remote),
                     dynamic := h.dynamic, options := Kept(h.options))
  {
    g1 := g.(local := Accepted(h.local));
    g2 := g1.(remote := Accepted(h.remote));
    g3 := g2.(dynamic := h.dynamic);
    g4 := g3.(options := Kept(h.options));
    LocalsRead(home, h.local, g);
    RemotesRead(home, h.remote, g1);
    DynamicsRead(home, h.dynamic, g2);
    OptionsRead(home, h.options, g3);
  }

  lemma StatesReread(home: string, h: Host, g: Host)
    requires HostShape(h) && g == NewHost(Trim(h.name))
    ensures Reread(home, h) == ScalarsRead(home, h, g).(
              local := Accepted(h.local), remote := Accepted(h.remote),
              dynamic := h.dynamic, options := Kept(h.options))
  {
    TrimFacts(h.name);
    TrimWhole("");
  }

  /** The directives of a written block turn the fresh record for its name into `Reread`. */
  lemma BlockReread(home: string, h: Host, g: Host)
    requires HostShape(h) && g == NewHost(Trim(h.name))
    ensures DoAll(Proc(home), g, HostPairs(h)) == Reread(home, h)
  {
    BoundsOfShape(h);
    var g1, g2, g3, g4, g5 := ScalarsThrough(home, h, g);
    var g6, g7, g8, g9 := ListsThrough(home, h, g5);
    NineSections(Proc(home),
      UnlessEmpty("HostName", ShownHostName(h)), UnlessEmpty("User", h.user), UnlessEmpty("Port", ShownPort(h)),
      UnlessEmpty("IdentityFile", h.identityFile), UnlessEmpty("ProxyJump", h.proxyJump),
      PairsOf("LocalForward", ForwardText, h.local), PairsOf("RemoteForward", ForwardText, h.remote),
      PairsOf("DynamicForward", DynamicText, h.dynamic), OptionPairs(h.options),
      g, g1, g2, g3, g4, g5, g6, g7, g8, g9);
    StatesReread(home, h, g);
  }

  // ---- the directives of a whole file ----------------------------------

  function HeadItem(h: Host): seq<Item> {
    if h.name == "" then [] else [HostLine(Trim(h.name))]
  }

  function HostItems(h: Host): seq<Item> {
    HeadItem(h) + PairItems(HostPairs(h))
  }

  predicate AllPrintable(ps: seq<Pair>) {
    forall p :: p in ps ==> Printable(p)
  }

  lemma {:induction false} PairsPrintable<T>(key: string, text: T -> string, xs: seq<T>)
    requires forall x :: x in xs ==> Printable(Pair(key, text(x)))
    ensures AllPrintable(PairsOf(key, text, xs))
  {
    if xs != [] {
      PairsPrintable(key, text, xs[..|xs| - 1]);
      assert Printable(Pair(key, text(xs[|xs| - 1])));
    }
  }

  lemma {:induction false} OptionsPrintable(os: seq<HostOption>)
    requires forall o :: o in os ==> OptionShape(o)
    ensures AllPrintable(OptionPairs(os))
  {
    if os != [] {
      OptionsPrintable(os[..|os| - 1]);
      assert OptionShape(os[|os| - 1]);
    }
  }

  predicate PlainKey(key: string) {
    KeyShape(key) && !KwEq(key, "Host")
  }

  lemma OnePrintable(key: string, v: string)
    requires PlainKey(key) && Clean(v) && Lead(v) && |v| <= 900
    ensures v != "" ==> Printable(Pair(key, v))
    ensures AllPrintable(UnlessEmpty(key, v))
  {
  }

  lemma ListKeys()
    ensures PlainKey("LocalForward") && PlainKey("RemoteForward") && PlainKey("DynamicForward")
  {
  }

  lemma ScalarKeys()
    ensures PlainKey("HostName") && PlainKey("User") && PlainKey("Port")
    ensures PlainKey("IdentityFile") && PlainKey("ProxyJump")
  {
    assert "User"[0] == 'U' && "Port"[0] == 'P' && "Host"[0] == 'H';
  }

  lemma ForwardPrintable(f: Forward)
    requires ForwardShape(f)
    ensures Printable(Pair("LocalForward", ForwardText(f))) && Printable(Pair("RemoteForward", ForwardText(f)))
  {
    var t := ForwardText(f);
    ReadForward(f);
    ListKeys();
    OnePrintable("LocalForward", t);
    OnePrintable("RemoteForward", t);
  }

  lemma DynamicPrintable(d: Dynamic)
    requires DynamicShape(d)
    ensures Printable(Pair("DynamicForward", DynamicText(d)))
  {
    ReadDynamic(d);
    ListKeys();
    OnePrintable("DynamicForward", DynamicText(d));
  }

  lemma ScalarsPrintable(h: Host)
    requires HostShape(h)
    ensures AllPrintable(UnlessEmpty("HostName", ShownHostName(h))) && AllPrintable(UnlessEmpty("User", h.user))
    ensures AllPrintable(UnlessEmpty("Port", ShownPort(h)))
    ensures AllPrintable(UnlessEmpty("IdentityFile", h.identityFile))
    ensures AllPrintable(UnlessEmpty("ProxyJump", h.proxyJump))
  {
    AtoiFormat(h.port);
    ScalarKeys();
    OnePrintable("HostName", ShownHostName(h));
    OnePrintable("User", h.user);
    OnePrintable("Port", ShownPort(h));
    OnePrintable("IdentityFile", h.identityFile);
    OnePrintable("ProxyJump", h.proxyJump);
  }

  lemma ListsPrintable(h: Host)
    requires HostShape(h)
    ensures AllPrintable(PairsOf("LocalForward", ForwardText, h.local))
    ensures AllPrintable(PairsOf("RemoteForward", ForwardText, h.remote))
    ensures AllPrintable(PairsOf("DynamicForward", DynamicText, h.dynamic))
    ensures AllPrintable(OptionPairs(h.options))
  {
    forall f | f in h.local || f in h.remote
      ensures Printable(Pair("LocalForward", ForwardText(f))) && Printable(Pair("RemoteForward", ForwardText(f)))
    {
      ForwardPrintable(f);
    }
    forall d | d in h.dynamic
      ensures Printable(Pair("DynamicForward", DynamicText(d)))
    {
      DynamicPrintable(d);
    }
    PairsPrintable("LocalForward", ForwardText, h.local);
    PairsPrintable("RemoteForward", ForwardText, h.remote);
    PairsPrintable("DynamicForward", DynamicText, h.dynamic);
    OptionsPrintable(h.options);
  }

  lemma HostPrintable(h: Host)
    requires HostShape(h)
    ensures AllPrintable(HostPairs(h))
  {
    ScalarsPrintable(h);
    ListsPrintable(h);
  }

  lemma BlankRead()
    ensures ParseLine("\n") == None && WholeLine("\n")
  {
    ParseLinePadded("", "", "");
    assert "" + "" + "" + "\n" == "\n";
  }

  lemma HeadReadKey(key: string, name: string)
    requires KeyShape(key) && KwEq(key, "Host") && Lacks(key, '\t') && Field(name, 127)
    ensures ParseLine(key + " " + name + "\n") == if name == "" then None else Some(HostLine(Trim(name)))
  {
    ReadPrinted("", key, name);
    assert "" + key == key;
  }

  lemma HeadRead(name: string)
    requires Field(name, 127)
    ensures ParseLine("Host " + name + "\n") == if name == "" then None else Some(HostLine(Trim(name)))
  {
    HeadReadKey("Host", name);
    assert "Host" + " " == "Host ";
  }

  lemma HeadWhole(name: string)
    requires Field(name, 127)
    ensures WholeLine("Host " + name + "\n")
  {
    var l := "Host " + name + "\n";
    assert l[..|l| - 1] == "Host " + name;
  }

  lemma HostLinesItems(h: Host)
    requires HostShape(h)
    ensures All(WholeLine, HostLines(h)) && Items(ParseLine, HostLines(h)) == HostItems(h)
  {
    BlankRead();
    HeadRead(h.name);
    HeadWhole(h.name);
    HostPrintable(h);
    ParseLineReads();
    HeadAndBody(ParseLine, WholeLine, h.name, HostPairs(h));
  }

  lemma HeadAndBody(read: LineReader, whole: string -> bool, name: string, ps: seq<Pair>)
    requires Reads(read, whole) && AllPrintable(ps)
    requires read("\n") == None && whole("\n") && whole("Host " + name + "\n")
    requires read("Host " + name + "\n") == if name == "" then None else Some(HostLine(Trim(name)))
    ensures var ls := ["\n", "Host " + name + "\n"] + PairLines(ps);
            && All(whole, ls)
            && Items(read, ls) == (if name == "" then [] else [HostLine(Trim(name))]) + PairItems(ps)
  {
    var l := "Host " + name + "\n";
    PairLinesItems(read, whole, ps);
    ItemsConcat(read, ["\n", l], PairLines(ps));
    assert ["\n", l][1..] == [l] && [l][1..] == [];
  }

  lemma {:induction false} AllLinesItems(hs: seq<Host>)
    requires forall h :: h in hs ==> HostShape(h)
    ensures All(WholeLine, FlatMap(HostLines, hs)) && Items(ParseLine, FlatMap(HostLines, hs)) == FlatMap(HostItems, hs)
  {
    if hs != [] {
      HostLinesItems(hs[0]);
      AllLinesItems(hs[1..]);
      ItemsConcat(ParseLine, HostLines(hs[0]), FlatMap(HostLines, hs[1..]));
    }
  }

  /** A comment is no directive. */
  lemma CommentRead(raw: string)
    requires raw != "" && raw[0] == '#'
    ensures ParseLine(raw) == None
  {
    var t := raw[..LineEnd(raw, 0)];
    assert t != "" && t[0] == '#';
    assert SpaceEnd(t, 0) == 0;
    TrimTail(t);
  }

  lemma HeaderLine()
    ensures HEADER != "" && HEADER[0] == '#' && WholeLine(HEADER)
  {
    var t := HEADER[..|HEADER| - 1];
    assert t == "# Generato da SSHPad " + "\U{e2}\U{80}\U{94} non modificare " + "manualmente";
    assert Lacks("# Generato da SSHPad ", '\n') && Lacks("\U{e2}\U{80}\U{94} non modificare ", '\n');
    assert Lacks("manualmente", '\n');
  }

  /** The text written for `hs` is read as the directives of its hosts. */
  lemma ConfigItems(hs: seq<Host>)
    requires forall h :: h in hs ==> HostShape(h)
    ensures Items(ParseLine, Lines(PrintConfig(hs), 0)) == FlatMap(HostItems, hs)
  {
    HeaderLine();
    CommentRead(HEADER);
    AllLinesItems(hs);
    HeaderFirst(HEADER, FlatMap(HostLines, hs));
  }

  lemma HeaderFirst(header: string, ls: seq<string>)
    requires WholeLine(header) && All(WholeLine, ls) && ParseLine(header) == None
    ensures Items(ParseLine, Lines(header + Render(ls), 0)) == Items(ParseLine, ls)
  {
    LinesOfRender("", [header] + ls);
    assert ([header] + ls)[1..] == ls;
    assert "" + Render([header] + ls) == header + Render(ls);
  }

  // ---- reading the blocks ----------------------------------------------

  function MapHosts(re: Host -> Host, hs: seq<Host>): (r: seq<Host>)
    ensures |r| == |hs| && forall i :: 0 <= i < |hs| ==> r[i] == re(hs[i])
  {
    if hs == [] then [] else [re(hs[0])] + MapHosts(re, hs[1..])
  }

  lemma {:induction false} ReadFile(r: Rules<Host>, global: Host, items: Host -> seq<Item>, re: Host -> Host,
                                    hs: seq<Host>)
    requires forall h :: h in hs ==>
      items(h) != [] && items(h)[0].HostLine? && ReadBlocks(r, global, items(h)) == [re(h)]
    ensures var ds := FlatMap(items, hs);
            (ds != [] ==> ds[0].HostLine?) && ReadBlocks(r, global, ds) == MapHosts(re, hs)
  {
    if hs != [] {
      ReadFile(r, global, items, re, hs[1..]);
      BlocksConcat(r, global, items(hs[0]), FlatMap(items, hs[1..]));
    }
  }

  lemma EmptyDefaults(h: Host)
    ensures ApplyDefaults(h, EMPTY_HOST) == h
  {
  }

  lemma TrimNoWildcard(name: string)
    requires !HasWildcard(name) && Lead(name)
    ensures !HasWildcard(Trim(name))
  {
    TrimTail(name);
  }

  lemma BlockRead(home: string, h: Host)
    requires HostShape(h) && h.name != ""
    ensures ReadBlocks(SshRules(home), EMPTY_HOST, HostItems(h)) == [Reread(home, h)]
  {
    var r := SshRules(home);
    var ps := HostPairs(h);
    var g := NewHost(Trim(h.name));
    TrimNoWildcard(h.name);
    LastBlock(r, EMPTY_HOST, Trim(h.name), PairItems(ps));
    DoAllFold(r, g, ps);
    BlockReread(home, h, g);
    EmptyDefaults(Reread(home, h));
  }

  /** When every host has a name, each is read back as its `Reread`, and nothing else is. */
  lemma ReadsBack(home: string, hs: seq<Host>)
    requires forall h :: h in hs ==> HostShape(h) && h.name != ""
    ensures ParseConfig(home, PrintConfig(hs)) == MapHosts(h => Reread(home, h), hs)
  {
    var r := SshRules(home);
    var ds := FlatMap(HostItems, hs);
    forall h | h in hs
      ensures HostItems(h) != [] && HostItems(h)[0].HostLine?
      ensures ReadBlocks(r, EMPTY_HOST, HostItems(h)) == [Reread(home, h)]
    {
      BlockRead(home, h);
    }
    var re := h => Reread(home, h);
    ReadFile(r, EMPTY_HOST, HostItems, re, hs);
    ConfigItems(hs);
    NoGlobals(r, ds);
  }

  lemma NoGlobals(r: Rules<Host>, ds: seq<Item>)
    requires ds != [] ==> ds[0].HostLine?
    ensures ReadAll(r, ds) == ReadBlocks(r, r.empty, ds)
  {
    assert NextHost(ds, 0) == 0;
    assert ds[..0] == [] && ds[0..] == ds;
  }

  // ---- exactly which hosts survive -------------------------------------

  predicate Positive(f: Forward) {
    f.bindPort > 0 && f.remotePort > 0
  }

  predicate Solid(o: HostOption) {
    o.value != "" && Trimmed(o.value)
  }

  /** No field of `h` is one that the text format loses. */
  predicate Stable(h: Host) {
    && h.name != "" && Trimmed(h.name)
    && h.hostname != "" && Trimmed(h.hostname)
    && Trimmed(h.user) && Trimmed(h.proxyJump)
    && Trimmed(h.identityFile) && !HasTilde(h.identityFile)
    && (forall f :: f in h.local ==> Positive(f))
    && (forall f :: f in h.remote ==> Positive(f))
    && (forall o :: o in h.options ==> Solid(o))
  }

  lemma TrimFixed(s: string)
    ensures Trim(s) == s <==> Trimmed(s)
  {
    TrimFacts(s);
    if Trimmed(s) { TrimWhole(s); }
  }

  lemma AppendedEqual<T>(a: seq<T>, x: seq<T>, front: seq<T>, last: T)
    requires |a| <= |front| && |x| <= 1
    ensures a + x == front + [last] <==> a == front && x == [last]
  {
    if a + x == front + [last] {
      assert |a| == |front| && |x| == 1;
      assert (a + x)[..|a|] == a && (front + [last])[..|a|] == front;
      assert (a + x)[|a|] == x[0];
    }
  }

  /** If every element leaves at most itself, all are left exactly when each is. */
  lemma {:induction false} AllSurvive<T>(part: T -> seq<T>, ok: T -> bool, xs: seq<T>)
    requires forall x :: x in xs ==> |part(x)| <= 1 && (part(x) == [x] <==> ok(x))
    ensures Survivors(part, xs) == xs <==> forall x :: x in xs ==> ok(x)
  {
    if xs != [] {
      var last, front := xs[|xs| - 1], xs[..|xs| - 1];
      assert xs == front + [last] && last in xs;
      AllSurvive(part, ok, front);
      SurvivorsFew(part, front);
      AppendedEqual(Survivors(part, front), part(last), front, last);
    }
  }

  lemma AcceptedAll(fs: seq<Forward>)
    ensures Accepted(fs) == fs <==> forall f :: f in fs ==> Positive(f)
  {
    AllSurvive(Surviving, Positive, fs);
  }

  lemma OptionFixed(o: HostOption)
    ensures |Reoption(o)| <= 1 && (Reoption(o) == [o] <==> Solid(o))
  {
    TrimFixed(o.value);
  }

  lemma KeptAll(os: seq<HostOption>)
    ensures Kept(os) == os <==> forall o :: o in os ==> Solid(o)
  {
    forall o | o in os ensures |Reoption(o)| <= 1 && (Reoption(o) == [o] <==> Solid(o)) {
      OptionFixed(o);
    }
    AllSurvive(Reoption, Solid, os);
  }

  /** An identity file survives exactly when it is trimmed and not to be expanded. */
  lemma IdentityFixed(home: string, id: string)
    requires HomeOk(home) && Field(id, 511) && id != ""
    ensures ExpandTilde(home, Trim(id), 511) == id <==> Trimmed(id) && !HasTilde(id)
  {
    TrimTail(id);
    TrimFixed(id);
    var t := Trim(id);
    if HasTilde(t) {
      assert HasTilde(id);
      var e := home + t[1..];
      assert e[0] != '~';
      assert Cut(e, 511)[0] == e[0];
    }
  }

  lemma RereadFixed(home: string, h: Host)
    requires HomeOk(home) && Field(h.identityFile, 511) && Lead(h.name) && h.name != ""
    ensures Reread(home, h) == h <==> Stable(h)
  {
    var id := if h.identityFile == "" then "" else ExpandTilde(home, Trim(h.identityFile), 511);
    if h.identityFile != "" { IdentityFixed(home, h.identityFile); }
    assert id == h.identityFile <==> Trimmed(h.identityFile) && !HasTilde(h.identityFile);
    NamesFixed(h);
    TrimFixed(h.user);
    TrimFixed(h.proxyJump);
    AcceptedAll(h.local);
    AcceptedAll(h.remote);
    KeptAll(h.options);
  }

  lemma NamesFixed(h: Host)
    requires Lead(h.name) && h.name != ""
    ensures var hostname := if h.hostname == "" || h.hostname == h.name then Trim(h.name) else Trim(h.hostname);
            Trim(h.name) == h.name && hostname == h.hostname <==>
            Trimmed(h.name) && h.hostname != "" && Trimmed(h.hostname)
  {
    TrimTail(h.name);
    TrimFixed(h.name);
    TrimFixed(h.hostname);
  }

  // ---- an unnamed host disappears --------------------------------------

  function Heads(ds: seq<Item>): nat {
    if ds == [] then 0 else Heads(ds[1..]) + (if ds[0].HostLine? then 1 else 0)
  }

  lemma {:induction false} HeadsConcat(a: seq<Item>, b: seq<Item>)
    ensures Heads(a + b) == Heads(a) + Heads(b)
  {
    if a == [] {
      assert a + b == b;
    } else {
      assert (a + b)[1..] == a[1..] + b;
      HeadsConcat(a[1..], b);
    }
  }

  lemma {:induction false} BlocksCount<H>(r: Rules<H>, global: H, ds: seq<Item>)
    requires ds != [] ==> ds[0].HostLine?
    ensures |ReadBlocks(r, global, ds)| <= Heads(ds)
    decreases |ds|
  {
    if ds != [] {
      var e := NextHost(ds, 1);
      BlocksCount(r, global, ds[e..]);
      HeadsConcat(ds[..e], ds[e..]);
      assert ds[..e] + ds[e..] == ds && ds[..e][0].HostLine?;
    }
  }

  lemma {:induction false} NoHeads(ds: seq<Item>)
    requires NoHost(ds)
    ensures Heads(ds) == 0
  {
    if ds != [] { NoHeads(ds[1..]); }
  }

  lemma HeadsSuffix(ds: seq<Item>, e: nat)
    requires e <= |ds|
    ensures Heads(ds[e..]) <= Heads(ds)
  {
    HeadsConcat(ds[..e], ds[e..]);
    assert ds[..e] + ds[e..] == ds;
  }

  lemma AllCount<H>(r: Rules<H>, ds: seq<Item>)
    ensures |ReadAll(r, ds)| <= Heads(ds)
  {
    var e := NextHost(ds, 0);
    BlocksCount(r, Global(r, ds), ds[e..]);
    HeadsSuffix(ds, e);
  }

  /** At most one `Host` line a host, and one fewer for a host without a name. */
  lemma {:induction false} FileHeads(items: Host -> seq<Item>, hs: seq<Host>)
    requires forall h :: Heads(items(h)) == if h.name == "" then 0 else 1
    ensures Heads(FlatMap(items, hs)) <= |hs|
    ensures (exists h :: h in hs && h.name == "") ==> Heads(FlatMap(items, hs)) < |hs|
  {
    if hs != [] {
      FileHeads(items, hs[1..]);
      HeadsConcat(items(hs[0]), FlatMap(items, hs[1..]));
      assert hs == [hs[0]] + hs[1..];
    }
  }

  lemma HostHeads(h: Host)
    ensures Heads(HostItems(h)) == if h.name == "" then 0 else 1
  {
    var ps := PairItems(HostPairs(h));
    NoHeads(ps);
    HeadsConcat(HeadItem(h), ps);
  }

  lemma UnnamedLost(home: string, hs: seq<Host>, h: Host)
    requires (forall g :: g in hs ==> HostShape(g)) && h in hs && h.name == ""
    ensures |ParseConfig(home, PrintConfig(hs))| < |hs|
  {
    ConfigItems(hs);
    AllCount(SshRules(home), FlatMap(HostItems, hs));
    forall g ensures Heads(HostItems(g)) == if g.name == "" then 0 else 1 { HostHeads(g); }
    FileHeads(HostItems, hs);
  }

  // ---- the theorems ----------------------------------------------------

  lemma MapFixed(re: Host -> Host, hs: seq<Host>)
    ensures MapHosts(re, hs) == hs <==> forall h :: h in hs ==> re(h) == h
  {
    var r := MapHosts(re, hs);
    if r == hs {
      forall h | h in hs ensures re(h) == h {
        var i :| 0 <= i < |hs| && hs[i] == h;
        assert r[i] == re(hs[i]);
      }
    }
  }

  lemma ShapedRoundTrip(home: string, hs: seq<Host>)
    requires HomeOk(home) && forall h :: h in hs ==> HostShape(h)
    ensures ParseConfig(home, PrintConfig(hs)) == hs <==> forall h :: h in hs ==> Stable(h)
  {
    if h :| h in hs && h.name == "" {
      UnnamedLost(home, hs, h);
    } else {
      var re := h => Reread(home, h);
      ReadsBack(home, hs);
      MapFixed(re, hs);
      forall h | h in hs ensures re(h) == h <==> Stable(h) {
        RereadFixed(home, h);
      }
    }
  }

  /** A list of hosts written by the printer is read back unchanged if and only if every host fits
      the buffers of the record and no field of it is one that the format loses. */
  lemma RoundTrips(home: string, hs: seq<Host>)
    requires HomeOk(home)
    ensures ParseConfig(home, PrintConfig(hs)) == hs <==> forall h :: h in hs ==> HostShape(h) && Stable(h)
  {
    if ParseConfig(home, PrintConfig(hs)) == hs {
      ParsedShape(home, PrintConfig(hs));
    }
    if forall h :: h in hs ==> HostShape(h) {
      ShapedRoundTrip(home, hs);
    }
  }

  /** Whatever text the hosts came from, rewriting the file changes none of them if and only if
      every one of them is stable. */
  lemma Stabilises(home: string, text: string)
    requires HomeOk(home)
    ensures var hs := ParseConfig(home, text);
            ParseConfig(home, PrintConfig(hs)) == hs <==> forall h :: h in hs ==> Stable(h)
  {
    ParsedShape(home, text);
    ShapedRoundTrip(home, ParseConfig(home, text));
  }
}
