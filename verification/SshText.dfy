/** The bytes of the written file, spelled out host by host without the printer's own functions. */
module SshText {
  import opened CText
  import opened SshHost
  import opened SshPrint
  import opened SshWriter

  /** The texts `text` gives for the elements of `xs`, one after the other. */
  function Joined<T>(text: T -> string, xs: seq<T>): string {
    if xs == [] then "" else text(xs[0]) + Joined(text, xs[1..])
  }

  function AddressText(address: string, port: int): string {
    address + ":" + FormatInt(port)
  }

  function LocalText(f: Forward): string {
    "    LocalForward " + AddressText(f.bindAddr, f.bindPort) + " " + AddressText(f.remoteHost, f.remotePort) + "\n"
  }

  function RemoteText(f: Forward): string {
    "    RemoteForward " + AddressText(f.bindAddr, f.bindPort) + " " + AddressText(f.remoteHost, f.remotePort) + "\n"
  }

  function SocksText(d: Dynamic): string {
    "    DynamicForward " + AddressText(d.bindAddr, d.bindPort) + "\n"
  }

  function OptionText(o: HostOption): string {
    "    " + o.key + " " + o.value + "\n"
  }

  /** The directives of a host: its scalars unless they are unset, then its forwards and its options. */
  function Directives(h: Host): string {
    (if h.hostname == "" || h.hostname == h.name then "" else "    HostName " + h.hostname + "\n")
    + (if h.user == "" then "" else "    User " + h.user + "\n")
    + (if h.port == 0 || h.port == 22 then "" else "    Port " + FormatInt(h.port) + "\n")
    + (if h.identityFile == "" then "" else "    IdentityFile " + h.identityFile + "\n")
    + (if h.proxyJump == "" then "" else "    ProxyJump " + h.proxyJump + "\n")
    + Joined(LocalText, h.local)
    + Joined(RemoteText, h.remote)
    + Joined(SocksText, h.dynamic)
    + Joined(OptionText, h.options)
  }

  function HostText(h: Host): string {
    "\nHost " + h.name + "\n" + Directives(h)
  }

  lemma {:induction false} JoinedSnoc<T>(text: T -> string, xs: seq<T>, x: T)
    ensures Joined(text, xs + [x]) == Joined(text, xs) + text(x)
  {
    if xs == [] {
      assert [x][1..] == [] && [] + [x] == [x];
      assert Joined(text, [x]) == text(x) + "";
    } else {
      assert (xs + [x])[1..] == xs[1..] + [x];
      JoinedSnoc(text, xs[1..], x);
    }
  }

  lemma {:induction false} AllPairs<T>(key: string, show: T -> string, text: T -> string, xs: seq<T>)
    requires forall x {:trigger text(x)} :: text(x) == Line(Pair(key, show(x)))
    ensures PairText(PairsOf(key, show, xs)) == Joined(text, xs)
  {
    if xs != [] {
      var n := |xs| - 1;
      var p := Pair(key, show(xs[n]));
      AllPairs(key, show, text, xs[..n]);
      PairTextConcat(PairsOf(key, show, xs[..n]), [p]);
      PairTextOne(p);
      JoinedSnoc(text, xs[..n], xs[n]);
      assert xs[..n] + [xs[n]] == xs;
    }
  }

  lemma {:induction false} AllOptions(os: seq<HostOption>)
    ensures PairText(OptionPairs(os)) == Joined(OptionText, os)
  {
    if os != [] {
      var n := |os| - 1;
      var p := Pair(os[n].key, os[n].value);
      AllOptions(os[..n]);
      PairTextConcat(OptionPairs(os[..n]), [p]);
      PairTextOne(p);
      JoinedSnoc(OptionText, os[..n], os[n]);
      assert os[..n] + [os[n]] == os;
    }
  }

  lemma ScalarText(key: string, lead: string, value: string)
    requires lead == "    " + key + " "
    ensures PairText(UnlessEmpty(key, value)) == if value == "" then "" else lead + value + "\n"
  {
    PairTextOne(Pair(key, value));
  }

  lemma Leads()
    ensures "    HostName " == "    " + "HostName" + " " && "    User " == "    " + "User" + " "
    ensures "    Port " == "    " + "Port" + " " && "    IdentityFile " == "    " + "IdentityFile" + " "
    ensures "    ProxyJump " == "    " + "ProxyJump" + " "
  {
  }

  lemma ForwardLeads()
    ensures "    LocalForward " == "    " + "LocalForward" + " "
    ensures "    RemoteForward " == "    " + "RemoteForward" + " "
    ensures "    DynamicForward " == "    " + "DynamicForward" + " "
  {
  }

  lemma OneLine(lead: string, a: string, n: string, b: string, m: string)
    ensures lead + (a + ":" + n + " " + b + ":" + m) + "\n" == lead + (a + ":" + n) + " " + (b + ":" + m) + "\n"
  {
    var left := a + ":" + n;
    assert left + " " + b + ":" + m == left + " " + (b + ":" + m);
    assert lead + (left + " " + (b + ":" + m)) == lead + left + " " + (b + ":" + m);
  }

  lemma LocalLine(f: Forward)
    ensures LocalText(f) == Line(Pair("LocalForward", ForwardText(f)))
  {
    ForwardLeads();
    OneLine("    LocalForward ", f.bindAddr, FormatInt(f.bindPort), f.remoteHost, FormatInt(f.remotePort));
  }

  lemma RemoteLine(f: Forward)
    ensures RemoteText(f) == Line(Pair("RemoteForward", ForwardText(f)))
  {
    ForwardLeads();
    OneLine("    RemoteForward ", f.bindAddr, FormatInt(f.bindPort), f.remoteHost, FormatInt(f.remotePort));
  }

  lemma SocksLine(d: Dynamic)
    ensures SocksText(d) == Line(Pair("DynamicForward", DynamicText(d)))
  {
    ForwardLeads();
  }

  lemma ForwardLines(h: Host)
    ensures PairText(PairsOf("LocalForward", ForwardText, h.local)) == Joined(LocalText, h.local)
    ensures PairText(PairsOf("RemoteForward", ForwardText, h.remote)) == Joined(RemoteText, h.remote)
    ensures PairText(PairsOf("DynamicForward", DynamicText, h.dynamic)) == Joined(SocksText, h.dynamic)
  {
    forall f {:trigger LocalText(f)} ensures LocalText(f) == Line(Pair("LocalForward", ForwardText(f))) {
      LocalLine(f);
    }
    forall f {:trigger RemoteText(f)} ensures RemoteText(f) == Line(Pair("RemoteForward", ForwardText(f))) {
      RemoteLine(f);
    }
    forall d {:trigger SocksText(d)} ensures SocksText(d) == Line(Pair("DynamicForward", DynamicText(d))) {
      SocksLine(d);
    }
    AllPairs("LocalForward", ForwardText, LocalText, h.local);
    AllPairs("RemoteForward", ForwardText, RemoteText, h.remote);
    AllPairs("DynamicForward", DynamicText, SocksText, h.dynamic);
  }

  lemma ScalarLines(h: Host)
    ensures PairText(UnlessEmpty("HostName", ShownHostName(h))) ==
            if h.hostname == "" || h.hostname == h.name then "" else "    HostName " + h.hostname + "\n"
    ensures PairText(UnlessEmpty("User", h.user)) == if h.user == "" then "" else "    User " + h.user + "\n"
    ensures PairText(UnlessEmpty("IdentityFile", h.identityFile)) ==
            if h.identityFile == "" then "" else "    IdentityFile " + h.identityFile + "\n"
    ensures PairText(UnlessEmpty("ProxyJump", h.proxyJump)) ==
            if h.proxyJump == "" then "" else "    ProxyJump " + h.proxyJump + "\n"
  {
    Leads();
    ScalarText("HostName", "    HostName ", ShownHostName(h));
    ScalarText("User", "    User ", h.user);
    ScalarText("IdentityFile", "    IdentityFile ", h.identityFile);
    ScalarText("ProxyJump", "    ProxyJump ", h.proxyJump);
  }

  lemma PortLine(h: Host)
    ensures PairText(UnlessEmpty("Port", ShownPort(h))) ==
            if h.port == 0 || h.port == 22 then "" else "    Port " + FormatInt(h.port) + "\n"
  {
    Leads();
    ScalarText("Port", "    Port ", ShownPort(h));
    Printed(h.port);
  }

  lemma Printed(n: int)
    ensures FormatInt(n) != ""
  {
  }

  lemma PrintsDirectives(h: Host)
    ensures PairText(HostPairs(h)) == Directives(h)
  {
    ScalarLines(h);
    PortLine(h);
    ForwardLines(h);
    AllOptions(h.options);
    NineTexts(UnlessEmpty("HostName", ShownHostName(h)), UnlessEmpty("User", h.user), UnlessEmpty("Port", ShownPort(h)),
      UnlessEmpty("IdentityFile", h.identityFile), UnlessEmpty("ProxyJump", h.proxyJump),
      PairsOf("LocalForward", ForwardText, h.local), PairsOf("RemoteForward", ForwardText, h.remote),
      PairsOf("DynamicForward", DynamicText, h.dynamic), OptionPairs(h.options));
  }

  lemma HeadLine(name: string, rest: string)
    ensures "\n" + ("Host " + name + "\n") + rest == "\nHost " + name + "\n" + rest
  {
    assert "\nHost " == "\n" + "Host ";
  }

  /** The printed lines of a host are its block, byte for byte. */
  lemma PrintsHost(h: Host)
    ensures Render(HostLines(h)) == HostText(h)
  {
    PrintsDirectives(h);
    RenderTwo("\n", "Host " + h.name + "\n", PairLines(HostPairs(h)));
    HeadLine(h.name, Directives(h));
  }

  lemma {:induction false} PrintsHosts(lines: Host -> seq<string>, text: Host -> string, hs: seq<Host>)
    requires forall h {:trigger lines(h)} :: Render(lines(h)) == text(h)
    ensures Render(FlatMap(lines, hs)) == Joined(text, hs)
  {
    if hs != [] {
      RenderConcat(lines(hs[0]), FlatMap(lines, hs[1..]));
      PrintsHosts(lines, text, hs[1..]);
    }
  }

  /** The whole file: the header line, then the blocks of all hosts in order. */
  lemma PrintsFile(hs: seq<Host>)
    ensures PrintConfig(hs) ==
      "# Generato da SSHPad " + "\U{e2}\U{80}\U{94} non modificare manualmente\n" + Joined(HostText, hs)
  {
    forall h {:trigger Render(HostLines(h))} ensures Render(HostLines(h)) == HostText(h) {
      PrintsHost(h);
    }
    PrintsHosts(HostLines, HostText, hs);
    assert HEADER == "# Generato da SSHPad " + "\U{e2}\U{80}\U{94} non modificare manualmente\n";
  }
}
