/** `ssh_hosts_write_config` as it writes: one formatted line after the other. */
module SshWriter {
  import opened SshHost
  import opened SshPrint

  lemma {:induction false} RenderConcat(a: seq<string>, b: seq<string>)
    ensures Render(a + b) == Render(a) + Render(b)
  {
    if a == [] {
      assert a + b == b;
    } else {
      assert (a + b)[1..] == a[1..] + b;
      RenderConcat(a[1..], b);
    }
  }

  lemma {:induction false} PairLinesConcat(a: seq<Pair>, b: seq<Pair>)
    ensures PairLines(a + b) == PairLines(a) + PairLines(b)
  {
    if b == [] {
      assert a + b == a;
    } else {
      assert (a + b)[..|a + b| - 1] == a + b[..|b| - 1];
      PairLinesConcat(a, b[..|b| - 1]);
    }
  }

  function PairText(ps: seq<Pair>): string {
    Render(PairLines(ps))
  }

  lemma PairTextConcat(a: seq<Pair>, b: seq<Pair>)
    ensures PairText(a + b) == PairText(a) + PairText(b)
  {
    PairLinesConcat(a, b);
    RenderConcat(PairLines(a), PairLines(b));
  }

  lemma RenderTwo(a: string, b: string, rest: seq<string>)
    ensures Render([a]) == a
    ensures Render([a, b] + rest) == a + b + Render(rest)
  {
    assert [a][1..] == [] && a + "" == a;
    assert ([a, b] + rest)[1..] == [b] + rest && ([b] + rest)[1..] == rest;
    assert Render([b] + rest) == b + Render(rest);
    assert a + (b + Render(rest)) == a + b + Render(rest);
  }

  lemma PairTextOne(p: Pair)
    ensures PairText([p]) == Line(p)
  {
    assert [p][..0] == [];
    assert PairLines([p]) == [] + [Line(p)] == [Line(p)];
    RenderTwo(Line(p), "", []);
  }

  /** A line unless its value is empty. */
  method PutScalar(key: string, value: string) returns (r: string)
    ensures r == PairText(UnlessEmpty(key, value))
  {
    r := "";
    if value != "" {
      PairTextOne(Pair(key, value));
      r := Line(Pair(key, value));
    }
  }

  /** A line for every element. */
  method PutAll<T>(key: string, show: T -> string, xs: seq<T>) returns (r: string)
    ensures r == PairText(PairsOf(key, show, xs))
  {
    r := "";
    for i := 0 to |xs|
      invariant r == PairText(PairsOf(key, show, xs[..i]))
    {
      var p := Pair(key, show(xs[i]));
      assert xs[..i + 1][..i] == xs[..i];
      PairTextConcat(PairsOf(key, show, xs[..i]), [p]);
      PairTextOne(p);
      r := r + Line(p);
    }
    assert xs[..|xs|] == xs;
  }

  method PutOptions(os: seq<HostOption>) returns (r: string)
    ensures r == PairText(OptionPairs(os))
  {
    r := "";
    for i := 0 to |os|
      invariant r == PairText(OptionPairs(os[..i]))
    {
      var p := Pair(os[i].key, os[i].value);
      assert os[..i + 1][..i] == os[..i];
      PairTextConcat(OptionPairs(os[..i]), [p]);
      PairTextOne(p);
      r := r + Line(p);
    }
    assert os[..|os|] == os;
  }

  lemma NineTexts(
      p1: seq<Pair>, p2: seq<Pair>, p3: seq<Pair>, p4: seq<Pair>, p5: seq<Pair>,
      p6: seq<Pair>, p7: seq<Pair>, p8: seq<Pair>, p9: seq<Pair>)
    ensures PairText(p1 + p2 + p3 + p4 + p5 + p6 + p7 + p8 + p9) ==
            PairText(p1) + PairText(p2) + PairText(p3) + PairText(p4) + PairText(p5)
            + PairText(p6) + PairText(p7) + PairText(p8) + PairText(p9)
  {
    PairTextConcat(p1, p2);
    PairTextConcat(p1 + p2, p3);
    PairTextConcat(p1 + p2 + p3, p4);
    PairTextConcat(p1 + p2 + p3 + p4, p5);
    PairTextConcat(p1 + p2 + p3 + p4 + p5, p6);
    PairTextConcat(p1 + p2 + p3 + p4 + p5 + p6, p7);
    PairTextConcat(p1 + p2 + p3 + p4 + p5 + p6 + p7, p8);
    PairTextConcat(p1 + p2 + p3 + p4 + p5 + p6 + p7 + p8, p9);
  }

  /** The block of one host. */
  method PutHost(h: Host) returns (r: string)
    ensures r == Render(HostLines(h))
  {
    var t1 := PutScalar("HostName", ShownHostName(h));
    var t2 := PutScalar("User", h.user);
    var t3 := PutScalar("Port", ShownPort(h));
    var t4 := PutScalar("IdentityFile", h.identityFile);
    var t5 := PutScalar("ProxyJump", h.proxyJump);
    var t6 := PutAll("LocalForward", ForwardText, h.local);
    var t7 := PutAll("RemoteForward", ForwardText, h.remote);
    var t8 := PutAll("DynamicForward", DynamicText, h.dynamic);
    var t9 := PutOptions(h.options);
    var head := "Host " + h.name + "\n";
    RenderTwo("\n", head, PairLines(HostPairs(h)));
    NineTexts(UnlessEmpty("HostName", ShownHostName(h)), UnlessEmpty("User", h.user), UnlessEmpty("Port", ShownPort(h)),
      UnlessEmpty("IdentityFile", h.identityFile), UnlessEmpty("ProxyJump", h.proxyJump),
      PairsOf("LocalForward", ForwardText, h.local), PairsOf("RemoteForward", ForwardText, h.remote),
      PairsOf("DynamicForward", DynamicText, h.dynamic), OptionPairs(h.options));
    r := "\n" + head + (t1 + t2 + t3 + t4 + t5 + t6 + t7 + t8 + t9);
  }

  lemma {:induction false} FlatMapSnoc<A, B>(part: A -> seq<B>, xs: seq<A>, x: A)
    ensures FlatMap(part, xs + [x]) == FlatMap(part, xs) + part(x)
  {
    if xs == [] {
      assert [x][1..] == [] && [] + [x] == [x];
    } else {
      assert (xs + [x])[1..] == xs[1..] + [x];
      FlatMapSnoc(part, xs[1..], x);
    }
  }

  lemma TextUpTo(part: Host -> seq<string>, hs: seq<Host>, i: nat)
    requires i < |hs|
    ensures Render(FlatMap(part, hs[..i + 1])) == Render(FlatMap(part, hs[..i])) + Render(part(hs[i]))
  {
    assert hs[..i + 1] == hs[..i] + [hs[i]];
    FlatMapSnoc(part, hs[..i], hs[i]);
    RenderConcat(FlatMap(part, hs[..i]), part(hs[i]));
  }

  method WriteBlocks(hosts: seq<Host>, ghost part: Host -> seq<string>) returns (text: string)
    requires forall h {:trigger Render(part(h))} :: part(h) == HostLines(h)
    ensures text == Render(FlatMap(part, hosts))
  {
    text := "";
    for i := 0 to |hosts|
      invariant text == Render(FlatMap(part, hosts[..i]))
    {
      var block := PutHost(hosts[i]);
      TextUpTo(part, hosts, i);
      text := text + block;
    }
    assert hosts[..|hosts|] == hosts;
  }

  /** The text of the whole file. */
  method WriteConfig(hosts: seq<Host>) returns (text: string)
    ensures text == PrintConfig(hosts)
  {
    var blocks := WriteBlocks(hosts, HostLines);
    text := HEADER + blocks;
  }
}
