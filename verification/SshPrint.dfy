/** The text `ssh_hosts_write_config` writes, as the list of its lines. */
module SshPrint {
  import opened CText
  import opened SshHost

  /** The bytes of the header line; the dash is one three-byte UTF-8 character. */
  const HEADER := "# Generato da SSHPad " + "\U{e2}\U{80}\U{94} non modificare " + "manualmente" + "\n"

  /** One written line of a host block. */
  datatype Pair = Pair(key: string, value: string)

  function Line(p: Pair): string {
    "    " + p.key + " " + p.value + "\n"
  }

  /** A line that is omitted when its value is empty. */
  function UnlessEmpty(key: string, value: string): seq<Pair> {
    if value == "" then [] else [Pair(key, value)]
  }

  function ForwardText(f: Forward): string {
    f.bindAddr + ":" + FormatInt(f.bindPort) + " " + f.remoteHost + ":" + FormatInt(f.remotePort)
  }

  function DynamicText(d: Dynamic): string {
    d.bindAddr + ":" + FormatInt(d.bindPort)
  }

  /** One line for every element of `xs`. */
  function PairsOf<T>(key: string, text: T -> string, xs: seq<T>): seq<Pair> {
    if xs == [] then [] else PairsOf(key, text, xs[..|xs| - 1]) + [Pair(key, text(xs[|xs| - 1]))]
  }

  function OptionPairs(os: seq<HostOption>): seq<Pair> {
    if os == [] then [] else OptionPairs(os[..|os| - 1]) + [Pair(os[|os| - 1].key, os[|os| - 1].value)]
  }

  /** The host name is left out when it repeats the alias. */
  function ShownHostName(h: Host): string {
    if h.hostname == h.name then "" else h.hostname
  }

  /** The port is left out when it is unset or the default. */
  function ShownPort(h: Host): string {
    if h.port == 0 || h.port == 22 then "" else FormatInt(h.port)
  }

  /** The lines of a host block after its first. */
  function HostPairs(h: Host): seq<Pair> {
    UnlessEmpty("HostName", ShownHostName(h))
    + UnlessEmpty("User", h.user)
    + UnlessEmpty("Port", ShownPort(h))
    + UnlessEmpty("IdentityFile", h.identityFile)
    + UnlessEmpty("ProxyJump", h.proxyJump)
    + PairsOf("LocalForward", ForwardText, h.local)
    + PairsOf("RemoteForward", ForwardText, h.remote)
    + PairsOf("DynamicForward", DynamicText, h.dynamic)
    + OptionPairs(h.options)
  }

  function PairLines(ps: seq<Pair>): seq<string> {
    if ps == [] then [] else PairLines(ps[..|ps| - 1]) + [Line(ps[|ps| - 1])]
  }

  function HostLines(h: Host): seq<string> {
    ["\n", "Host " + h.name + "\n"] + PairLines(HostPairs(h))
  }

  /** The parts `part` gives for the elements of `xs`, in order. */
  function FlatMap<A, B>(part: A -> seq<B>, xs: seq<A>): seq<B> {
    if xs == [] then [] else part(xs[0]) + FlatMap(part, xs[1..])
  }

  function Render(lines: seq<string>): string {
    if lines == [] then "" else lines[0] + Render(lines[1..])
  }

  function PrintConfig(hs: seq<Host>): string {
    HEADER + Render(FlatMap(HostLines, hs))
  }
}
