/** The one-pass reader: a line buffer, the record being filled, and an array of records
    that doubles when it is full. Proved to compute `SshParse.ParseConfig`. */
module SshReader {
  import opened CText
  import opened SshBlocks
  import opened SshDirectives
  import opened SshHost
  import opened SshParse

  class Reader {
    const home: string
    var hosts: array<Host>
    var count: nat
    var defaults: Host
    /** `current != &defaults`: the last claimed record is being filled. */
    var onHost: bool
    var skip: bool

    ghost predicate Valid()
      reads this, hosts
    {
      count <= hosts.Length && 0 < hosts.Length && (onHost ==> count > 0)
    }

    ghost function State(): (v: View<Host>)
      reads this, hosts
      requires Valid()
      ensures Sane(v)
    {
      View(hosts[..count], defaults, onHost, skip)
    }

    constructor (home: string)
      ensures Valid() && fresh(hosts)
      ensures this.home == home && State() == Run(SshRules(home), [])
    {
      this.home := home;
      hosts := new Host[8](_ => EMPTY_HOST);
      count, defaults, onHost, skip := 0, EMPTY_HOST, false, false;
    }

    /** Close the record being filled, if there is one. */
    method Finalise()
      requires Valid()
      modifies hosts
      ensures Valid() && hosts[..count] == Close(SshRules(home), old(State()))
    {
      if onHost {
        var h := InheritDefaults(hosts[count - 1], defaults);
        hosts[count - 1] := h;
      }
    }

    /** Double the array when it is full. */
    method Grow()
      requires count <= hosts.Length && 0 < hosts.Length
      modifies this`hosts
      ensures count < hosts.Length && hosts[..count] == old(hosts[..count])
      ensures hosts.Length == if count < old(hosts.Length) then old(hosts.Length) else 2 * old(hosts.Length)
      ensures hosts == old(hosts) || fresh(hosts)
    {
      if count >= hosts.Length {
        var more := new Host[2 * hosts.Length](_ => EMPTY_HOST);
        for i := 0 to count
          invariant count == old(count) && hosts == old(hosts) && fresh(more) && more.Length == 2 * hosts.Length
          invariant forall j :: 0 <= j < i ==> more[j] == hosts[j]
        {
          more[i] := hosts[i];
        }
        hosts := more;
      }
    }

    /** A `Host` line. */
    method BeginHost(value: string)
      requires Valid()
      modifies this, hosts
      ensures Valid() && State() == Step(SshRules(home), old(State()), HostLine(value))
      ensures hosts == old(hosts) || fresh(hosts)
    {
      Finalise();
      ghost var stored := hosts[..count];
      if HasWildcard(value) {
        skip, onHost := true, false;
      } else {
        skip := false;
        Grow();
        hosts[count] := NewHost(value);
        count, onHost := count + 1, true;
        assert hosts[..count] == stored + [NewHost(value)];
      }
    }

    /** Any other line. */
    method Apply(key: string, value: string)
      requires Valid()
      modifies this, hosts
      ensures Valid() && State() == Step(SshRules(home), old(State()), OtherLine(key, value))
      ensures hosts == old(hosts)
    {
      if skip {
      } else if onHost {
        ghost var stored := hosts[..count];
        var h := ApplyDirective(home, hosts[count - 1], key, value);
        hosts[count - 1] := h;
        assert hosts[..count] == stored[count - 1 := h];
      } else {
        defaults := ApplyDirective(home, defaults, key, value);
      }
    }

    method Consume(d: Item)
      requires Valid()
      modifies this, hosts
      ensures Valid() && State() == Step(SshRules(home), old(State()), d)
      ensures hosts == old(hosts) || fresh(hosts)
    {
      match d
      case HostLine(value) => BeginHost(value);
      case OtherLine(key, value) => Apply(key, value);
    }

    /** The `fgets` loop. */
    method Parse(text: string) returns (r: seq<Host>)
      requires Valid() && State() == Run(SshRules(home), [])
      modifies this, hosts
      ensures r == ParseConfig(home, text)
    {
      var pos := 0;
      ghost var rules := SshRules(home);
      ghost var seen: seq<Item> := [];
      while pos < |text|
        invariant 0 <= pos <= |text|
        invariant Valid() && (hosts == old(hosts) || fresh(hosts))
        invariant State() == Run(rules, seen)
        invariant seen + Items(ParseLine, Lines(text, pos)) == Items(ParseLine, Lines(text, 0))
        decreases |text| - pos
      {
        var e := ChunkEnd(text, pos);
        var parsed := ReadLine(text[pos..e]);
        LineStep(text, pos);
        if parsed.Some? {
          Consume(parsed.value);
          RunSnoc(rules, seen, parsed.value);
          seen := seen + [parsed.value];
        }
        pos := e;
      }
      OnePass(rules, seen);
      assert seen == Items(ParseLine, Lines(text, 0));
      Finalise();
      r := hosts[..count];
    }
  }

  /** The directives from `pos` on are those of one line and those after it. */
  lemma LineStep(text: string, pos: nat)
    requires pos < |text|
    ensures var line := text[pos..ChunkEnd(text, pos)];
            Items(ParseLine, Lines(text, pos)) ==
              (if ParseLine(line).Some? then [ParseLine(line).value] else [])
              + Items(ParseLine, Lines(text, ChunkEnd(text, pos)))
  {
    var rest := Lines(text, ChunkEnd(text, pos));
    assert Lines(text, pos)[1..] == rest;
  }
}
