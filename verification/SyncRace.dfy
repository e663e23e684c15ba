/** Saving with several threads: the list is changed under the lock, encoded and stored after it
    has been released. Each of the three is one step here. */
module SyncRace {
  import opened CText
  import opened SshHost
  import opened ConfigSteps
  import opened ConfigRuns
  import opened Runs

  type Hosts = seq<Host>

  /** Where a thread inside `cm_save_host` or `cm_delete_host` is. */
  datatype Phase = Changed | Encoded(hosts: Hosts)

  /** `history` lists every value the list had, oldest first. */
  datatype Race = Race(history: seq<Hosts>, remote: Maybe<Hosts>, threads: map<nat, Phase>)

  datatype Event = Edit(t: nat, op: Op) | Encode(t: nat) | Land(t: nat, ok: bool)

  function Current(s: Race): Hosts
    requires s.history != []
  {
    s.history[|s.history| - 1]
  }

  predicate Enabled(s: Race, e: Event) {
    && s.history != []
    && match e
       case Edit(t, op) => t !in s.threads && IsEdit(op)
       case Encode(t) => t in s.threads && s.threads[t].Changed?
       case Land(t, _) => t in s.threads && s.threads[t].Encoded?
  }

  function Next(s: Race, e: Event): Race
    requires Enabled(s, e)
  {
    match e
    case Edit(t, op) => s.(history := s.history + [EditOne(Current(s), op)], threads := s.threads[t := Changed])
    case Encode(t) => s.(threads := s.threads[t := Encoded(Current(s))])
    case Land(t, ok) =>
      s.(threads := s.threads - {t}, remote := if ok then Some(s.threads[t].hosts) else s.remote)
  }

  function Init(hosts: Hosts): Race {
    Race([hosts], None, map[])
  }

  function Step(s: Race, e: Event): Maybe<Race> {
    if Enabled(s, e) then Some(Next(s, e)) else None
  }

  function Run(hosts: Hosts, es: seq<Event>): Maybe<Race> {
    RunFrom(Step, Init(hosts), es)
  }

  /** What is stored, or about to be, is some value the list has had. */
  predicate FromHistory(s: Race) {
    && s.history != []
    && (s.remote.Some? ==> s.remote.value in s.history)
    && (forall t :: t in s.threads && s.threads[t].Encoded? ==> s.threads[t].hosts in s.history)
  }

  /** In every interleaving, whatever is stored is a value the list once had. */
  lemma {:induction false} StoresSnapshots(hosts: Hosts, es: seq<Event>)
    requires Run(hosts, es).Some?
    ensures FromHistory(Run(hosts, es).value)
  {
    if es != [] {
      StoresSnapshots(hosts, es[..|es| - 1]);
    }
  }

  // ---- exactly which list is stored ---------------------------------------

  /** The number of edits in a run. */
  function EditCount(es: seq<Event>): nat {
    if es == [] then 0 else EditCount(es[..|es| - 1]) + (if es[|es| - 1].Edit? then 1 else 0)
  }

  /** How many edits precede the last encoding by thread `t`. */
  function EncodedAt(es: seq<Event>, t: nat): (n: nat)
    ensures n <= EditCount(es)
  {
    if es == [] then 0
    else if es[|es| - 1] == Encode(t) then EditCount(es[..|es| - 1])
    else EncodedAt(es[..|es| - 1], t)
  }

  /** How many edits precede the encoding of what landed last, if anything did. */
  function Landed(es: seq<Event>): (n: Maybe<nat>)
    ensures n.Some? ==> n.value <= EditCount(es)
  {
    if es == [] then None
    else if es[|es| - 1].Land? && es[|es| - 1].ok then Some(EncodedAt(es[..|es| - 1], es[|es| - 1].t))
    else Landed(es[..|es| - 1])
  }

  predicate Versioned(s: Race, es: seq<Event>) {
    && |s.history| == EditCount(es) + 1
    && s.remote == (if Landed(es).Some? then Some(s.history[Landed(es).value]) else None)
    && (forall t :: t in s.threads && s.threads[t].Encoded? ==> s.threads[t].hosts == s.history[EncodedAt(es, t)])
  }

  lemma StepVersioned(s: Race, es: seq<Event>, e: Event, all: seq<Event>)
    requires Versioned(s, es) && Enabled(s, e) && all != [] && all[..|all| - 1] == es && all[|all| - 1] == e
    ensures Versioned(Next(s, e), all)
  {
  }

  lemma {:induction false} RunVersioned(hosts: Hosts, es: seq<Event>)
    requires Run(hosts, es).Some?
    ensures Versioned(Run(hosts, es).value, es)
  {
    if es != [] {
      RunVersioned(hosts, es[..|es| - 1]);
      StepVersioned(Run(hosts, es[..|es| - 1]).value, es[..|es| - 1], es[|es| - 1], es);
    }
  }

  /** In every interleaving the stored list is the one the last successful landing encoded; so the newest
      list, if it differs from all before, is stored if and only if what landed last was encoded after
      the last edit. */
  lemma NewestStored(hosts: Hosts, es: seq<Event>)
    requires Run(hosts, es).Some?
    ensures var s := Run(hosts, es).value;
            && |s.history| == EditCount(es) + 1
            && s.remote == (if Landed(es).Some? then Some(s.history[Landed(es).value]) else None)
            && ((forall i :: 0 <= i < EditCount(es) ==> s.history[i] != Current(s)) ==>
                  (s.remote == Some(Current(s)) <==> Landed(es) == Some(EditCount(es))))
  {
    RunVersioned(hosts, es);
  }

  // ---- one synchronisation at a time ------------------------------------

  predicate Storing(s: Race, t: nat) {
    t in s.threads && s.threads[t].Encoded?
  }

  /** A synchronisation starts only when none is under way, and none fails. */
  ghost predicate OneByOne(s: Race, e: Event) {
    && (e.Encode? ==> forall t :: !Storing(s, t))
    && (e.Land? ==> e.ok)
  }

  ghost predicate RunOneByOne(hosts: Hosts, es: seq<Event>)
    requires Run(hosts, es).Some?
  {
    es != [] ==>
      && RunOneByOne(hosts, es[..|es| - 1])
      && OneByOne(Run(hosts, es[..|es| - 1]).value, es[|es| - 1])
  }

  /** Unless a change still waits to be encoded, the newest list is stored or on its way. */
  ghost predicate UpToDate(s: Race) {
    && s.history != []
    && (forall t, u :: Storing(s, t) && Storing(s, u) ==> t == u)
    && ((forall t :: t in s.threads ==> s.threads[t].Encoded?) ==>
          if s.threads == map[] then |s.history| == 1 || s.remote == Some(Current(s))
          else forall t :: t in s.threads ==> s.threads[t].hosts == Current(s))
  }

  lemma StepUpToDate(s: Race, e: Event)
    requires UpToDate(s) && Enabled(s, e) && OneByOne(s, e)
    ensures UpToDate(Next(s, e))
  {
    var n := Next(s, e);
    match e
    case Edit(t, _) =>
      assert n.threads[t].Changed?;
      forall u | Storing(n, u) ensures Storing(s, u) { assert u != t; }
    case Encode(t) =>
      forall u | Storing(n, u) ensures u == t { assert u != t ==> Storing(s, u); }
      assert t in n.threads;
      forall u | u in n.threads && n.threads[u].Encoded? ensures u == t { assert Storing(n, u); }
    case Land(t, _) =>
      forall u | Storing(n, u) ensures false { assert Storing(s, u) && Storing(s, t); }
      if n.threads == map[] {
        forall u | u in s.threads ensures u == t { assert u != t ==> u in n.threads; }
      } else {
        var u :| u in n.threads;
        assert !Storing(n, u);
      }
  }

  lemma {:induction false} RunUpToDate(hosts: Hosts, es: seq<Event>)
    requires Run(hosts, es).Some? && RunOneByOne(hosts, es)
    ensures UpToDate(Run(hosts, es).value)
  {
    if es != [] {
      RunUpToDate(hosts, es[..|es| - 1]);
      StepUpToDate(Run(hosts, es[..|es| - 1]).value, es[|es| - 1]);
    }
  }

  /** If synchronisations do not overlap and do not fail, then once every call has returned the
      newest list is the stored one. */
  lemma SerialSyncsPublish(hosts: Hosts, es: seq<Event>)
    requires Run(hosts, es).Some? && RunOneByOne(hosts, es)
    ensures var s := Run(hosts, es).value;
            s.threads == map[] && |s.history| > 1 ==> s.remote == Some(Current(s))
  {
    RunUpToDate(hosts, es);
  }

  // ---- overlapping synchronisations ---------------------------------------

  /** Nothing enforces that: two saves that both succeed can leave the older list stored. */
  lemma StaleRemote(a: Host, b: Host) returns (es: seq<Event>)
    requires a.name != b.name
    ensures Run([], es).Some?
    ensures forall e :: e in es && e.Land? ==> e.ok
    ensures var s := Run([], es).value;
            s.threads == map[] && Current(s) == [a, b] && s.remote == Some([a])
  {
    var s0 := Init([]);
    var s1 := Next(s0, Edit(1, SaveHost(a, Done)));
    assert Current(s1) == [a];
    var s2 := Next(s1, Encode(1));
    var s3 := Next(s2, Edit(2, SaveHost(b, Done)));
    assert Current(s3) == [a, b];
    var s4 := Next(s3, Encode(2));
    var s5 := Next(s4, Land(2, true));
    es := [];
    es := Extend(Step, s0, es, s0, Edit(1, SaveHost(a, Done)), s1);
    es := Extend(Step, s0, es, s1, Encode(1), s2);
    es := Extend(Step, s0, es, s2, Edit(2, SaveHost(b, Done)), s3);
    es := Extend(Step, s0, es, s3, Encode(2), s4);
    es := Extend(Step, s0, es, s4, Land(2, true), s5);
    es := Extend(Step, s0, es, s5, Land(1, true), Next(s5, Land(1, true)));
  }
}
