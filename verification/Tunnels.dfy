/** The tunnel table. Choosing a slot and registering the process in it are two critical sections;
    each is one step here. */
module Tunnels {
  import opened CText
  import opened Runs

  const MAX_TUNNELS := 64

  datatype Entry = Entry(host: string, pid: int, active: bool)

  const NO_ENTRY := Entry("", 0, false)

  predicate AliasChar(c: char) {
    'a' <= c <= 'z' || 'A' <= c <= 'Z' || '0' <= c <= '9' || c == '-' || c == '_' || c == '.'
  }

  predicate ValidAlias(name: string) {
    name != "" && forall i :: 0 <= i < |name| ==> AliasChar(name[i])
  }

  predicate Serves(e: Entry, host: string) {
    e.active && e.host == host
  }

  /** The first active entry for `host` among the first `num`, or `num`. */
  function ActiveSlot(es: seq<Entry>, num: nat, host: string, i: nat := 0): (r: nat)
    requires i <= num <= |es|
    ensures i <= r <= num
    ensures forall j :: i <= j < r ==> !Serves(es[j], host)
    ensures r < num ==> Serves(es[r], host)
    decreases num - i
  {
    if i == num || Serves(es[i], host) then i else ActiveSlot(es, num, host, i + 1)
  }

  /** The first inactive entry among the first `num`, or `num`. */
  function IdleSlot(es: seq<Entry>, num: nat, i: nat := 0): (r: nat)
    requires i <= num <= |es|
    ensures i <= r <= num
    ensures forall j :: i <= j < r ==> es[j].active
    ensures r < num ==> !es[r].active
    decreases num - i
  {
    if i == num || !es[i].active then i else IdleSlot(es, num, i + 1)
  }

  datatype Table = Table(entries: seq<Entry>, num: nat)

  predicate Sized(t: Table) {
    |t.entries| == MAX_TUNNELS && t.num <= MAX_TUNNELS
  }

  /** The slot a start is given, unless it is refused. */
  function Choose(t: Table, host: string): Maybe<nat>
    requires Sized(t)
  {
    if !ValidAlias(host) || ActiveSlot(t.entries, t.num, host) < t.num then None
    else if IdleSlot(t.entries, t.num) < MAX_TUNNELS then Some(IdleSlot(t.entries, t.num))
    else None
  }

  /** A slot beyond the ones in use so far extends them. */
  function Reserve(t: Table, slot: nat): Table {
    if slot == t.num then t.(num := t.num + 1) else t
  }

  function Register(t: Table, slot: nat, host: string, pid: int): Table
    requires slot < |t.entries|
  {
    t.(entries := t.entries[slot := Entry(Cut(host, 127), pid, true)])
  }

  function Retire(t: Table, slot: nat): Table
    requires slot < |t.entries|
  {
    t.(entries := t.entries[slot := t.entries[slot].(active := false)])
  }

  predicate IsActive(t: Table, host: string)
    requires Sized(t)
  {
    ActiveSlot(t.entries, t.num, host) < t.num
  }

  /** The process a stop of `host` signals. */
  function Target(t: Table, host: string): Maybe<int>
    requires Sized(t)
  {
    if IsActive(t, host) then Some(t.entries[ActiveSlot(t.entries, t.num, host)].pid) else None
  }

  /** The processes `process_manager_kill_all` signals first, among the first `n` entries. */
  function Running(es: seq<Entry>, n: nat): seq<int>
    requires n <= |es|
  {
    if n == 0 then [] else
      Running(es, n - 1) + (if es[n - 1].active && es[n - 1].pid > 0 then [es[n - 1].pid] else [])
  }

  /** Those the second pass finds still alive and kills. */
  function Survivors(es: seq<Entry>, n: nat, alive: int -> bool): seq<int>
    requires n <= |es|
  {
    if n == 0 then [] else
      Survivors(es, n - 1, alive)
      + (if es[n - 1].active && es[n - 1].pid > 0 && alive(es[n - 1].pid) then [es[n - 1].pid] else [])
  }

  /** The process of an active entry. */
  predicate IsRunning(es: seq<Entry>, pid: int) {
    pid > 0 && exists i :: 0 <= i < |es| && es[i].active && es[i].pid == pid
  }

  /** Signalled are exactly the processes of active entries; killed are exactly those of them that are
      still alive, or less. */
  lemma {:induction false} SignalledRun(es: seq<Entry>, n: nat, alive: int -> bool, pid: int)
    requires n <= |es|
    ensures pid in Running(es, n) <==> IsRunning(es[..n], pid)
    ensures pid in Survivors(es, n, alive) <==> IsRunning(es[..n], pid) && alive(pid)
  {
    if n > 0 {
      SignalledRun(es, n - 1, alive, pid);
      var e, a, b := es[n - 1], es[..n - 1], es[..n];
      assert forall i :: 0 <= i < n - 1 ==> b[i] == a[i];
      assert b[n - 1] == e;
      assert IsRunning(b, pid) <==> IsRunning(a, pid) || (pid > 0 && e.active && e.pid == pid) by {
        if IsRunning(a, pid) { var i :| 0 <= i < n - 1 && a[i].active && a[i].pid == pid; assert b[i] == a[i]; }
      }
    }
  }

  /** The second pass retires every active entry that has a process. */
  function Retired(e: Entry): Entry {
    if e.active && e.pid > 0 then e.(active := false) else e
  }

  class Manager {
    const tunnels: array<Entry>
    var num: nat

    ghost predicate Valid()
      reads this
    {
      tunnels.Length == MAX_TUNNELS && num <= MAX_TUNNELS
    }

    ghost function View(): (t: Table)
      requires Valid()
      reads this, tunnels
      ensures Sized(t)
    {
      Table(tunnels[..], num)
    }

    constructor ()
      ensures Valid() && fresh(tunnels) && View() == Table(seq(MAX_TUNNELS, _ => NO_ENTRY), 0)
    {
      tunnels := new Entry[MAX_TUNNELS](_ => NO_ENTRY);
      num := 0;
    }

    static method CheckAlias(name: string) returns (ok: bool)
      ensures ok == ValidAlias(name)
    {
      if name == "" { return false; }
      for i := 0 to |name|
        invariant forall j :: 0 <= j < i ==> AliasChar(name[j])
      {
        if !AliasChar(name[i]) { return false; }
      }
      return true;
    }

    method FindActive(host: string) returns (i: nat)
      requires Valid()
      ensures i == ActiveSlot(tunnels[..], num, host)
    {
      i := 0;
      while i < num
        invariant i <= num && ActiveSlot(tunnels[..], num, host) == ActiveSlot(tunnels[..], num, host, i)
      {
        if tunnels[i].active && tunnels[i].host == host { return; }
        i := i + 1;
      }
    }

    method BeginStart(host: string) returns (slot: Maybe<nat>)
      requires Valid()
      modifies this`num
      ensures Valid() && slot == Choose(old(View()), host)
      ensures View() == if slot.Some? then Reserve(old(View()), slot.value) else old(View())
    {
      var ok := CheckAlias(host);
      if !ok { return None; }
      var dup := FindActive(host);
      if dup < num { return None; }
      var i := 0;
      while i < num
        invariant i <= num && IdleSlot(tunnels[..], num) == IdleSlot(tunnels[..], num, i)
      {
        if !tunnels[i].active { return Some(i); }
        i := i + 1;
      }
      if num >= MAX_TUNNELS { return None; }
      num := num + 1;
      return Some(num - 1);
    }

    method RegisterProcess(slot: nat, host: string, pid: int)
      requires Valid() && slot < MAX_TUNNELS
      modifies tunnels
      ensures Valid() && View() == Register(old(View()), slot, host, pid)
    {
      tunnels[slot] := NO_ENTRY;
      tunnels[slot] := tunnels[slot].(host := Cut(host, 127), pid := pid, active := true);
    }

    method RetireSlot(slot: nat)
      requires Valid() && slot < MAX_TUNNELS
      modifies tunnels
      ensures Valid() && View() == Retire(old(View()), slot)
    {
      tunnels[slot] := tunnels[slot].(active := false);
    }

    /** The process signalled, if any. */
    method StopTunnel(host: string) returns (rc: int, signalled: Maybe<int>)
      requires Valid()
      ensures rc == if IsActive(View(), host) then 0 else -1
      ensures signalled == Target(View(), host)
    {
      rc, signalled := -1, None;
      var i := FindActive(host);
      if i < num { rc, signalled := 0, Some(tunnels[i].pid); }
    }

    method TunnelStatus(host: string) returns (active: bool)
      requires Valid()
      ensures active == IsActive(View(), host)
    {
      var i := FindActive(host);
      active := i < num;
    }

    method TerminateAll() returns (signalled: seq<int>)
      requires Valid()
      ensures signalled == Running(tunnels[..], num)
    {
      signalled := [];
      for i := 0 to num
        invariant signalled == Running(tunnels[..], i)
      {
        if tunnels[i].active && tunnels[i].pid > 0 { signalled := signalled + [tunnels[i].pid]; }
      }
    }

    method KillSurvivors(alive: int -> bool) returns (killed: seq<int>)
      requires Valid()
      modifies tunnels
      ensures Valid() && killed == Survivors(old(tunnels[..]), num, alive)
      ensures forall i :: 0 <= i < MAX_TUNNELS ==>
                tunnels[i] == if i < num then Retired(old(tunnels[i])) else old(tunnels[i])
    {
      killed := [];
      for i := 0 to num
        invariant killed == Survivors(old(tunnels[..]), i, alive)
        invariant forall j :: 0 <= j < MAX_TUNNELS ==>
                    tunnels[j] == if j < i then Retired(old(tunnels[j])) else old(tunnels[j])
      {
        if tunnels[i].active && tunnels[i].pid > 0 {
          if alive(tunnels[i].pid) { killed := killed + [tunnels[i].pid]; }
          tunnels[i] := tunnels[i].(active := false);
        }
      }
    }
  }

  // ---- runs ---------------------------------------------------------------

  /** A start between its two critical sections; a monitor watching its process, having seen it end
      but not yet given up its entry, about to report the end. */
  datatype Phase =
    | Starting(slot: nat, host: string)
    | Watching(slot: nat, host: string, pid: int)
    | Ending(slot: nat, host: string, pid: int)
    | Reporting(slot: nat, host: string, pid: int)

  /** `reports` lists, for every process that has ended, the host its final event named. */
  datatype State = State(table: Table, threads: map<nat, Phase>, reports: map<int, string>)

  datatype Event =
    | Begin(t: nat, host: string)
    | Abort(t: nat)
    | Fork(t: nat, pid: int)
    | Reap(t: nat)
    | Exit(t: nat)
    | Report(t: nat)
    | KillAll

  predicate WellSized(s: State) {
    Sized(s.table) && forall t :: t in s.threads ==> s.threads[t].slot < MAX_TUNNELS
  }

  predicate Enabled(s: State, e: Event) {
    WellSized(s) &&
    match e
    case Begin(t, host) => t !in s.threads && |host| <= 127
    case Abort(t) => t in s.threads && s.threads[t].Starting?
    case Fork(t, pid) => t in s.threads && s.threads[t].Starting? && pid > 0
    case Reap(t) => t in s.threads && s.threads[t].Watching?
    case Exit(t) => t in s.threads && s.threads[t].Ending?
    case Report(t) => t in s.threads && s.threads[t].Reporting?
    case KillAll => true
  }

  function RetireAll(es: seq<Entry>, num: nat): seq<Entry> {
    seq(|es|, i requires 0 <= i < |es| => if i < num then Retired(es[i]) else es[i])
  }

  function Next(s: State, e: Event): State
    requires Enabled(s, e)
  {
    match e
    case Begin(t, host) =>
      var slot := Choose(s.table, host);
      if slot.None? then s
      else s.(table := Reserve(s.table, slot.value), threads := s.threads[t := Starting(slot.value, host)])
    case Abort(t) => s.(threads := s.threads - {t})
    case Fork(t, pid) =>
      var p := s.threads[t];
      s.(table := Register(s.table, p.slot, p.host, pid), threads := s.threads[t := Watching(p.slot, p.host, pid)])
    case Reap(t) =>
      var p := s.threads[t];
      s.(threads := s.threads[t := Ending(p.slot, p.host, p.pid)])
    case Exit(t) =>
      var p := s.threads[t];
      s.(table := Retire(s.table, p.slot), threads := s.threads[t := Reporting(p.slot, p.host, p.pid)])
    case Report(t) =>
      var p := s.threads[t];
      s.(threads := s.threads - {t}, reports := s.reports[p.pid := s.table.entries[p.slot].host])
    case KillAll => s.(table := s.table.(entries := RetireAll(s.table.entries, s.table.num)))
  }

  function Init(): State {
    State(Table(seq(MAX_TUNNELS, _ => NO_ENTRY), 0), map[], map[])
  }

  function Step(s: State, e: Event): Maybe<State> {
    if Enabled(s, e) then Some(Next(s, e)) else None
  }

  function Run(es: seq<Event>): Maybe<State> {
    RunFrom(Step, Init(), es)
  }

  // ---- what every run keeps -----------------------------------------------

  /** All active entries lie below the count, and so do the slots of starts under way. */
  predicate Bounded(s: State) {
    && WellSized(s)
    && (forall i :: s.table.num <= i < MAX_TUNNELS ==> !s.table.entries[i].active)
    && (forall t :: t in s.threads && s.threads[t].Starting? ==>
          s.threads[t].slot < s.table.num && |s.threads[t].host| <= 127)
  }

  lemma StepBounded(s: State, e: Event)
    requires Bounded(s) && Enabled(s, e)
    ensures Bounded(Next(s, e)) && s.table.num <= Next(s, e).table.num
  {
  }

  lemma {:induction false} RunBounded(es: seq<Event>)
    requires Run(es).Some?
    ensures Bounded(Run(es).value)
  {
    if es != [] {
      RunBounded(es[..|es| - 1]);
      StepBounded(Run(es[..|es| - 1]).value, es[|es| - 1]);
    }
  }

  /** Whatever overlaps, the count of slots never decreases and never exceeds 64. */
  lemma {:induction false} CountGrows(es: seq<Event>, n: nat)
    requires Run(es).Some? && n <= |es|
    ensures Run(es[..n]).Some? && Bounded(Run(es).value)
    ensures Run(es[..n]).value.table.num <= Run(es).value.table.num <= 64
  {
    RunBounded(es);
    if n == |es| {
      assert es[..n] == es;
    } else {
      assert es[..|es| - 1][..n] == es[..n];
      CountGrows(es[..|es| - 1], n);
      StepBounded(Run(es[..|es| - 1]).value, es[|es| - 1]);
    }
  }

  /** After `KillAll` no tunnel with a process is active, and no entry has changed otherwise. */
  lemma KillAllRetires(s: State, i: nat)
    requires Bounded(s) && i < MAX_TUNNELS
    ensures var e, f := s.table.entries[i], Next(s, KillAll).table.entries[i];
            && (f.active ==> f.pid <= 0 && f == e) && f.host == e.host && f.pid == e.pid
            && (e.pid <= 0 || !e.active ==> f == e)
  {
  }

  /** An alias consists of letters, digits, minus, underscore and full stop. */
  lemma AliasCodes(c: char)
    ensures AliasChar(c) <==>
              var n := c as int; 48 <= n <= 57 || 65 <= n <= 90 || 97 <= n <= 122 || n in {45, 46, 95}
  {
  }

  /** An empty name, a character that is not allowed, a host that is served, or no entry free. */
  predicate Refused(s: State, host: string)
    requires WellSized(s)
  {
    || |host| == 0 || (exists k :: 0 <= k < |host| && !AliasChar(host[k]))
    || (exists i :: 0 <= i < 64 && s.table.entries[i].active && s.table.entries[i].host == host)
    || forall i :: 0 <= i < 64 ==> s.table.entries[i].active
  }

  /** A start is refused in exactly these cases, and then nothing changes; otherwise it is given the first
      entry that is free, and the count goes up if that lies beyond it. */
  lemma StartAnswers(s: State, t: nat, host: string)
    requires Bounded(s) && Enabled(s, Begin(t, host))
    ensures var n := Next(s, Begin(t, host));
            if Refused(s, host) then n == s
            else
              && t in n.threads && n.threads[t].Starting? && n.threads[t].host == host
              && var slot := n.threads[t].slot;
                 && slot < 64 && !s.table.entries[slot].active
                 && (forall j :: 0 <= j < slot ==> s.table.entries[j].active)
                 && n == State(Table(s.table.entries, if slot < s.table.num then s.table.num else slot + 1),
                               s.threads[t := n.threads[t]], s.reports)
  {
    var e, k := s.table.entries, ActiveSlot(s.table.entries, s.table.num, host);
    var idle := IdleSlot(e, s.table.num);
    if k < s.table.num { assert Refused(s, host); }
    if idle < 64 { assert !e[idle].active; }
  }

  /** A registered entry is active under the first 127 characters of the host; the others stay. */
  lemma RegisteredUnder(t: Table, slot: nat, host: string, pid: int)
    requires slot < |t.entries|
    ensures var n := Register(t, slot, host, pid);
            && n == t.(entries := t.entries[slot := n.entries[slot]]) && n.entries[slot].active
            && n.entries[slot].pid == pid && n.entries[slot].host <= host
            && |n.entries[slot].host| == if |host| < 127 then |host| else 127
  {
  }

  // ---- which registrations are safe ---------------------------------------

  /** At most one active entry per host, all of them among the first `num`. */
  predicate UniqueHosts(t: Table) {
    && Sized(t)
    && (forall i :: t.num <= i < MAX_TUNNELS ==> !t.entries[i].active)
    && (forall i, j :: 0 <= i < j < t.num && t.entries[i].active && t.entries[j].active ==>
          t.entries[i].host != t.entries[j].host)
  }

  /** What the second critical section does not check: the slot is idle and the host not served. */
  predicate Guarded(s: State, e: Event)
    requires Enabled(s, e)
  {
    e.Fork? ==> !s.table.entries[s.threads[e.t].slot].active && !IsActive(s.table, s.threads[e.t].host)
  }

  /** The hosts stay distinct and no live entry is overwritten. */
  predicate Intact(s: State, e: Event)
    requires Enabled(s, e)
  {
    UniqueHosts(Next(s, e).table) && (e.Fork? ==> !s.table.entries[s.threads[e.t].slot].active)
  }

  predicate RunGuarded(es: seq<Event>)
    requires Run(es).Some?
  {
    es != [] ==> RunGuarded(es[..|es| - 1]) && Guarded(Run(es[..|es| - 1]).value, es[|es| - 1])
  }

  predicate RunIntact(es: seq<Event>)
    requires Run(es).Some?
  {
    es != [] ==> RunIntact(es[..|es| - 1]) && Intact(Run(es[..|es| - 1]).value, es[|es| - 1])
  }

  lemma ForkGuarded(s: State, e: Event)
    requires Bounded(s) && UniqueHosts(s.table) && Enabled(s, e) && e.Fork? && Guarded(s, e)
    ensures UniqueHosts(Next(s, e).table)
  {
    var slot, host := s.threads[e.t].slot, s.threads[e.t].host;
    forall i | 0 <= i < s.table.num ensures !Serves(s.table.entries[i], host) {
      assert ActiveSlot(s.table.entries, s.table.num, host) == s.table.num;
    }
  }

  /** A registration for a host that is served leaves two active entries for it. */
  lemma ForkOfServedHost(s: State, e: Event)
    requires Bounded(s) && Enabled(s, e) && e.Fork? && IsActive(s.table, s.threads[e.t].host)
    requires !s.table.entries[s.threads[e.t].slot].active
    ensures var t := Next(s, e).table;
            exists i, j :: 0 <= i < j < t.num
              && Serves(t.entries[i], s.threads[e.t].host) && Serves(t.entries[j], s.threads[e.t].host)
    ensures !UniqueHosts(Next(s, e).table)
  {
    var t, slot, host := Next(s, e).table, s.threads[e.t].slot, s.threads[e.t].host;
    var k := ActiveSlot(s.table.entries, s.table.num, host);
    assert Serves(t.entries[slot], host) && Serves(t.entries[k], host);
    var i, j := if k < slot then k else slot, if k < slot then slot else k;
    assert 0 <= i < j < t.num && Serves(t.entries[i], host) && Serves(t.entries[j], host);
  }

  predicate Mentions(t: Table, pid: int) {
    exists i :: 0 <= i < |t.entries| && t.entries[i].active && t.entries[i].pid == pid
  }

  /** A registration into a live entry loses the tunnel of that entry: its process, if in no other
      entry, is in none any more, and the status of its host, if it is another one, denies it. */
  lemma ForkOntoLive(s: State, e: Event)
    requires Bounded(s) && UniqueHosts(s.table) && Enabled(s, e) && e.Fork?
    requires s.table.entries[s.threads[e.t].slot].active && s.table.entries[s.threads[e.t].slot].pid != e.pid
    requires forall i :: 0 <= i < MAX_TUNNELS && i != s.threads[e.t].slot && s.table.entries[i].active ==>
               s.table.entries[i].pid != s.table.entries[s.threads[e.t].slot].pid
    ensures var lost := s.table.entries[s.threads[e.t].slot];
            && !Mentions(Next(s, e).table, lost.pid)
            && (lost.host != s.threads[e.t].host ==> !IsActive(Next(s, e).table, lost.host))
  {
    var slot := s.threads[e.t].slot;
    var lost, u := s.table.entries[slot], Next(s, e).table;
    forall i | 0 <= i < u.num && lost.host != s.threads[e.t].host ensures !Serves(u.entries[i], lost.host) {
      assert i != slot ==> u.entries[i] == s.table.entries[i];
    }
  }

  lemma ForkExact(s: State, e: Event)
    requires Bounded(s) && UniqueHosts(s.table) && Enabled(s, e) && e.Fork?
    ensures Intact(s, e) <==> Guarded(s, e)
  {
    if Guarded(s, e) { ForkGuarded(s, e); }
    else if !s.table.entries[s.threads[e.t].slot].active { ForkOfServedHost(s, e); }
  }

  lemma OtherIntact(s: State, e: Event)
    requires Bounded(s) && UniqueHosts(s.table) && Enabled(s, e) && !e.Fork?
    ensures Intact(s, e)
  {
  }

  /** However starts overlap: hosts stay distinct and no live entry is ever overwritten if and only
      if every process is registered in an idle slot for a host that is not served. */
  lemma {:induction false} TableSafe(es: seq<Event>)
    requires Run(es).Some?
    ensures RunIntact(es) <==> RunGuarded(es)
    ensures RunGuarded(es) ==> UniqueHosts(Run(es).value.table)
  {
    if es != [] {
      var s, e := Run(es[..|es| - 1]).value, es[|es| - 1];
      TableSafe(es[..|es| - 1]);
      RunBounded(es[..|es| - 1]);
      if RunGuarded(es[..|es| - 1]) {
        if e.Fork? { ForkExact(s, e); } else { OtherIntact(s, e); }
      }
    }
  }

  // ---- starts that do not overlap -----------------------------------------

  predicate NoneStarting(s: State) {
    forall t :: t in s.threads ==> !s.threads[t].Starting?
  }

  /** A start begins only when no other is between its two critical sections. */
  predicate Serial(es: seq<Event>)
    requires Run(es).Some?
  {
    es != [] ==>
      Serial(es[..|es| - 1]) && (es[|es| - 1].Begin? ==> NoneStarting(Run(es[..|es| - 1]).value))
  }

  /** A start under way is alone, its slot idle and its host not served. */
  predicate StartsApart(s: State) {
    && WellSized(s)
    && (forall t, u :: t in s.threads && u in s.threads && s.threads[t].Starting? && s.threads[u].Starting? ==> t == u)
    && (forall t :: t in s.threads && s.threads[t].Starting? ==>
          var p := s.threads[t];
          !s.table.entries[p.slot].active && forall i :: 0 <= i < s.table.num ==> !Serves(s.table.entries[i], p.host))
  }

  lemma StepApart(s: State, e: Event)
    requires Bounded(s) && StartsApart(s) && Enabled(s, e) && (e.Begin? ==> NoneStarting(s))
    ensures StartsApart(Next(s, e)) && Guarded(s, e)
  {
  }

  /** Starts that do not overlap are safe. */
  lemma {:induction false} SerialGuarded(es: seq<Event>)
    requires Run(es).Some? && Serial(es)
    ensures RunGuarded(es) && StartsApart(Run(es).value)
  {
    if es != [] {
      SerialGuarded(es[..|es| - 1]);
      RunBounded(es[..|es| - 1]);
      StepApart(Run(es[..|es| - 1]).value, es[|es| - 1]);
    }
  }

  // ---- stopping and asking ------------------------------------------------

  /** In every run with safe registrations: a host is reported active exactly when one entry, and only
      one, serves it; that is when a stop succeeds and a second start is refused; and any other start
      of a valid alias is refused exactly when all 64 entries are active. */
  lemma StopMeansActive(es: seq<Event>, host: string)
    requires Run(es).Some? && RunGuarded(es)
    ensures var t := Run(es).value.table;
            && UniqueHosts(t)
            && (IsActive(t, host) <==> exists i :: 0 <= i < MAX_TUNNELS && Serves(t.entries[i], host))
            && (forall i, j :: 0 <= i < MAX_TUNNELS && 0 <= j < MAX_TUNNELS ==>
                  Serves(t.entries[i], host) && Serves(t.entries[j], host) ==> i == j)
            && (IsActive(t, host) ==> Choose(t, host).None?)
            && (ValidAlias(host) && !IsActive(t, host) ==>
                  (Choose(t, host).None? <==> forall i :: 0 <= i < MAX_TUNNELS ==> t.entries[i].active))
  {
    TableSafe(es);
    var t := Run(es).value.table;
    forall i, j | 0 <= i < MAX_TUNNELS && 0 <= j < MAX_TUNNELS
                  && Serves(t.entries[i], host) && Serves(t.entries[j], host)
      ensures i == j
    {
    }
    var k := IdleSlot(t.entries, t.num);
    if k < MAX_TUNNELS { assert !t.entries[k].active; }
  }

  /** A process whose entry has not been given up yet. */
  predicate Held(p: Phase) {
    p.Watching? || p.Ending?
  }

  predicate Watches(s: State, t: nat, i: nat) {
    t in s.threads && Held(s.threads[t]) && s.threads[t].slot == i
  }

  /** The active entries are exactly those of the processes being watched, one each. */
  ghost predicate Monitored(s: State) {
    && WellSized(s)
    && (forall t, i: nat :: Watches(s, t, i) ==> s.table.entries[i] == Entry(s.threads[t].host, s.threads[t].pid, true))
    && (forall t, u, i :: Watches(s, t, i) && Watches(s, u, i) ==> t == u)
    && (forall i :: 0 <= i < MAX_TUNNELS && s.table.entries[i].active ==> exists t :: Watches(s, t, i))
  }

  /** Who watches a slot after a step watched it before, or has just registered it. */
  lemma WatchedBefore(s: State, e: Event, t: nat, i: nat)
    requires Enabled(s, e) && Watches(Next(s, e), t, i)
    ensures if e.Fork? && t == e.t then i == s.threads[t].slot
            else Watches(s, t, i) && !(e.Exit? && t == e.t)
                 && Next(s, e).threads[t].host == s.threads[t].host && Next(s, e).threads[t].pid == s.threads[t].pid
  {
  }

  lemma WatchedEntry(s: State, e: Event, t: nat, i: nat)
    requires Monitored(s) && Bounded(s) && Enabled(s, e) && Guarded(s, e) && !e.KillAll? && Watches(Next(s, e), t, i)
    ensures Next(s, e).table.entries[i] == Entry(Next(s, e).threads[t].host, Next(s, e).threads[t].pid, true)
  {
    WatchedBefore(s, e, t, i);
    if e.Exit? { assert Watches(s, e.t, s.threads[e.t].slot); }
  }

  lemma EntryWatched(s: State, e: Event, i: nat) returns (t: nat)
    requires Monitored(s) && Bounded(s) && Enabled(s, e) && Guarded(s, e) && !e.KillAll?
    requires i < MAX_TUNNELS && Next(s, e).table.entries[i].active
    ensures Watches(Next(s, e), t, i)
  {
    if e.Fork? && i == s.threads[e.t].slot {
      t := e.t;
    } else {
      t :| Watches(s, t, i);
    }
  }

  lemma StepMonitored(s: State, e: Event)
    requires Monitored(s) && Bounded(s) && Enabled(s, e) && Guarded(s, e) && !e.KillAll?
    ensures Monitored(Next(s, e))
  {
    var n := Next(s, e);
    forall t, i: nat | Watches(n, t, i) ensures n.table.entries[i] == Entry(n.threads[t].host, n.threads[t].pid, true) {
      WatchedEntry(s, e, t, i);
    }
    forall t, u, i: nat | Watches(n, t, i) && Watches(n, u, i) ensures t == u {
      WatchedBefore(s, e, t, i);
      WatchedBefore(s, e, u, i);
    }
    forall i | 0 <= i < MAX_TUNNELS && n.table.entries[i].active ensures exists t :: Watches(n, t, i) {
      var t := EntryWatched(s, e, i);
    }
  }

  lemma {:induction false} RunMonitored(es: seq<Event>)
    requires Run(es).Some? && RunGuarded(es) && KillAll !in es
    ensures Monitored(Run(es).value)
  {
    if es != [] {
      RunMonitored(es[..|es| - 1]);
      RunBounded(es[..|es| - 1]);
      assert es[|es| - 1] in es;
      StepMonitored(Run(es[..|es| - 1]).value, es[|es| - 1]);
    }
  }

  lemma WatchedIsTarget(s: State, t: nat)
    requires Monitored(s) && UniqueHosts(s.table) && t in s.threads && Held(s.threads[t])
    ensures Target(s.table, s.threads[t].host) == Some(s.threads[t].pid)
  {
    var i := s.threads[t].slot;
    assert Watches(s, t, i);
    assert Serves(s.table.entries[i], s.threads[t].host);
  }

  lemma TargetIsWatched(s: State, host: string) returns (t: nat)
    requires Monitored(s) && UniqueHosts(s.table) && Target(s.table, host).Some?
    ensures t in s.threads && Held(s.threads[t])
    ensures s.threads[t].host == host && Some(s.threads[t].pid) == Target(s.table, host)
  {
    t :| Watches(s, t, ActiveSlot(s.table.entries, s.table.num, host));
  }

  /** In every run with safe registrations, short of the final `KillAll`: a stop of a host would signal
      a process exactly if that process was started for the host and its monitor has not given up the
      entry. */
  lemma StopHitsItsProcess(es: seq<Event>, host: string, pid: int)
    requires Run(es).Some? && RunGuarded(es) && KillAll !in es
    ensures var s := Run(es).value;
            Sized(s.table) && (Target(s.table, host) == Some(pid) <==>
              exists t :: t in s.threads && Held(s.threads[t])
                          && s.threads[t].host == host && s.threads[t].pid == pid)
  {
    var s := Run(es).value;
    RunMonitored(es);
    TableSafe(es);
    if Target(s.table, host) == Some(pid) { var t := TargetIsWatched(s, host); }
    if t :| t in s.threads && Held(s.threads[t]) && s.threads[t].host == host && s.threads[t].pid == pid {
      WatchedIsTarget(s, t);
    }
  }

  /** That a monitor has reaped its process is not known to the table: until the monitor gives up the
      entry, a stop of the host signals the process that is gone. */
  lemma StopAfterReap(es: seq<Event>, t: nat)
    requires Run(es).Some? && RunGuarded(es) && KillAll !in es && Enabled(Run(es).value, Reap(t))
    ensures var s := Run(es).value;
            var r := Next(s, Reap(t));
            && r.threads[t].Ending? && WellSized(r) && Enabled(r, Exit(t))
            && Target(r.table, s.threads[t].host) == Some(s.threads[t].pid)
            && Target(Next(r, Exit(t)).table, s.threads[t].host) == None
  {
    var s := Run(es).value;
    RunMonitored(es);
    RunBounded(es);
    TableSafe(es);
    WatchedIsTarget(s, t);
    var r, host := Next(s, Reap(t)), s.threads[t].host;
    var n := Next(r, Exit(t));
    assert Watches(s, t, s.threads[t].slot);
    forall i | 0 <= i < n.table.num ensures !Serves(n.table.entries[i], host) {
      if i != s.threads[t].slot { assert n.table.entries[i] == s.table.entries[i]; }
    }
  }

  // ---- the final report ---------------------------------------------------

  /** The host for which a process was last registered in `slot` during a run, if one was. */
  function LastRegistered(s: State, es: seq<Event>, slot: nat): Maybe<string>
    requires RunFrom(Step, s, es).Some?
  {
    if es == [] then None else
      var e, before := es[|es| - 1], RunFrom(Step, s, es[..|es| - 1]).value;
      if e.Fork? && before.threads[e.t].slot == slot then Some(before.threads[e.t].host)
      else LastRegistered(s, es[..|es| - 1], slot)
  }

  lemma HostKept(s: State, e: Event, i: nat)
    requires Bounded(s) && Enabled(s, e) && i < MAX_TUNNELS
    ensures Next(s, e).table.entries[i].host ==
            if e.Fork? && s.threads[e.t].slot == i then s.threads[e.t].host else s.table.entries[i].host
  {
  }

  lemma {:induction false} HostSince(s: State, es: seq<Event>, slot: nat)
    requires Bounded(s) && RunFrom(Step, s, es).Some? && slot < MAX_TUNNELS
    ensures Bounded(RunFrom(Step, s, es).value)
    ensures RunFrom(Step, s, es).value.table.entries[slot].host ==
            if LastRegistered(s, es, slot).Some? then LastRegistered(s, es, slot).value else s.table.entries[slot].host
  {
    if es != [] {
      var before, e := RunFrom(Step, s, es[..|es| - 1]).value, es[|es| - 1];
      HostSince(s, es[..|es| - 1], slot);
      StepBounded(before, e);
      HostKept(before, e, slot);
    }
  }

  lemma ExitKeepsHost(s: State, t: nat)
    requires Monitored(s) && Bounded(s) && Enabled(s, Exit(t))
    ensures var n := Next(s, Exit(t));
            && Bounded(n) && n.threads[t] == Reporting(s.threads[t].slot, s.threads[t].host, s.threads[t].pid)
            && n.table.entries[s.threads[t].slot].host == s.threads[t].host
  {
    assert Watches(s, t, s.threads[t].slot);
    StepBounded(s, Exit(t));
  }

  /** The final report reads the host from the entry after giving it up. After any safe run, the exit
      of a process and any further events, it names the host of that process if and only if none, or
      the same host, was registered last in its slot since the exit. */
  lemma ReportNamesLast(es: seq<Event>, t: nat, more: seq<Event>)
    requires Run(es).Some? && RunGuarded(es) && KillAll !in es && Enabled(Run(es).value, Exit(t))
    requires RunFrom(Step, Next(Run(es).value, Exit(t)), more).Some?
    requires var p := Next(Run(es).value, Exit(t)).threads[t];
             var s := RunFrom(Step, Next(Run(es).value, Exit(t)), more).value;
             t in s.threads && s.threads[t] == p && Enabled(s, Report(t))
    ensures var n := Next(Run(es).value, Exit(t));
            var p, s := n.threads[t], RunFrom(Step, n, more).value;
            Next(s, Report(t)).reports[p.pid] == p.host <==>
              LastRegistered(n, more, p.slot).None? || LastRegistered(n, more, p.slot) == Some(p.host)
  {
    var s := Run(es).value;
    RunMonitored(es);
    RunBounded(es);
    ExitKeepsHost(s, t);
    HostSince(Next(s, Exit(t)), more, s.threads[t].slot);
  }

  /** So it names the wrong one whenever another start takes the slot in between: the end of one tunnel
      is then reported for another that is running. */
  lemma ReportNamesOther(s: State, t: nat, b: string, q: int) returns (u: State)
    requires WellSized(s) && t in s.threads && s.threads[t].Reporting? && q > 0 && |b| <= 127
    requires Choose(s.table, b) == Some(s.threads[t].slot) && t + 1 !in s.threads
    ensures Enabled(s, Begin(t + 1, b)) && Enabled(Next(s, Begin(t + 1, b)), Fork(t + 1, q))
    ensures u == Next(Next(s, Begin(t + 1, b)), Fork(t + 1, q)) && Enabled(u, Report(t))
    ensures Next(u, Report(t)).reports[s.threads[t].pid] == b && IsActive(u.table, b)
  {
    var slot := s.threads[t].slot;
    var s1 := Next(s, Begin(t + 1, b));
    u := Next(s1, Fork(t + 1, q));
    assert Serves(u.table.entries[slot], b);
  }

  // ---- starts that do overlap ---------------------------------------------

  /** A start is given the slot of another that has not registered yet exactly if every slot before it
      is busy. */
  lemma OverlapSharesSlot(s: State, t: nat, b: string)
    requires Bounded(s) && t in s.threads && s.threads[t].Starting?
    requires !s.table.entries[s.threads[t].slot].active && ValidAlias(b) && !IsActive(s.table, b)
    ensures Choose(s.table, b) == Some(s.threads[t].slot)
            <==> forall i :: 0 <= i < s.threads[t].slot ==> s.table.entries[i].active
  {
    var k := IdleSlot(s.table.entries, s.table.num);
    assert k <= s.threads[t].slot < MAX_TUNNELS;
  }

  lemma BeginShares(s: State, a: string, b: string)
    requires Bounded(s) && UniqueHosts(s.table) && 1 !in s.threads && |a| <= 127
    requires Choose(s.table, a).Some? && Choose(s.table, b).Some?
    ensures var n := Next(s, Begin(1, a));
            && Bounded(n) && n.threads == s.threads[1 := Starting(Choose(s.table, a).value, a)]
            && n.table.entries == s.table.entries && Choose(n.table, b) == Choose(s.table, a)
  {
    StepBounded(s, Begin(1, a));
    var n, slot := Next(s, Begin(1, a)), Choose(s.table, a).value;
    var i, j := ActiveSlot(s.table.entries, s.table.num, b), ActiveSlot(n.table.entries, n.table.num, b);
    assert !n.table.entries[slot].active;
    OverlapSharesSlot(n, 1, b);
  }

  /** Two starts of different hosts with nothing in between share a slot, and the second registration
      loses the first tunnel. */
  lemma OverlapLosesTunnel(s: State, a: string, b: string, p: int, q: int) returns (u: State)
    requires Bounded(s) && UniqueHosts(s.table) && 1 !in s.threads && 2 !in s.threads
    requires |a| <= 127 && |b| <= 127 && a != b && p > 0 && q > 0 && p != q
    requires Choose(s.table, a).Some? && Choose(s.table, b).Some? && !Mentions(s.table, p)
    ensures Enabled(s, Begin(1, a)) && Enabled(Next(s, Begin(1, a)), Begin(2, b))
    ensures var s2 := Next(Next(s, Begin(1, a)), Begin(2, b));
            && Enabled(s2, Fork(1, p)) && Enabled(Next(s2, Fork(1, p)), Fork(2, q))
            && u == Next(Next(s2, Fork(1, p)), Fork(2, q))
    ensures u.threads[1].Watching? && u.threads[1].pid == p && u.threads[1].host == a
    ensures !Mentions(u.table, p) && !IsActive(u.table, a)
  {
    BeginShares(s, a, b);
    var s1 := Next(s, Begin(1, a));
    var s2 := Next(s1, Begin(2, b));
    StepBounded(s1, Begin(2, b));
    FirstRegisters(s, s2, Choose(s.table, a).value, a, p);
    var s3 := Next(s2, Fork(1, p));
    u := Next(s3, Fork(2, q));
    ForkOntoLive(s3, Fork(2, q));
  }

  lemma FirstRegisters(s: State, s2: State, slot: nat, a: string, p: int)
    requires Bounded(s2) && UniqueHosts(s.table) && !IsActive(s.table, a) && !Mentions(s.table, p) && p > 0
    requires 1 in s2.threads && s2.threads[1] == Starting(slot, a) && |a| <= 127
    requires s2.table.entries == s.table.entries && slot < MAX_TUNNELS && !s.table.entries[slot].active
    ensures var s3 := Next(s2, Fork(1, p));
            && Bounded(s3) && UniqueHosts(s3.table) && s3.table.entries[slot] == Entry(a, p, true)
            && forall i :: 0 <= i < MAX_TUNNELS && i != slot && s3.table.entries[i].active ==>
                 s3.table.entries[i].pid != p
  {
    StepBounded(s2, Fork(1, p));
    forall i | 0 <= i < MAX_TUNNELS ensures !Serves(s2.table.entries[i], a) {
      assert ActiveSlot(s.table.entries, s.table.num, a) == s.table.num;
    }
  }

  lemma OneSlot(x: string) returns (es: seq<Event>, s: State)
    requires ValidAlias(x) && |x| <= 127
    ensures es == [Begin(1, x), Fork(1, 11)] && Run(es) == Some(s) && WellSized(s) && s.table.num == 1
    ensures s.table.entries[0] == Entry(x, 11, true) && !s.table.entries[1].active
    ensures s.threads == map[1 := Watching(0, x, 11)]
  {
    var s0 := Init();
    var s1 := Begun(s0, 1, x, 0);
    s := Next(s1, Fork(1, 11));
    es := Extend(Step, s0, [], s0, Begin(1, x), s1);
    es := Extend(Step, s0, es, s1, Fork(1, 11), s);
  }

  lemma TwoSlots(x: string, a: string) returns (es: seq<Event>, s: State)
    requires ValidAlias(x) && ValidAlias(a) && x != a && |x| <= 127 && |a| <= 127
    ensures es == [Begin(1, x), Fork(1, 11), Begin(2, a)] && Run(es) == Some(s) && WellSized(s) && s.table.num == 2
    ensures s.table.entries[0] == Entry(x, 11, true) && !s.table.entries[1].active
    ensures s.threads == map[1 := Watching(0, x, 11), 2 := Starting(1, a)]
  {
    var s2;
    es, s2 := OneSlot(x);
    s := Begun(s2, 2, a, 1);
    es := Extend(Step, Init(), es, s2, Begin(2, a), s);
  }

  lemma FirstEnds(es: seq<Event>, s: State, x: string) returns (more: seq<Event>, n: State)
    requires Run(es) == Some(s) && WellSized(s) && 1 in s.threads && s.threads[1] == Watching(0, x, 11)
    requires s.table.entries[0] == Entry(x, 11, true)
    ensures more == es + [Reap(1)] + [Exit(1)] && Run(more) == Some(n) && WellSized(n)
    ensures n.table == Table(s.table.entries[0 := Entry(x, 11, false)], s.table.num)
    ensures n.threads == s.threads[1 := Reporting(0, x, 11)]
  {
    var r := Next(s, Reap(1));
    n := Next(r, Exit(1));
    assert s.threads[1 := Ending(0, x, 11)][1 := Reporting(0, x, 11)] == s.threads[1 := Reporting(0, x, 11)];
    more := Extend(Step, Init(), es, s, Reap(1), r);
    more := Extend(Step, Init(), more, r, Exit(1), n);
  }

  /** The first slot becomes idle and is given to a third start. */
  lemma IdleAgain(es: seq<Event>, s: State, x: string, a: string, b: string) returns (more: seq<Event>, n: State)
    requires ValidAlias(b) && |b| <= 127 && Run(es) == Some(s) && WellSized(s) && s.table.num == 2
    requires s.table.entries[0] == Entry(x, 11, true) && !s.table.entries[1].active
    requires s.threads == map[1 := Watching(0, x, 11), 2 := Starting(1, a)]
    ensures more == es + [Reap(1)] + [Exit(1)] + [Begin(3, b)] && Run(more) == Some(n) && WellSized(n)
    ensures n.table == Table(s.table.entries[0 := Entry(x, 11, false)], 2)
    ensures n.threads == map[1 := Reporting(0, x, 11), 2 := Starting(1, a), 3 := Starting(0, b)]
  {
    var s5;
    more, s5 := FirstEnds(es, s, x);
    n := Begun(s5, 3, b, 0);
    more := Extend(Step, Init(), more, s5, Begin(3, b), n);
  }

  /** Two starts may also overlap in different slots, if an earlier one becomes idle in between: both
      tunnels then live, but if they are of the same host, it has two active entries. */
  lemma OverlapElsewhere(x: string, a: string, b: string) returns (es: seq<Event>, s: State)
    requires ValidAlias(x) && ValidAlias(a) && ValidAlias(b) && x != a && x != b
    requires |x| <= 127 && |a| <= 127 && |b| <= 127
    ensures es == [Begin(1, x), Fork(1, 11), Begin(2, a), Reap(1), Exit(1), Begin(3, b), Fork(2, 22), Fork(3, 33)]
    ensures Run(es) == Some(s) && WellSized(s) && s.table.num == 2
    ensures s.table.entries[0] == Entry(b, 33, true) && s.table.entries[1] == Entry(a, 22, true)
    ensures UniqueHosts(s.table) <==> a != b
  {
    var s3, s6;
    es, s3 := TwoSlots(x, a);
    es, s6 := IdleAgain(es, s3, x, a, b);
    es, s := BothRegister(es, s6, a, b);
  }

  lemma BothRegister(es: seq<Event>, s: State, a: string, b: string) returns (more: seq<Event>, n: State)
    requires Run(es) == Some(s) && WellSized(s) && s.table.num == 2 && |a| <= 127 && |b| <= 127
    requires 2 in s.threads && s.threads[2] == Starting(1, a) && 3 in s.threads && s.threads[3] == Starting(0, b)
    ensures more == es + [Fork(2, 22)] + [Fork(3, 33)] && Run(more) == Some(n) && WellSized(n) && n.table.num == 2
    ensures n.table.entries[0] == Entry(b, 33, true) && n.table.entries[1] == Entry(a, 22, true)
    ensures UniqueHosts(n.table) <==> a != b
  {
    var s7 := Next(s, Fork(2, 22));
    n := Next(s7, Fork(3, 33));
    more := Extend(Step, Init(), es, s, Fork(2, 22), s7);
    more := Extend(Step, Init(), more, s7, Fork(3, 33), n);
    RunBounded(more);
  }

  lemma Begun(s: State, t: nat, host: string, slot: nat) returns (n: State)
    requires WellSized(s) && t !in s.threads && |host| <= 127 && ValidAlias(host) && slot <= s.table.num < MAX_TUNNELS
    requires forall i :: 0 <= i < s.table.num ==> !Serves(s.table.entries[i], host)
    requires forall i :: 0 <= i < slot ==> s.table.entries[i].active
    requires slot < s.table.num ==> !s.table.entries[slot].active
    ensures Enabled(s, Begin(t, host)) && n == Next(s, Begin(t, host))
    ensures n == State(Table(s.table.entries, if slot == s.table.num then slot + 1 else s.table.num),
                       s.threads[t := Starting(slot, host)], s.reports)
  {
    n := Next(s, Begin(t, host));
    assert IdleSlot(s.table.entries, s.table.num) == slot;
  }
}
