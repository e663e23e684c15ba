/** Password requests: a table of sixteen slots through which waiting threads receive what other
    threads deliver. Each critical section is one step; any number of threads interleave. */
module Askpass {
  import opened CText
  import opened Runs

  const SLOTS := 16

  datatype Slot = Slot(id: string, password: string, ready: bool, inUse: bool)

  const EMPTY_SLOT := Slot("", "", false, false)

  // ---- the critical sections on the table --------------------------------

  function FreeSlot(slots: seq<Slot>, i: nat := 0): (r: nat)
    requires i <= |slots|
    ensures i <= r <= |slots|
    ensures forall j :: i <= j < r ==> slots[j].inUse
    ensures r < |slots| ==> !slots[r].inUse
    decreases |slots| - i
  {
    if i == |slots| || !slots[i].inUse then i else FreeSlot(slots, i + 1)
  }

  /** `strncmp` over `n` characters gives 0. */
  predicate SamePrefix(a: string, b: string, n: nat) {
    Cut(a, n) == Cut(b, n)
  }

  predicate Matches(slot: Slot, id: string) {
    slot.inUse && SamePrefix(slot.id, id, 64)
  }

  function MatchingSlot(slots: seq<Slot>, id: string, i: nat := 0): (r: nat)
    requires i <= |slots|
    ensures i <= r <= |slots|
    ensures forall j :: i <= j < r ==> !Matches(slots[j], id)
    ensures r < |slots| ==> Matches(slots[r], id)
    decreases |slots| - i
  {
    if i == |slots| || Matches(slots[i], id) then i else MatchingSlot(slots, id, i + 1)
  }

  function Taken(id: string): Slot {
    Slot(Cut(id, 63), "", false, true)
  }

  function Stored(slot: Slot, pw: string): Slot {
    slot.(password := Cut(pw, 511), ready := true)
  }

  /** What a waiter takes out of its slot, and the slot after that. */
  function Collected(slot: Slot): Maybe<string> {
    if slot.ready && slot.password != "" then Some(slot.password) else None
  }

  function Wiped(slot: Slot): Slot {
    if Collected(slot).Some? then slot.(password := "") else slot
  }

  class Table {
    const slots: array<Slot>

    ghost predicate Valid()
      reads this
    {
      slots.Length == SLOTS
    }

    constructor ()
      ensures Valid() && fresh(slots)
      ensures forall i :: 0 <= i < SLOTS ==> slots[i] == EMPTY_SLOT
    {
      slots := new Slot[SLOTS](_ => EMPTY_SLOT);
    }

    method AllocSlot(id: string) returns (i: nat)
      requires Valid()
      modifies slots
      ensures i == FreeSlot(old(slots[..]))
      ensures slots[..] == if i < SLOTS then old(slots[..])[i := Taken(id)] else old(slots[..])
    {
      i := 0;
      while i < SLOTS
        invariant i <= SLOTS && slots[..] == old(slots[..])
        invariant FreeSlot(slots[..]) == FreeSlot(slots[..], i)
      {
        if !slots[i].inUse {
          slots[i] := Slot(Cut(id, 63), "", false, true);
          return;
        }
        i := i + 1;
      }
    }

    method FindSlot(id: string) returns (i: nat)
      requires Valid()
      ensures i == MatchingSlot(slots[..], id)
    {
      i := 0;
      while i < SLOTS
        invariant i <= SLOTS && MatchingSlot(slots[..], id) == MatchingSlot(slots[..], id, i)
      {
        if slots[i].inUse && SamePrefix(slots[i].id, id, 64) { return; }
        i := i + 1;
      }
    }

    method Store(i: nat, pw: string)
      requires Valid() && i < SLOTS
      modifies slots
      ensures slots[..] == old(slots[..])[i := Stored(old(slots[i]), pw)]
    {
      slots[i] := slots[i].(password := Cut(pw, 511));
      slots[i] := slots[i].(ready := true);
    }

    method Collect(i: nat) returns (result: Maybe<string>)
      requires Valid() && i < SLOTS
      modifies slots
      ensures result == Collected(old(slots[i]))
      ensures slots[..] == old(slots[..])[i := Wiped(old(slots[i]))]
    {
      result := None;
      if slots[i].ready && slots[i].password != "" {
        result := Some(slots[i].password);
        slots[i] := slots[i].(password := "");
      }
    }

    method Release(i: nat)
      requires Valid() && i < SLOTS
      modifies slots
      ensures slots[..] == old(slots[..])[i := old(slots[i]).(inUse := false)]
    {
      slots[i] := slots[i].(inUse := false);
    }
  }

  // ---- runs ---------------------------------------------------------------

  /** A waiter before and after it has looked into its slot; a deliverer between finding a slot
      and writing to it. */
  datatype Phase =
    | Waiting(slot: nat, id: string)
    | Leaving(slot: nat, id: string, result: Maybe<string>)
    | Writing(slot: nat, id: string, pw: string, gen: nat)

  datatype Delivery = Delivery(id: string, pw: string)

  /** For the statements only: `gens` counts the allocations of every slot, `logs` lists what was
      written into it since the last one. */
  datatype State = State(slots: seq<Slot>, threads: map<nat, Phase>, gens: seq<nat>, logs: seq<seq<Delivery>>)

  datatype Event =
    | Ask(t: nat, id: string)
    | Lookup(t: nat, id: string, pw: string)
    | Write(t: nat)
    | Finish(t: nat, timedOut: bool)
    | Leave(t: nat)

  predicate Sized(s: State) {
    |s.slots| == |s.gens| == |s.logs| == SLOTS
    && forall t :: t in s.threads ==> s.threads[t].slot < SLOTS
  }

  predicate Enabled(s: State, e: Event) {
    Sized(s) &&
    match e
    case Ask(t, id) => t !in s.threads && id != ""
    case Lookup(t, id, _) => t !in s.threads && id != ""
    case Write(t) => t in s.threads && s.threads[t].Writing?
    case Finish(t, timedOut) =>
      t in s.threads && s.threads[t].Waiting? && (timedOut || s.slots[s.threads[t].slot].ready)
    case Leave(t) => t in s.threads && s.threads[t].Leaving?
  }

  function Next(s: State, e: Event): State
    requires Enabled(s, e)
  {
    match e
    case Ask(t, id) =>
      var i := FreeSlot(s.slots);
      if i == SLOTS then s else
        State(s.slots[i := Taken(id)], s.threads[t := Waiting(i, id)], s.gens[i := s.gens[i] + 1], s.logs[i := []])
    case Lookup(t, id, pw) =>
      var i := MatchingSlot(s.slots, id);
      if i == SLOTS then s else s.(threads := s.threads[t := Writing(i, id, pw, s.gens[i])])
    case Write(t) =>
      var w := s.threads[t];
      s.(slots := s.slots[w.slot := Stored(s.slots[w.slot], w.pw)],
         logs := s.logs[w.slot := s.logs[w.slot] + [Delivery(w.id, w.pw)]],
         threads := s.threads - {t})
    case Finish(t, _) =>
      var w := s.threads[t];
      s.(slots := s.slots[w.slot := Wiped(s.slots[w.slot])],
         threads := s.threads[t := Leaving(w.slot, w.id, Collected(s.slots[w.slot]))])
    case Leave(t) =>
      var i := s.threads[t].slot;
      s.(slots := s.slots[i := s.slots[i].(inUse := false)], threads := s.threads - {t})
  }

  function Init(): State {
    State(seq(SLOTS, _ => EMPTY_SLOT), map[], seq(SLOTS, _ => 0), seq(SLOTS, _ => []))
  }

  function Step(s: State, e: Event): Maybe<State> {
    if Enabled(s, e) then Some(Next(s, e)) else None
  }

  function Run(es: seq<Event>): Maybe<State> {
    RunFrom(Step, Init(), es)
  }

  // ---- conservation -------------------------------------------------------

  predicate Holds(s: State, t: nat, i: nat) {
    t in s.threads && !s.threads[t].Writing? && s.threads[t].slot == i
  }

  /** The slots in use and the waiters between allocation and release correspond one to one, and
      a slot in use carries the identifier of its waiter. */
  ghost predicate Owned(s: State) {
    && Sized(s)
    && (forall t :: t in s.threads && !s.threads[t].Writing? ==>
          s.slots[s.threads[t].slot].inUse && s.slots[s.threads[t].slot].id == Cut(s.threads[t].id, 63))
    && (forall t, u, i :: Holds(s, t, i) && Holds(s, u, i) ==> t == u)
    && (forall i :: 0 <= i < SLOTS && s.slots[i].inUse ==> exists t :: Holds(s, t, i))
  }

  /** Who holds a slot after a step held it before, or has just been given it. */
  lemma HeldBefore(s: State, e: Event, t: nat, i: nat)
    requires Owned(s) && Enabled(s, e) && Holds(Next(s, e), t, i)
    ensures if e.Ask? && t == e.t then i == FreeSlot(s.slots) < SLOTS && Next(s, e).threads[t].id == e.id
            else Holds(s, t, i) && Next(s, e).threads[t].id == s.threads[t].id && !(e.Leave? && t == e.t)
  {
  }

  /** A slot held by a thread that does not just leave stays in use under its identifier. */
  lemma SlotKept(s: State, e: Event, t: nat, i: nat)
    requires Owned(s) && Enabled(s, e) && Holds(s, t, i) && !(e.Leave? && t == e.t)
    ensures Next(s, e).slots[i].inUse && Next(s, e).slots[i].id == s.slots[i].id
  {
    if e.Leave? { assert Holds(s, e.t, s.threads[e.t].slot); }
  }

  lemma StepOwned(s: State, e: Event)
    requires Owned(s) && Enabled(s, e)
    ensures Owned(Next(s, e))
  {
    var n := Next(s, e);
    forall t, i: nat | Holds(n, t, i) ensures n.slots[i].inUse && n.slots[i].id == Cut(n.threads[t].id, 63) {
      HeldBefore(s, e, t, i);
      if !(e.Ask? && t == e.t) { SlotKept(s, e, t, i); }
    }
    forall t | t in n.threads && !n.threads[t].Writing?
      ensures n.slots[n.threads[t].slot].inUse && n.slots[n.threads[t].slot].id == Cut(n.threads[t].id, 63)
    {
      assert Holds(n, t, n.threads[t].slot);
    }
    forall t, u, i | Holds(n, t, i) && Holds(n, u, i) ensures t == u {
      HeldBefore(s, e, t, i);
      HeldBefore(s, e, u, i);
    }
    StepInUse(s, e);
  }

  lemma StepInUse(s: State, e: Event)
    requires Owned(s) && Enabled(s, e)
    ensures forall i :: 0 <= i < SLOTS && Next(s, e).slots[i].inUse ==> exists t :: Holds(Next(s, e), t, i)
  {
    var n := Next(s, e);
    forall i | 0 <= i < SLOTS && n.slots[i].inUse ensures exists t :: Holds(n, t, i) {
      if e.Ask? && !s.slots[i].inUse {
        assert Holds(n, e.t, i);
      } else {
        var t :| Holds(s, t, i);
        assert Holds(n, t, i);
      }
    }
  }

  lemma {:induction false} RunOwned(es: seq<Event>)
    requires Run(es).Some?
    ensures Owned(Run(es).value)
  {
    if es != [] {
      RunOwned(es[..|es| - 1]);
      StepOwned(Run(es[..|es| - 1]).value, es[|es| - 1]);
    }
  }

  function Waiters(s: State): set<nat> {
    set t | t in s.threads && !s.threads[t].Writing?
  }

  function InUse(s: State): set<nat>
    requires Sized(s)
  {
    set i | 0 <= i < SLOTS && s.slots[i].inUse
  }

  lemma {:induction false} Injective(m: map<nat, nat>)
    requires forall t, u :: t in m && u in m && m[t] == m[u] ==> t == u
    ensures |m.Values| == |m.Keys|
  {
    if m != map[] {
      var t :| t in m;
      var rest := m - {t};
      Injective(rest);
      forall i | i in m.Values - {m[t]} ensures i in rest.Values {
        var u :| u in m && m[u] == i;
        assert u in rest && rest[u] == i;
      }
      assert m.Values == rest.Values + {m[t]} && m.Keys == rest.Keys + {t};
    }
  }

  function Below(n: nat): (r: set<nat>)
    ensures |r| == n && forall i: nat :: i in r <==> i < n
  {
    if n == 0 then {} else Below(n - 1) + {n - 1}
  }

  lemma SlotOfWaiter(s: State) returns (m: map<nat, nat>)
    requires Owned(s)
    ensures m.Keys == Waiters(s) && m.Values == InUse(s)
    ensures forall t, u :: t in m && u in m && m[t] == m[u] ==> t == u
  {
    m := map t | t in Waiters(s) :: s.threads[t].slot;
    forall t, u | t in m && u in m && m[t] == m[u] ensures t == u {
      assert Holds(s, t, m[t]) && Holds(s, u, m[t]);
    }
    forall i | i in InUse(s) ensures i in m.Values {
      var t :| Holds(s, t, i);
      assert t in m && m[t] == i;
    }
  }

  lemma TableFull(s: State)
    requires Sized(s)
    ensures InUse(s) <= Below(SLOTS)
    ensures FreeSlot(s.slots) == SLOTS <==> InUse(s) == Below(SLOTS)
  {
    var f := FreeSlot(s.slots);
    if f < SLOTS { assert f in Below(SLOTS) && f !in InUse(s); }
  }

  lemma WaitersFit(s: State)
    requires Owned(s)
    ensures |Waiters(s)| == |InUse(s)| <= SLOTS
    ensures FreeSlot(s.slots) == SLOTS <==> |Waiters(s)| == SLOTS
  {
    var m := SlotOfWaiter(s);
    Injective(m);
    TableFull(s);
    Subset(InUse(s), Below(SLOTS));
  }

  lemma {:induction false} Subset(a: set<nat>, b: set<nat>)
    requires a <= b
    ensures |a| <= |b| && (|a| == |b| <==> a == b)
  {
    if a != {} {
      var x :| x in a;
      Subset(a - {x}, b - {x});
      if |a| == |b| { assert a == (a - {x}) + {x} == b; }
    }
  }

  /** A wait that is given a slot. */
  predicate Accepted(s: State, e: Event)
    requires Sized(s)
  {
    e.Ask? && FreeSlot(s.slots) < SLOTS
  }

  /** Slots handed out, and slots given back. */
  function Allocations(es: seq<Event>): nat
    requires Run(es).Some?
  {
    if es == [] then 0 else
      var e := es[|es| - 1];
      Allocations(es[..|es| - 1])
      + (if Accepted(Run(es[..|es| - 1]).value, e) then 1 else 0)
  }

  function Releases(es: seq<Event>): nat {
    if es == [] then 0 else Releases(es[..|es| - 1]) + (if es[|es| - 1].Leave? then 1 else 0)
  }

  lemma StepWaiters(s: State, e: Event)
    requires Enabled(s, e)
    ensures Accepted(s, e) ==> e.t !in Waiters(s) && Waiters(Next(s, e)) == Waiters(s) + {e.t}
    ensures e.Leave? ==> e.t in Waiters(s) && Waiters(Next(s, e)) == Waiters(s) - {e.t}
    ensures !Accepted(s, e) && !e.Leave? ==> Waiters(Next(s, e)) == Waiters(s)
  {
  }

  /** In every run there are as many slots in use as waiters, at most sixteen; a request is turned
      away exactly when there are sixteen; and every slot handed out is either still held or has
      been given back once. */
  lemma {:induction false} SlotsConserved(es: seq<Event>)
    requires Run(es).Some?
    ensures var s := Run(es).value;
            && Owned(s) && |Waiters(s)| == |InUse(s)| <= 16
            && (FreeSlot(s.slots) == SLOTS <==> |Waiters(s)| == 16)
            && Allocations(es) == Releases(es) + |Waiters(s)|
  {
    RunOwned(es);
    WaitersFit(Run(es).value);
    if es != [] {
      SlotsConserved(es[..|es| - 1]);
      StepWaiters(Run(es[..|es| - 1]).value, es[|es| - 1]);
    }
  }

  // ---- who receives what --------------------------------------------------

  /** What waiter `t` would take away now: the last thing written since it got its slot. */
  function Due(s: State, t: nat): Maybe<string>
    requires Sized(s) && t in s.threads
  {
    var log := s.logs[s.threads[t].slot];
    if log != [] && log[|log| - 1].pw != "" then Some(Cut(log[|log| - 1].pw, 511)) else None
  }

  /** The slot of a waiter tells exactly what its log tells. */
  predicate FaithfulTo(s: State, t: nat)
    requires Sized(s) && t in s.threads
  {
    var i := s.threads[t].slot;
    (s.slots[i].ready <==> s.logs[i] != []) && Collected(s.slots[i]) == Due(s, t)
  }

  predicate Faithful(s: State) {
    && Sized(s)
    && forall t :: t in s.threads && s.threads[t].Waiting? ==> FaithfulTo(s, t)
  }

  /** A waiter is not affected by what happens in other slots. */
  lemma WaiterAlone(s: State, e: Event, t: nat)
    requires Owned(s) && Enabled(s, e) && t in s.threads && s.threads[t].Waiting?
    requires e.Lookup? || (!e.Write? && t != e.t) || (e.Write? && s.threads[e.t].slot != s.threads[t].slot)
    ensures var n, i := Next(s, e), s.threads[t].slot;
            t in n.threads && n.threads[t] == s.threads[t] && n.slots[i] == s.slots[i] && n.logs[i] == s.logs[i]
  {
    assert Holds(s, t, s.threads[t].slot);
    if e.Finish? || e.Leave? { assert Holds(s, e.t, s.threads[e.t].slot); }
  }

  lemma AskFaithful(s: State, t: nat, id: string)
    requires Owned(s) && Enabled(s, Ask(t, id)) && FreeSlot(s.slots) < SLOTS
    ensures FaithfulTo(Next(s, Ask(t, id)), t)
  {
  }

  lemma WriteFaithful(s: State, w: nat, t: nat)
    requires Owned(s) && Enabled(s, Write(w)) && t in s.threads && s.threads[t].Waiting?
    requires s.threads[w].slot == s.threads[t].slot
    ensures t in Next(s, Write(w)).threads && FaithfulTo(Next(s, Write(w)), t)
  {
  }

  /** Who waits after a step waited before, or has just been given a slot. */
  lemma WaitedBefore(s: State, e: Event, t: nat)
    requires Enabled(s, e) && t in Next(s, e).threads && Next(s, e).threads[t].Waiting?
    ensures (e.Ask? && t == e.t && t !in s.threads && FreeSlot(s.slots) < SLOTS)
            || (t in s.threads && s.threads[t].Waiting? && t != e.t)
  {
  }

  lemma StepFaithful(s: State, e: Event)
    requires Owned(s) && Faithful(s) && Enabled(s, e)
    ensures Faithful(Next(s, e))
  {
    var n := Next(s, e);
    forall t | t in n.threads && n.threads[t].Waiting? ensures FaithfulTo(n, t) {
      WaitedBefore(s, e, t);
      if e.Ask? && t == e.t {
        AskFaithful(s, t, e.id);
      } else if e.Write? && s.threads[e.t].slot == s.threads[t].slot {
        WriteFaithful(s, e.t, t);
      } else {
        WaiterAlone(s, e, t);
        assert FaithfulTo(s, t);
      }
    }
  }

  /** Delivery may find the slot re-allocated; `gen` tells. */
  predicate Timely(s: State, e: Event) {
    e.Write? && Enabled(s, e) ==> s.threads[e.t].gen == s.gens[s.threads[e.t].slot]
  }

  predicate RunTimely(es: seq<Event>)
    requires Run(es).Some?
  {
    es != [] ==> RunTimely(es[..|es| - 1]) && Timely(Run(es[..|es| - 1]).value, es[|es| - 1])
  }

  /** Everything written into a slot was meant for the identifier it carries. */
  predicate Addressed(s: State) {
    && Sized(s)
    && (forall i :: 0 <= i < SLOTS ==> |s.slots[i].id| <= 63)
    && (forall i, d :: 0 <= i < SLOTS && d in s.logs[i] ==> d.id == s.slots[i].id)
    && (forall t :: t in s.threads && s.threads[t].Writing? ==>
          var w := s.threads[t];
          w.gen <= s.gens[w.slot] && (w.gen == s.gens[w.slot] ==> s.slots[w.slot].id == w.id))
  }

  lemma StepAddressed(s: State, e: Event)
    requires Addressed(s) && Enabled(s, e) && Timely(s, e)
    ensures Addressed(Next(s, e))
  {
  }

  lemma {:induction false} RunFaithful(es: seq<Event>)
    requires Run(es).Some?
    ensures Owned(Run(es).value) && Faithful(Run(es).value)
    ensures RunTimely(es) ==> Addressed(Run(es).value)
  {
    RunOwned(es);
    if es != [] {
      var s, e := Run(es[..|es| - 1]).value, es[|es| - 1];
      RunFaithful(es[..|es| - 1]);
      StepFaithful(s, e);
      if RunTimely(es) { StepAddressed(s, e); }
    }
  }

  /** In every run a waiter that stops waiting, timed out or not, receives exactly the last
      password written since it got its slot, and nothing if there was none or it was empty. If no
      slot was re-allocated between a deliverer's lookup and its write, that password was
      delivered for the waiter's own identifier. */
  lemma NoMisdelivery(es: seq<Event>, t: nat, timedOut: bool)
    requires Run(es).Some? && Enabled(Run(es).value, Finish(t, timedOut))
    ensures var s := Run(es).value;
            && Next(s, Finish(t, timedOut)).threads[t].result == Due(s, t)
            && (RunTimely(es) ==> forall d :: d in s.logs[s.threads[t].slot] ==> d.id == Cut(s.threads[t].id, 63))
  {
    RunFaithful(es);
  }

  /** A password that is taken away is wiped from the slot; a new slot holds none, whatever was left. */
  lemma NothingLeftBehind(s: State, e: Event)
    requires Enabled(s, e)
    ensures e.Finish? && Next(s, e).threads[e.t].result.Some? ==>
              Next(s, e).slots[s.threads[e.t].slot].password == ""
    ensures e.Ask? && FreeSlot(s.slots) < SLOTS ==>
              var slot := Next(s, e).slots[FreeSlot(s.slots)]; slot.password == "" && !slot.ready && slot.inUse
  {
  }

  /** A waiter can be found under its own identifier if and only if it has at most 63 characters. */
  lemma FoundUnderOwnId(slots: seq<Slot>, i: nat, id: string)
    requires i < |slots| && slots[i] == Taken(id)
    ensures Matches(slots[i], id) <==> |id| <= 63
    ensures |id| <= 63 && (forall j :: 0 <= j < i ==> !Matches(slots[j], id)) ==> MatchingSlot(slots, id) == i
  {
    if |id| > 63 { assert |Cut(id, 63)| == 63; }
  }

  // ---- exactly when a delivery is for its reader --------------------------

  /** The identifiers asked for during a run, as the table keeps them. */
  function Asked(es: seq<Event>): set<string> {
    if es == [] then {} else
      Asked(es[..|es| - 1]) + (if es[|es| - 1].Ask? then {Cut(es[|es| - 1].id, 63)} else {})
  }

  /** No two requests of a run have the same identifier in the table. */
  predicate DistinctAsks(es: seq<Event>) {
    es != [] ==>
      var e := es[|es| - 1];
      DistinctAsks(es[..|es| - 1]) && (e.Ask? ==> Cut(e.id, 63) !in Asked(es[..|es| - 1]))
  }

  /** A deliverer's slot still carries the identifier it looked for exactly as long as it has not been
      re-allocated. */
  predicate Tracked(s: State, asked: set<string>) {
    && Sized(s)
    && (forall i :: 0 <= i < SLOTS ==> |s.slots[i].id| <= 63 && (s.slots[i].inUse ==> s.slots[i].id in asked))
    && (forall t :: t in s.threads && s.threads[t].Writing? ==>
          var w := s.threads[t];
          && w.id in asked && w.gen <= s.gens[w.slot]
          && (w.gen == s.gens[w.slot] <==> s.slots[w.slot].id == w.id))
  }

  lemma AskTracked(s: State, asked: set<string>, e: Event)
    requires Tracked(s, asked) && Enabled(s, e) && e.Ask? && Cut(e.id, 63) !in asked
    ensures Tracked(Next(s, e), asked + {Cut(e.id, 63)})
  {
  }

  lemma OtherTracked(s: State, asked: set<string>, e: Event)
    requires Tracked(s, asked) && Enabled(s, e) && !e.Ask?
    ensures Tracked(Next(s, e), asked)
  {
  }

  lemma {:induction false} RunTracked(es: seq<Event>)
    requires Run(es).Some? && DistinctAsks(es)
    ensures Tracked(Run(es).value, Asked(es))
  {
    if es != [] {
      var s, e, asked := Run(es[..|es| - 1]).value, es[|es| - 1], Asked(es[..|es| - 1]);
      RunTracked(es[..|es| - 1]);
      if e.Ask? { AskTracked(s, asked, e); } else { OtherTracked(s, asked, e); assert Asked(es) == asked; }
    }
  }

  /** In every run with distinct requests, a deliverer about to write into the slot of a waiter writes
      what is meant for that waiter if and only if the slot has not been re-allocated since its lookup.
      That waiter, and no other, then takes away what is written. */
  lemma WriteReachesOwner(es: seq<Event>, w: nat, t: nat)
    requires Run(es).Some? && DistinctAsks(es) && w in Run(es).value.threads && t in Run(es).value.threads
    requires Run(es).value.threads[w].Writing? && Run(es).value.threads[t].Waiting?
    requires Run(es).value.threads[w].slot == Run(es).value.threads[t].slot
    ensures var s := Run(es).value;
            Enabled(s, Write(w)) && (s.threads[w].id == Cut(s.threads[t].id, 63) <==> Timely(s, Write(w)))
    ensures WritesTo(Run(es).value, w, t)
  {
    RunOwned(es);
    RunTracked(es);
    assert Holds(Run(es).value, t, Run(es).value.threads[t].slot);
    WriteTaken(Run(es).value, w, t);
  }

  /** What deliverer `w` writes now is what waiter `t` takes away next. */
  predicate WritesTo(s: State, w: nat, t: nat) {
    && Enabled(s, Write(w)) && Enabled(Next(s, Write(w)), Finish(t, false))
    && Next(Next(s, Write(w)), Finish(t, false)).threads[t].result
       == if s.threads[w].pw != "" then Some(Cut(s.threads[w].pw, 511)) else None
  }

  lemma WriteTaken(s: State, w: nat, t: nat)
    requires Owned(s) && w in s.threads && t in s.threads && s.threads[w].Writing? && s.threads[t].Waiting?
    requires s.threads[w].slot == s.threads[t].slot
    ensures WritesTo(s, w, t)
  {
  }

  /** So a late write always reaches the wrong waiter: whoever holds the slot by then takes away a
      password delivered for another identifier. */
  lemma LateWriteMisdelivers(es: seq<Event>, w: nat, t: nat)
    requires Run(es).Some? && DistinctAsks(es) && w in Run(es).value.threads && t in Run(es).value.threads
    requires Run(es).value.threads[w].Writing? && Run(es).value.threads[t].Waiting?
    requires Run(es).value.threads[w].slot == Run(es).value.threads[t].slot
    requires !Timely(Run(es).value, Write(w))
    ensures Run(es).value.threads[w].id != Cut(Run(es).value.threads[t].id, 63)
    ensures WritesTo(Run(es).value, w, t)
  {
    WriteReachesOwner(es, w, t);
  }

  lemma FoundAtZero(a: string, pw: string) returns (es: seq<Event>, s: State)
    requires a != "" && |a| <= 63
    ensures es == [Ask(1, a), Lookup(2, a, pw)] && Run(es) == Some(s) && Sized(s)
    ensures s.threads == map[1 := Waiting(0, a), 2 := Writing(0, a, pw, 1)]
    ensures s.slots[0] == Taken(a) && s.gens[0] == 1
  {
    var s0 := Init();
    assert FreeSlot(s0.slots) == 0;
    var s1 := Next(s0, Ask(1, a));
    assert Matches(s1.slots[0], a);
    s := Next(s1, Lookup(2, a, pw));
    es := [];
    es := Extend(Step, s0, es, s0, Ask(1, a), s1);
    es := Extend(Step, s0, es, s1, Lookup(2, a, pw), s);
  }

  lemma TimedOut(a: string, pw: string) returns (es: seq<Event>, s: State)
    requires a != "" && |a| <= 63
    ensures es == [Ask(1, a), Lookup(2, a, pw), Finish(1, true), Leave(1)] && Run(es) == Some(s) && Sized(s)
    ensures s.threads == map[2 := Writing(0, a, pw, 1)] && !s.slots[0].inUse && s.gens[0] == 1
  {
    var s2;
    es, s2 := FoundAtZero(a, pw);
    var s3 := Next(s2, Finish(1, true));
    s := Next(s3, Leave(1));
    es := Extend(Step, Init(), es, s2, Finish(1, true), s3);
    es := Extend(Step, Init(), es, s3, Leave(1), s);
  }

  /** The first waiter times out after a deliverer has found its slot, and a second one is given it. */
  lemma Overtaken(a: string, b: string, pw: string) returns (es: seq<Event>, s: State)
    requires a != "" && b != "" && |a| <= 63 && |b| <= 63
    ensures es == [Ask(1, a), Lookup(2, a, pw), Finish(1, true), Leave(1), Ask(3, b)] && Run(es) == Some(s)
    ensures Sized(s) && s.threads == map[2 := Writing(0, a, pw, 1), 3 := Waiting(0, b)]
    ensures s.slots[0] == Taken(b) && s.logs[0] == [] && s.gens[0] == 2
  {
    var s4;
    es, s4 := TimedOut(a, pw);
    assert FreeSlot(s4.slots) == 0;
    s := Next(s4, Ask(3, b));
    es := Extend(Step, Init(), es, s4, Ask(3, b), s);
  }

  /** Such a run exists for any two identifiers: the second waiter receives the password meant for the
      first. */
  lemma Misdelivery(a: string, b: string, pw: string) returns (es: seq<Event>, s: State)
    requires a != "" && b != "" && pw != "" && |a| <= 63 && |b| <= 63 && a != b
    ensures Run(es) == Some(s) && 3 in s.threads && Sized(s)
    ensures s.threads[3] == Leaving(0, b, Some(Cut(pw, 511)))
    ensures s.logs[0] == [Delivery(a, pw)]
  {
    var s5;
    es, s5 := Overtaken(a, b, pw);
    var s6 := Next(s5, Write(2));
    s := Next(s6, Finish(3, false));
    es := Extend(Step, Init(), es, s5, Write(2), s6);
    es := Extend(Step, Init(), es, s6, Finish(3, false), s);
  }
}
