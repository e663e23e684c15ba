/** The event broadcaster: every frame goes to the pipe of every active client, in pieces if the
    writes come short. */
module Sse {
  import opened CText
  import opened Runs

  const MAX_CLIENTS := 32
  const BUF_SIZE := 4096

  /** `got` is what has been read out of the pipe so far. */
  datatype Client = Client(active: bool, open: bool, pipe: string, got: string)

  const NO_CLIENT := Client(false, false, "", "")
  const NEW_CLIENT := Client(true, true, "", "")

  /** What one `write` does: some bytes, at least one; a signal; an error. */
  datatype Outcome = Wrote(n: nat) | Interrupted | Broken

  function Frame(event: string, data: string): string {
    "event: " + event + "\ndata: " + data + "\n\n"
  }

  datatype Message = Message(event: string, data: string)

  /** The frames of messages, one after the other. */
  function Stream(ms: seq<Message>): string {
    if ms == [] then "" else
      var m := ms[|ms| - 1];
      Stream(ms[..|ms| - 1]) + Frame(m.event, m.data)
  }

  /** The bytes `write` takes of `left` remaining ones. */
  function Took(n: nat, left: nat): (r: nat)
    requires left > 0
    ensures 0 < r <= left
  {
    if n == 0 then 1 else if n > left then left else n
  }

  /** How many bytes of a message of length `len` reach the pipe when `sent` have; all of them once
      the script of outcomes is used up. */
  function Pushed(len: nat, sent: nat, script: seq<Outcome>): (r: nat)
    requires sent <= len
    ensures sent <= r <= len
    decreases |script|
  {
    if sent == len || script == [] then len
    else match script[0]
      case Interrupted => Pushed(len, sent, script[1..])
      case Broken => sent
      case Wrote(n) => Pushed(len, sent + Took(n, len - sent), script[1..])
  }

  /** A client that did not take the whole frame is given up. */
  function Receive(c: Client, msg: string, script: seq<Outcome>): Client {
    if !c.active || !c.open then c else
      var n := Pushed(|msg|, 0, script);
      c.(pipe := c.pipe + msg[..n], active := n == |msg|)
  }

  function Drain(c: Client, max: nat): Client {
    if !c.active then c else
      var n := if max < |c.pipe| then max else |c.pipe|;
      c.(got := c.got + c.pipe[..n], pipe := c.pipe[n..])
  }

  function Closed(c: Client): Client {
    c.(active := false, open := false, pipe := "")
  }

  class Broadcaster {
    const clients: array<Client>
    var num: nat

    ghost predicate Valid()
      reads this
    {
      clients.Length == MAX_CLIENTS && num <= MAX_CLIENTS
    }

    constructor ()
      ensures Valid() && fresh(clients) && num == 0
      ensures clients[..] == seq(MAX_CLIENTS, _ => NO_CLIENT)
    {
      clients := new Client[MAX_CLIENTS](_ => NO_CLIENT);
      num := 0;
    }

    /** The first part of `sse_broadcaster_add_client`. */
    method AddClient(pipeMade: bool) returns (slot: Maybe<nat>)
      requires Valid()
      modifies this`num, clients
      ensures Valid()
      ensures slot == if old(num) < MAX_CLIENTS && pipeMade then Some(old(num)) else None
      ensures num == if slot.Some? then old(num) + 1 else old(num)
      ensures forall i :: 0 <= i < MAX_CLIENTS && i != old(num) ==> clients[i] == old(clients[i])
      ensures slot.Some? ==> clients[old(num)] == NEW_CLIENT
      ensures slot.None? && old(num) < MAX_CLIENTS ==> clients[old(num)] == NO_CLIENT
    {
      if num >= MAX_CLIENTS { return None; }
      clients[num] := NO_CLIENT;
      if !pipeMade { return None; }
      clients[num] := clients[num].(active := true, open := true);
      num := num + 1;
      return Some(num - 1);
    }

    /** Its error path when no response object could be made. */
    method GiveUp(slot: nat)
      requires Valid() && slot < MAX_CLIENTS && num > 0
      modifies this`num, clients
      ensures Valid() && num == old(num) - 1
      ensures clients[..] == old(clients[..])[slot := Closed(old(clients[slot]))]
    {
      clients[slot] := Closed(clients[slot]);
      num := num - 1;
    }

    method Broadcast(event: string, data: string, scripts: nat -> seq<Outcome>)
      requires Valid()
      modifies clients
      ensures Valid()
      ensures forall i :: 0 <= i < MAX_CLIENTS ==>
                clients[i] == if i < num && |event| + |data| + 16 < 4096
                              then Receive(old(clients[i]), "event: " + event + "\ndata: " + data + "\n\n", scripts(i))
                              else old(clients[i])
    {
      var msg := Frame(event, data);
      if |msg| >= BUF_SIZE { return; }
      for i := 0 to num
        invariant forall j :: 0 <= j < MAX_CLIENTS ==>
                    clients[j] == if j < i then Receive(old(clients[j]), msg, scripts(j)) else old(clients[j])
      {
        if clients[i].active && clients[i].open { SendTo(i, msg, scripts(i)); }
      }
    }

    method SendTo(i: nat, msg: string, script: seq<Outcome>)
      requires Valid() && i < MAX_CLIENTS && clients[i].active && clients[i].open
      modifies clients
      ensures clients[..] == old(clients[..])[i := Receive(old(clients[i]), msg, script)]
    {
      var sent, k := 0, 0;
      ghost var was := clients[i];
      assert was.pipe + msg[..0] == was.pipe;
      while sent < |msg|
        invariant sent <= |msg| && k <= |script|
        invariant Pushed(|msg|, 0, script) == Pushed(|msg|, sent, script[k..])
        invariant clients[i] == was.(pipe := was.pipe + msg[..sent])
        invariant forall j :: 0 <= j < MAX_CLIENTS && j != i ==> clients[j] == old(clients[j])
        decreases |msg| - sent, |script| - k
      {
        var next := if k < |script| then script[k] else Wrote(|msg| - sent);
        if k < |script| { k := k + 1; }
        match next {
          case Interrupted =>
          case Broken =>
            clients[i] := clients[i].(active := false);
            return;
          case Wrote(n) =>
            var end := sent + Took(n, |msg| - sent);
            assert was.pipe + msg[..sent] + msg[sent..end] == was.pipe + msg[..end];
            clients[i] := clients[i].(pipe := clients[i].pipe + msg[sent..end]);
            sent := end;
        }
      }
    }

    /** One call of the reader callback; nothing at all if the pipe is empty. */
    method ReadSome(i: nat, max: nat) returns (data: Maybe<string>)
      requires Valid() && i < MAX_CLIENTS
      modifies clients
      ensures clients[..] == old(clients[..])[i := Drain(old(clients[i]), max)]
      ensures data.Some? == old(clients[i].active)
      ensures data.Some? ==> clients[i].got == old(clients[i].got) + data.value
      ensures data.Some? ==> |data.value| == if max < |old(clients[i].pipe)| then max else |old(clients[i].pipe)|
      ensures data.Some? ==> data.value + clients[i].pipe == old(clients[i].pipe)
    {
      if !clients[i].active { return None; }
      var c := clients[i];
      var n := if max < |c.pipe| then max else |c.pipe|;
      data := Some(c.pipe[..n]);
      clients[i] := c.(pipe := c.pipe[n..], got := c.got + c.pipe[..n]);
    }

    method FreeClient(i: nat)
      requires Valid() && i < MAX_CLIENTS
      modifies clients
      ensures clients[..] == old(clients[..])[i := Closed(old(clients[i]))]
    {
      clients[i] := Closed(clients[i]);
    }
  }

  // ---- runs ---------------------------------------------------------------

  /** `pending` holds the slots of subscriptions whose response has not been made yet, `live` those of
      connections that may still call back. For the statements only: `history` lists the messages broadcast
      so far, `since` tells how many there were when each client joined, `joined` is the number of
      successful subscriptions. */
  datatype State = State(clients: seq<Client>, num: nat, pending: multiset<nat>, live: multiset<nat>,
                         history: seq<Message>, since: seq<nat>, joined: nat)

  datatype Event =
    | Add(pipeMade: bool)
    | Respond(slot: nat, made: bool)
    | Send(event: string, data: string, scripts: nat -> seq<Outcome>)
    | Read(slot: nat, max: nat)
    | Free(slot: nat)

  predicate Sized(s: State) {
    && |s.clients| == |s.since| == MAX_CLIENTS && s.num <= MAX_CLIENTS
    && (forall i :: 0 <= i < MAX_CLIENTS ==> s.since[i] <= |s.history|)
    && (forall i :: i in s.pending ==> i < MAX_CLIENTS) && (forall i :: i in s.live ==> i < MAX_CLIENTS)
    && s.joined + |s.pending| == s.num
  }

  predicate Enabled(s: State, e: Event) {
    Sized(s) &&
    match e
    case Respond(slot, _) => slot in s.pending
    case Read(slot, _) => slot in s.live
    case Free(slot) => slot in s.live
    case _ => true
  }

  function ReceiveAll(s: State, msg: string, scripts: nat -> seq<Outcome>): seq<Client> {
    seq(|s.clients|, i requires 0 <= i < |s.clients| =>
      if i < s.num then Receive(s.clients[i], msg, scripts(i)) else s.clients[i])
  }

  function Next(s: State, e: Event): State
    requires Enabled(s, e)
  {
    match e
    case Add(pipeMade) =>
      if s.num == MAX_CLIENTS then s
      else if !pipeMade then s.(clients := s.clients[s.num := NO_CLIENT])
      else s.(clients := s.clients[s.num := NEW_CLIENT], num := s.num + 1,
              pending := s.pending + multiset{s.num}, since := s.since[s.num := |s.history|])
    case Respond(slot, made) =>
      var left := s.pending - multiset{slot};
      if made then s.(pending := left, live := s.live + multiset{slot}, joined := s.joined + 1)
      else s.(clients := s.clients[slot := Closed(s.clients[slot])],
              num := s.num - 1, pending := left)
    case Send(event, data, scripts) =>
      var msg := Frame(event, data);
      if |msg| >= BUF_SIZE then s
      else s.(clients := ReceiveAll(s, msg, scripts), history := s.history + [Message(event, data)])
    case Read(slot, max) => s.(clients := s.clients[slot := Drain(s.clients[slot], max)])
    case Free(slot) =>
      s.(clients := s.clients[slot := Closed(s.clients[slot])], live := s.live - multiset{slot})
  }

  function Init(): State {
    State(seq(MAX_CLIENTS, _ => NO_CLIENT), 0, multiset{}, multiset{}, [], seq(MAX_CLIENTS, _ => 0), 0)
  }

  function Step(s: State, e: Event): Maybe<State> {
    if Enabled(s, e) then Some(Next(s, e)) else None
  }

  function Run(es: seq<Event>): Maybe<State> {
    RunFrom(Step, Init(), es)
  }

  // ---- the number of subscriptions ----------------------------------------

  lemma StepSized(s: State, e: Event)
    requires Enabled(s, e)
    ensures Sized(Next(s, e))
    ensures s.joined <= Next(s, e).joined
  {
  }

  lemma {:induction false} RunSized(es: seq<Event>)
    requires Run(es).Some?
    ensures Sized(Run(es).value)
  {
    if es != [] {
      RunSized(es[..|es| - 1]);
      StepSized(Run(es[..|es| - 1]).value, es[|es| - 1]);
    }
  }

  /** Over its whole life, and however subscriptions overlap and fail, the broadcaster accepts at most
      32 of them. */
  lemma AtMost32(es: seq<Event>)
    requires Run(es).Some?
    ensures Run(es).value.joined <= 32
    ensures Run(es).value.joined == MAX_CLIENTS ==>
              Run(es).value.num == MAX_CLIENTS && Run(es).value.pending == multiset{}
  {
    RunSized(es);
  }

  /** And from then on none is accepted any more, even when every client has gone. */
  lemma {:induction false} FullForever(es: seq<Event>, n: nat)
    requires Run(es).Some? && n <= |es|
    requires Run(es[..n]).Some? && Run(es[..n]).value.joined == MAX_CLIENTS
    ensures Run(es).value.joined == MAX_CLIENTS
  {
    if n == |es| {
      assert es[..n] == es;
    } else {
      assert es[..|es| - 1][..n] == es[..n];
      FullForever(es[..|es| - 1], n);
      StepSized(Run(es[..|es| - 1]).value, es[|es| - 1]);
      AtMost32(es);
    }
  }

  // ---- what clients receive -----------------------------------------------

  /** A client has everything broadcast since it joined, read or in its pipe; once given up or
      gone, a prefix of that. */
  predicate InOrder(c: Client, sent: seq<Message>) {
    && c.got + c.pipe <= Stream(sent)
    && (c.active ==> c.open && c.got + c.pipe == Stream(sent))
  }

  /** The messages broadcast since the client in slot `i` joined. */
  function Sent(s: State, i: nat): seq<Message>
    requires Sized(s) && i < MAX_CLIENTS
  {
    s.history[s.since[i]..]
  }

  /** A slot belongs to one connection or one pending subscription, so that what is read out of its
      pipe is read by that connection. */
  predicate Sole(s: State) {
    forall i :: i in s.live ==> s.live[i] == 1 && i !in s.pending
  }

  /** Every slot in use is in order and nobody shares one; behind them no client is active and no
      subscription pending. */
  predicate Good(s: State) {
    && Sized(s)
    && (forall i :: 0 <= i < s.num ==> InOrder(s.clients[i], Sent(s, i)))
    && (forall i :: s.num <= i < MAX_CLIENTS ==> !s.clients[i].active)
    && (forall i :: i in s.pending ==> i < s.num && s.pending[i] == 1)
    && Sole(s)
  }

  /** A response that cannot be made must be that of the last slot in use, unless that has neither an
      active client nor a pending subscription; and a subscription must not be given a slot whose
      previous connection has not been closed yet. */
  predicate Contained(s: State, e: Event)
    requires Enabled(s, e)
  {
    && (e.Respond? && !e.made && s.num > 0 && e.slot != s.num - 1 ==>
          !s.clients[s.num - 1].active && s.num - 1 !in s.pending)
    && (e.Add? && e.pipeMade && s.num < MAX_CLIENTS ==> s.num !in s.live)
  }

  predicate RunContained(es: seq<Event>)
    requires Run(es).Some?
  {
    es != [] ==> RunContained(es[..|es| - 1]) && Contained(Run(es[..|es| - 1]).value, es[|es| - 1])
  }

  lemma ReceiveInOrder(c: Client, sent: seq<Message>, m: Message, script: seq<Outcome>)
    requires InOrder(c, sent)
    ensures InOrder(Receive(c, Frame(m.event, m.data), script), sent + [m])
  {
    var stream, msg := Stream(sent), Frame(m.event, m.data);
    StreamSnoc(sent, m);
    if c.active {
      var n := Pushed(|msg|, 0, script);
      assert c.got + (c.pipe + msg[..n]) == stream + msg[..n];
    } else {
      assert c.got + c.pipe <= stream <= stream + msg;
    }
  }

  lemma DrainInOrder(c: Client, sent: seq<Message>, max: nat)
    requires InOrder(c, sent)
    ensures InOrder(Drain(c, max), sent)
  {
    assert Drain(c, max).got + Drain(c, max).pipe == c.got + c.pipe;
  }

  lemma CloseInOrder(c: Client, sent: seq<Message>)
    requires InOrder(c, sent)
    ensures InOrder(Closed(c), sent)
  {
    assert c.got + "" == c.got <= c.got + c.pipe;
  }

  lemma AddGood(s: State, e: Event)
    requires Good(s) && Enabled(s, e) && e.Add?
    ensures Good(Next(s, e)) <==> Contained(s, e)
  {
    StepSized(s, e);
    assert s.history[|s.history|..] == [];
    if !Contained(s, e) { assert s.num in Next(s, e).pending && s.num in Next(s, e).live; }
  }

  lemma SendGood(s: State, e: Event)
    requires Good(s) && Enabled(s, e) && e.Send?
    ensures Good(Next(s, e))
  {
    StepSized(s, e);
    var n := Next(s, e);
    forall i | 0 <= i < s.num ensures InOrder(n.clients[i], Sent(n, i)) {
      SentInOrder(s, e, i);
    }
  }

  lemma SentInOrder(s: State, e: Event, i: nat)
    requires Good(s) && Enabled(s, e) && e.Send? && i < s.num
    ensures Sized(Next(s, e)) && InOrder(Next(s, e).clients[i], Sent(Next(s, e), i))
  {
    StepSized(s, e);
    var m := Message(e.event, e.data);
    ReceiveInOrder(s.clients[i], Sent(s, i), m, e.scripts(i));
    if |Frame(e.event, e.data)| < BUF_SIZE {
      assert Sent(Next(s, e), i) == Sent(s, i) + [m];
    }
  }

  lemma CallbackGood(s: State, e: Event)
    requires Good(s) && Enabled(s, e) && (e.Read? || e.Free?)
    ensures Good(Next(s, e))
  {
    StepSized(s, e);
    if e.slot < s.num {
      if e.Read? {
        DrainInOrder(s.clients[e.slot], Sent(s, e.slot), e.max);
      } else {
        CloseInOrder(s.clients[e.slot], Sent(s, e.slot));
      }
    }
  }

  lemma MadeGood(s: State, slot: nat)
    requires Good(s) && Enabled(s, Respond(slot, true))
    ensures Good(Next(s, Respond(slot, true)))
  {
    StepSized(s, Respond(slot, true));
    forall i | i in s.pending - multiset{slot} ensures i < s.num && (s.pending - multiset{slot})[i] == 1 {
      assert i in s.pending;
    }
    assert slot !in s.live;
  }

  lemma FailedGood(s: State, slot: nat)
    requires Good(s) && Enabled(s, Respond(slot, false)) && Contained(s, Respond(slot, false))
    ensures Good(Next(s, Respond(slot, false)))
  {
    StepSized(s, Respond(slot, false));
    CloseInOrder(s.clients[slot], Sent(s, slot));
    forall i | i in s.pending - multiset{slot} ensures i < s.num - 1 && (s.pending - multiset{slot})[i] == 1 {
      assert i in s.pending;
    }
  }

  lemma FailedBad(s: State, slot: nat)
    requires Good(s) && Enabled(s, Respond(slot, false)) && !Contained(s, Respond(slot, false))
    ensures !Good(Next(s, Respond(slot, false)))
  {
    var n, last := Next(s, Respond(slot, false)), s.num - 1;
    assert n.clients[last] == s.clients[last] && n.num <= last;
    if last in s.pending { assert last in n.pending; }
  }

  /** A response keeps order exactly if it is contained. */
  lemma RespondGood(s: State, e: Event)
    requires Good(s) && Enabled(s, e) && e.Respond?
    ensures Good(Next(s, e)) <==> Contained(s, e)
  {
    if e.made { MadeGood(s, e.slot); }
    else if Contained(s, e) { FailedGood(s, e.slot); }
    else { FailedBad(s, e.slot); }
  }

  lemma StepGood(s: State, e: Event)
    requires Good(s) && Enabled(s, e)
    ensures Good(Next(s, e)) <==> Contained(s, e)
  {
    if e.Add? { AddGood(s, e); }
    else if e.Respond? { RespondGood(s, e); }
    else if e.Send? { SendGood(s, e); }
    else { CallbackGood(s, e); }
  }

  /** Whatever overlaps and whatever partial writes, interruptions and failures occur: at every point
      of a run no two connections share a slot, and every client has read, in order and without gaps,
      what was broadcast since it joined, up to what its pipe still holds (a client given up has read
      a prefix of it), if and only if every step of the run was contained. */
  lemma {:induction false} Ordered(es: seq<Event>)
    requires Run(es).Some?
    ensures RunContained(es) ==> Good(Run(es).value)
    ensures RunContained(es) <==> forall n :: 0 <= n <= |es| ==> GoodAt(es, n)
  {
    if es == [] {
      assert forall n :: 0 <= n <= 0 ==> es[..n] == es;
    } else {
      var front := es[..|es| - 1];
      Ordered(front);
      forall n | 0 <= n < |es| ensures GoodAt(es, n) <==> GoodAt(front, n) { assert front[..n] == es[..n]; }
      assert es[..|es|] == es && front[..|front|] == front;
      assert GoodAt(front, |front|) <==> Good(Run(front).value);
      if Good(Run(front).value) { StepGood(Run(front).value, es[|es| - 1]); }
      assert GoodAt(es, |es|) <==> Good(Run(es).value);
    }
  }

  predicate GoodAt(es: seq<Event>, n: nat)
    requires n <= |es|
  {
    Run(es[..n]).Some? && Good(Run(es[..n]).value)
  }

  /** Any two active clients see the same events in the same order from when both are there. */
  lemma SameOrder(es: seq<Event>, i: nat, j: nat)
    requires Run(es).Some? && RunContained(es) && i < MAX_CLIENTS && j < MAX_CLIENTS
    ensures Sized(Run(es).value) && Sole(Run(es).value)
    ensures var s := Run(es).value;
            s.clients[i].active && s.clients[j].active && s.since[i] <= s.since[j] ==>
              s.clients[i].got + s.clients[i].pipe
              == Stream(s.history[s.since[i]..s.since[j]]) + (s.clients[j].got + s.clients[j].pipe)
  {
    Ordered(es);
    var s := Run(es).value;
    if s.since[i] <= s.since[j] { StreamFrom(s.history, s.since[i], s.since[j]); }
  }

  lemma StreamFrom(ms: seq<Message>, i: nat, j: nat)
    requires i <= j <= |ms|
    ensures Stream(ms[i..]) == Stream(ms[i..j]) + Stream(ms[j..])
  {
    assert ms[i..] == ms[i..j] + ms[j..];
    StreamConcat(ms[i..j], ms[j..]);
  }

  lemma {:induction false} StreamConcat(a: seq<Message>, b: seq<Message>)
    ensures Stream(a + b) == Stream(a) + Stream(b)
  {
    if b == [] {
      assert a + b == a;
    } else {
      var front, m := b[..|b| - 1], b[|b| - 1];
      assert b == front + [m] && a + b == (a + front) + [m];
      StreamConcat(a, front);
      StreamSnoc(a + front, m);
      StreamSnoc(front, m);
      Regroup(Stream(a), Stream(front), Frame(m.event, m.data));
    }
  }

  lemma StreamSnoc(ms: seq<Message>, m: Message)
    ensures Stream(ms + [m]) == Stream(ms) + Frame(m.event, m.data)
  {
    assert (ms + [m])[..|ms|] == ms;
  }

  lemma Regroup(a: string, b: string, c: string)
    ensures a + (b + c) == a + b + c
  {
  }

  // ---- steps that are not contained ---------------------------------------

  /** The client in a slot behind those in use gets nothing more: what it has and will have is a
      prefix of what it had, until a new subscription takes the slot. */
  lemma {:induction false} OutOfReach(s: State, es: seq<Event>, i: nat)
    requires Sized(s) && RunFrom(Step, s, es).Some? && s.num <= i < MAX_CLIENTS
    requires forall e :: e in es ==> !e.Add?
    ensures var t := RunFrom(Step, s, es).value;
            && Sized(t) && t.num <= i
            && t.clients[i].got + t.clients[i].pipe <= s.clients[i].got + s.clients[i].pipe
  {
    if es != [] {
      var front, e := es[..|es| - 1], es[|es| - 1];
      assert e in es;
      OutOfReach(s, front, i);
      StepOutOfReach(RunFrom(Step, s, front).value, e, i);
    }
  }

  lemma StepOutOfReach(s: State, e: Event, i: nat)
    requires Enabled(s, e) && !e.Add? && s.num <= i < MAX_CLIENTS
    ensures var t := Next(s, e);
            Sized(t) && t.num <= i && t.clients[i].got + t.clients[i].pipe <= s.clients[i].got + s.clients[i].pipe
  {
    StepSized(s, e);
    var c := s.clients[i];
    assert c.got + "" == c.got <= c.got + c.pipe;
    if e.Read? && e.slot == i { assert Drain(c, e.max).got + Drain(c, e.max).pipe == c.got + c.pipe; }
  }

  /** Whenever the response of another slot fails while the client of the last one is active, that
      client stays active and misses every frame broadcast from then on. */
  lemma OverlapLosesClient(s: State, slot: nat, event: string, data: string, scripts: nat -> seq<Outcome>)
    requires Good(s) && slot in s.pending && slot != s.num - 1 && s.clients[s.num - 1].active
    requires |Frame(event, data)| < BUF_SIZE
    ensures Enabled(s, Respond(slot, false)) && Enabled(Next(s, Respond(slot, false)), Send(event, data, scripts))
    ensures var last := s.num - 1;
            var u := Next(Next(s, Respond(slot, false)), Send(event, data, scripts));
            && u.num <= last && u.clients[last] == s.clients[last] && u.clients[last].active
            && u.history == s.history + [Message(event, data)] && !InOrder(u.clients[last], Sent(u, last))
  {
    var last, t := s.num - 1, Next(s, Respond(slot, false));
    StepSized(s, Respond(slot, false));
    assert t.num <= last && t.clients[last] == s.clients[last] && t.history == s.history && t.since == s.since;
    MissedBehind(t, last, event, data, scripts);
    AnotherMissed(s.clients[last], Sent(s, last), Message(event, data));
  }

  /** A broadcast passes by the slots behind those in use. */
  lemma MissedBehind(s: State, i: nat, event: string, data: string, scripts: nat -> seq<Outcome>)
    requires Sized(s) && s.num <= i < MAX_CLIENTS && |Frame(event, data)| < BUF_SIZE
    ensures var u := Next(s, Send(event, data, scripts));
            && u.clients[i] == s.clients[i] && u.num == s.num && u.history == s.history + [Message(event, data)]
            && Sized(u) && Sent(u, i) == Sent(s, i) + [Message(event, data)]
  {
    StepSized(s, Send(event, data, scripts));
  }

  /** An active client in order is not when one more message has been broadcast. */
  lemma AnotherMissed(c: Client, sent: seq<Message>, m: Message)
    requires InOrder(c, sent) && c.active
    ensures !InOrder(c, sent + [m])
  {
    assert (sent + [m])[..|sent|] == sent;
    assert |Frame(m.event, m.data)| > 0;
  }

  /** Such a state is reached: two subscriptions begin before either response is made. */
  lemma OverlapHappens() returns (es: seq<Event>, s: State)
    ensures Run(es) == Some(s) && Good(s) && s.pending == multiset{0, 1} && s.live == multiset{} && s.num == 2
    ensures s.clients[1] == NEW_CLIENT
  {
    var e, s0 := Add(true), Init();
    var s1 := Next(s0, e);
    Added(s0);
    es := Extend(Step, s0, [], s0, e, s1);
    s := Next(s1, e);
    Added(s1);
    es := Extend(Step, s0, es, s1, e, s);
    assert s.pending == multiset{0, 1};
  }

  lemma Added(s: State)
    requires Good(s) && s.num < MAX_CLIENTS && s.live == multiset{}
    ensures Enabled(s, Add(true))
    ensures var n := Next(s, Add(true));
            && Good(n) && n.num == s.num + 1 && n.pending == s.pending + multiset{s.num} && n.live == multiset{}
            && n.clients[s.num] == NEW_CLIENT
  {
    AddGood(s, Add(true));
  }

  /** Whenever a subscription is given a slot whose previous connection has not been closed, that
      connection can read what is broadcast to the new client before the new one may read at all ... */
  lemma OldConnectionReads(s: State, event: string, data: string, scripts: nat -> seq<Outcome>)
    requires Good(s) && s.num < MAX_CLIENTS && s.num in s.live && scripts(s.num) == []
    requires |Frame(event, data)| < BUF_SIZE
    ensures Enabled(s, Add(true)) && Enabled(Next(s, Add(true)), Send(event, data, scripts))
    ensures var i, frame := s.num, Frame(event, data);
            var u := Next(Next(s, Add(true)), Send(event, data, scripts));
            && i in u.pending && u.live == s.live && u.clients[i] == NEW_CLIENT.(pipe := frame)
            && Enabled(u, Read(i, |frame|)) && Next(u, Read(i, |frame|)).clients[i] == NEW_CLIENT.(got := frame)
  {
    var n, frame := Next(s, Add(true)), Frame(event, data);
    StepSized(s, Add(true));
    StepSized(n, Send(event, data, scripts));
    Unread(frame);
  }

  lemma Unread(frame: string)
    ensures Receive(NEW_CLIENT, frame, []) == NEW_CLIENT.(pipe := frame)
    ensures Drain(NEW_CLIENT.(pipe := frame), |frame|) == NEW_CLIENT.(got := frame)
  {
    assert "" + frame[..|frame|] == frame && frame[|frame|..] == "";
  }

  /** ... and shuts the new client when it is closed itself: the new connection is there but misses
      every frame from then on. */
  lemma OldConnectionCloses(s: State, event: string, data: string, scripts: nat -> seq<Outcome>)
    requires Good(s) && s.num < MAX_CLIENTS && s.num in s.live && |Frame(event, data)| < BUF_SIZE
    ensures Enabled(s, Add(true)) && Enabled(Next(s, Add(true)), Respond(s.num, true))
    ensures var i := s.num;
            var t := Next(Next(s, Add(true)), Respond(i, true));
            && t.clients[i].active && t.live[i] == 2 && Enabled(t, Free(i))
            && var u := Next(t, Free(i));
               && u.live[i] == 1 && i < u.num && !u.clients[i].active && Enabled(u, Send(event, data, scripts))
               && Next(u, Send(event, data, scripts)).clients[i] == u.clients[i]
  {
    StepSized(s, Add(true));
    var n := Next(s, Add(true));
    StepSized(n, Respond(s.num, true));
    StepSized(Next(n, Respond(s.num, true)), Free(s.num));
  }

  /** Such a state is reached as well: a client is given up, and before its connection is closed the
      response of an earlier slot fails. */
  lemma SharingHappens(event: string, data: string) returns (es: seq<Event>, s: State)
    requires |Frame(event, data)| < BUF_SIZE
    ensures Run(es) == Some(s) && Good(s) && s.num == 1 && s.live == multiset{1} && !s.clients[1].active
  {
    var s2;
    es, s2 := OverlapHappens();
    var e3, e5 := Respond(1, true), Respond(0, false);
    var e4 := Send(event, data, (i: nat) => if i == 1 then [Broken] else []);
    var s3 := Next(s2, e3);
    SecondAnswered(s2);
    var s4 := Next(s3, e4);
    SendGood(s3, e4);
    GivenUp(s3, event, data, e4.scripts);
    s := Next(s4, e5);
    FirstFails(s4);
    es := Extend(Step, Init(), es, s2, e3, s3);
    es := Extend(Step, Init(), es, s3, e4, s4);
    es := Extend(Step, Init(), es, s4, e5, s);
  }

  lemma SecondAnswered(s: State)
    requires Good(s) && s.pending == multiset{0, 1} && s.live == multiset{} && s.num == 2
    ensures Enabled(s, Respond(1, true)) && Good(Next(s, Respond(1, true)))
    ensures var n := Next(s, Respond(1, true));
            n.pending == multiset{0} && n.live == multiset{1} && n.num == 2 && n.clients == s.clients
  {
    MadeGood(s, 1);
  }

  lemma FirstFails(s: State)
    requires Good(s) && s.pending == multiset{0} && s.live == multiset{1} && s.num == 2 && !s.clients[1].active
    ensures Enabled(s, Respond(0, false)) && Good(Next(s, Respond(0, false)))
    ensures var n := Next(s, Respond(0, false));
            n.live == multiset{1} && n.num == 1 && !n.clients[1].active
  {
    FailedGood(s, 0);
  }

  lemma GivenUp(s: State, event: string, data: string, scripts: nat -> seq<Outcome>)
    requires Good(s) && s.num == 2 && s.clients[1] == NEW_CLIENT && scripts(1) == [Broken]
    requires |Frame(event, data)| < BUF_SIZE
    ensures !Next(s, Send(event, data, scripts)).clients[1].active
  {
    assert Pushed(|Frame(event, data)|, 0, [Broken]) == 0;
  }
}
