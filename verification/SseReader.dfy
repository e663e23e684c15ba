/** The other end of an event stream: what a reader makes of the bytes it gets, and what exactly
    reaches a pipe when writes come short. */
module SseReader {
  import opened CText
  import opened Sse

  // ---- reading a stream ------------------------------------------------------

  /** The first empty line at or after `i`: two line feeds in a row, or `|s|`. */
  function BlankLine(s: string, i: nat): (r: nat)
    requires i <= |s|
    ensures i <= r <= |s| && (r < |s| ==> r + 1 < |s| && s[r] == '\n' && s[r + 1] == '\n')
    ensures forall j :: i <= j < r && j + 1 < |s| ==> s[j] != '\n' || s[j + 1] != '\n'
    decreases |s| - i
  {
    if i + 1 >= |s| then |s| else if s[i] == '\n' && s[i + 1] == '\n' then i else BlankLine(s, i + 1)
  }

  /** The lines of a text, without the line feeds. */
  function LinesOf(s: string): seq<string> {
    var e := Find(s, '\n');
    if e == |s| then [s] else [s[..e]] + LinesOf(s[e + 1..])
  }

  /** What the first line `name: value` gives as value. */
  function ValueOf(lines: seq<string>, name: string): string {
    if lines == [] then ""
    else if |lines[0]| >= |name| + 2 && lines[0][..|name| + 2] == name + ": " then lines[0][|name| + 2..]
    else ValueOf(lines[1..], name)
  }

  /** The messages that have arrived in full: blocks of lines ended by an empty line. */
  function Received(s: string): seq<Message> {
    var e := BlankLine(s, 0);
    if e == |s| then [] else
      var lines := LinesOf(s[..e]);
      [Message(ValueOf(lines, "event"), ValueOf(lines, "data"))] + Received(s[e + 2..])
  }

  predicate OneLine(m: Message) {
    Lacks(m.event, '\n') && Lacks(m.data, '\n')
  }

  function Body(m: Message): string {
    "event: " + m.event + "\n" + ("data: " + m.data)
  }

  lemma FrameIsBody(m: Message)
    ensures Frame(m.event, m.data) == Body(m) + "\n\n"
  {
    assert "\ndata: " == "\n" + "data: ";
  }

  lemma BodyLines(m: Message)
    requires OneLine(m)
    ensures LinesOf(Body(m)) == ["event: " + m.event, "data: " + m.data]
  {
    var first, second := "event: " + m.event, "data: " + m.data;
    NextLine(first, second);
    assert Find(second, '\n') == |second|;
  }

  lemma NextLine(first: string, rest: string)
    requires Lacks(first, '\n')
    ensures LinesOf(first + "\n" + rest) == [first] + LinesOf(rest)
  {
    var s := first + "\n" + rest;
    assert forall j :: 0 <= j < |first| ==> s[j] == first[j];
    assert s[|first|] == '\n';
    assert Find(s, '\n') == |first|;
    assert s[..|first|] == first && s[|first| + 1..] == rest;
  }

  lemma FieldsRead(m: Message)
    ensures var lines := ["event: " + m.event, "data: " + m.data];
            ValueOf(lines, "event") == m.event && ValueOf(lines, "data") == m.data
  {
    var lines := ["event: " + m.event, "data: " + m.data];
    assert "event" + ": " == "event: " && "data" + ": " == "data: ";
    assert lines[0][..7] == "event: " && lines[0][7..] == m.event;
    assert lines[0][0] == 'e' && "data: "[0] == 'd';
    assert lines[1..] == [lines[1]] && lines[1][..6] == "data: " && lines[1][6..] == m.data;
    if |lines[0]| >= 6 { assert lines[0][..6][0] == 'e'; }
  }

  /** Between its two fields and inside them a frame has no empty line. */
  lemma BodyUnbroken(m: Message, rest: string)
    requires OneLine(m)
    ensures BlankLine(Body(m) + "\n\n" + rest, 0) == |Body(m)|
  {
    var s, k := Body(m) + "\n\n" + rest, 7 + |m.event|;
    assert s == "event: " + m.event + ("\n" + "data: " + m.data + "\n\n" + rest);
    assert forall j :: 0 <= j < 7 ==> s[j] == "event: "[j];
    assert forall j :: 7 <= j < k ==> s[j] == m.event[j - 7];
    assert s[k] == '\n' && s[k + 1] == 'd';
    assert forall j :: k < j < k + 7 ==> s[j] == "data: "[j - k - 1];
    assert forall j :: k + 7 <= j < |Body(m)| ==> s[j] == m.data[j - k - 7];
    assert s[|Body(m)|] == '\n' && s[|Body(m)| + 1] == '\n';
  }

  lemma FirstReceived(m: Message, rest: string)
    requires OneLine(m)
    ensures Received(Frame(m.event, m.data) + rest) == [m] + Received(rest)
  {
    var s := Body(m) + "\n\n" + rest;
    FrameIsBody(m);
    BodyUnbroken(m, rest);
    assert s[..|Body(m)|] == Body(m) && s[|Body(m)| + 2..] == rest;
    BodyLines(m);
    FieldsRead(m);
  }

  /** A broadcast counts unless its frame would fill the buffer of 4096 bytes. */
  lemma SentUnlessTooLong(s: State, event: string, data: string, scripts: nat -> seq<Outcome>)
    requires Sized(s)
    ensures Next(s, Send(event, data, scripts)).history ==
            if |event| + |data| + 16 < 4096 then s.history + [Message(event, data)] else s.history
  {
  }

  lemma StreamFirst(m: Message, rest: seq<Message>)
    ensures Stream([m] + rest) == Frame(m.event, m.data) + Stream(rest)
  {
    StreamConcat([m], rest);
    assert [m][..0] == [] && "" + Frame(m.event, m.data) == Frame(m.event, m.data);
  }

  /** A reader gets back exactly the messages of a stream, if none of them has a line break in it. */
  lemma {:induction false} StreamRead(ms: seq<Message>)
    requires forall m :: m in ms ==> OneLine(m)
    ensures Received(Stream(ms)) == ms
  {
    if ms != [] {
      assert ms == [ms[0]] + ms[1..];
      StreamFirst(ms[0], ms[1..]);
      FirstReceived(ms[0], Stream(ms[1..]));
      StreamRead(ms[1..]);
    }
  }

  lemma PartOfFrame(m: Message, p: string)
    requires OneLine(m) && p <= Frame(m.event, m.data) && p != Frame(m.event, m.data)
    ensures Received(p) == []
  {
    FrameIsBody(m);
    BodyUnbroken(m, "");
    var s := Body(m) + "\n\n" + "";
    assert forall j :: 0 <= j < |p| ==> p[j] == s[j];
    var e := BlankLine(p, 0);
  }

  /** And from a part of the stream the first of them. */
  lemma {:induction false} PrefixRead(ms: seq<Message>, p: string)
    requires (forall m :: m in ms ==> OneLine(m)) && p <= Stream(ms)
    ensures Received(p) <= ms
  {
    if ms != [] {
      var m, rest := ms[0], ms[1..];
      var frame := Frame(m.event, m.data);
      assert ms == [m] + rest;
      StreamFirst(m, rest);
      if |p| >= |frame| {
        var q := p[|frame|..];
        assert p == frame + q && q <= Stream(rest) by { assert p[..|frame|] == frame; }
        FirstReceived(m, q);
        PrefixRead(rest, q);
      } else {
        PartOfFrame(m, p);
      }
    }
  }

  /** In every run whose steps are contained, if no message has a line break: what an active client has
      read and has in its pipe are exactly the messages broadcast since it joined; what any client has
      read so far are the first of them. */
  lemma ClientsRead(es: seq<Event>, i: nat)
    requires Run(es).Some? && RunContained(es)
    requires forall m :: m in Run(es).value.history ==> OneLine(m)
    ensures var s := Run(es).value;
            Sized(s) && (i < s.num ==>
              && Received(s.clients[i].got) <= Sent(s, i)
              && (s.clients[i].active ==> Received(s.clients[i].got + s.clients[i].pipe) == Sent(s, i)))
  {
    var s := Run(es).value;
    Ordered(es);
    if i < s.num {
      var sent, c := Sent(s, i), s.clients[i];
      assert forall m :: m in sent ==> m in s.history;
      assert c.got <= c.got + c.pipe <= Stream(sent);
      PrefixRead(sent, c.got);
      StreamRead(sent);
    }
  }

  // ---- partial writes ----------------------------------------------------------

  /** The bytes a script of writes would take; a write takes at least one. */
  function Taken(script: seq<Outcome>): nat {
    if script == [] then 0 else
      (match script[0]
       case Wrote(n) => if n > 1 then n else 1
       case _ => 0) + Taken(script[1..])
  }

  predicate NeverBroken(script: seq<Outcome>) {
    forall i :: 0 <= i < |script| ==> script[i] != Broken
  }

  lemma {:induction false} PushedBefore(len: nat, sent: nat, script: seq<Outcome>, rest: seq<Outcome>)
    requires sent <= len && NeverBroken(script)
    ensures Pushed(len, sent, script) == len
    ensures Pushed(len, sent, script + [Broken] + rest) ==
            if sent + Taken(script) < len then sent + Taken(script) else len
    decreases |script|
  {
    var all := script + [Broken] + rest;
    if script != [] && sent < len {
      var tail := script[1..];
      assert all[0] == script[0] && all[1..] == tail + [Broken] + rest;
      match script[0]
      case Interrupted => PushedBefore(len, sent, tail, rest);
      case Wrote(n) => PushedBefore(len, sent + Took(n, len - sent), tail, rest);
    } else if sent < len {
      assert all[0] == Broken;
    }
  }

  /** An active client gets the whole frame and stays active unless a write fails before all bytes are
      taken; then it gets the bytes taken before, and is given up. Interruptions do not matter. */
  lemma FramePushed(c: Client, msg: string, script: seq<Outcome>, rest: seq<Outcome>)
    requires c.active && c.open && NeverBroken(script)
    ensures Receive(c, msg, script) == c.(pipe := c.pipe + msg)
    ensures var r := Receive(c, msg, script + [Broken] + rest);
            if Taken(script) < |msg| then r == c.(pipe := c.pipe + msg[..Taken(script)], active := false)
            else r == c.(pipe := c.pipe + msg)
  {
    PushedBefore(|msg|, 0, script, rest);
    assert msg[..|msg|] == msg;
  }
}
