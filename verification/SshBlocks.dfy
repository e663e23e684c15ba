/** The block structure of a config file, whatever its directives mean: lines before the first
    `Host` are global, every `Host` line opens a block, some blocks are dropped, and the global
    record is merged into each kept one at its end. The batch reading of a whole file is
    `ReadAll`; `Tracks` is the state of a reader that sees one line at a time. */
module SshBlocks {
  import opened CText

  datatype Item = HostLine(value: string) | OtherLine(key: string, value: string)

  /** What the structure is filled with: the record a `Host` line opens (`None` drops the
      block), what a line does to a record, and the merge of the global record. */
  datatype Rules<!H> = Rules(empty: H, open: string -> Maybe<H>, apply: (H, string, string) -> H, merge: (H, H) -> H)

  /** The first `Host` line at or after `i`. */
  function NextHost(ds: seq<Item>, i: nat): (r: nat)
    requires i <= |ds|
    ensures i <= r <= |ds|
    ensures forall j :: i <= j < r ==> ds[j].OtherLine?
    ensures r < |ds| ==> ds[r].HostLine?
    decreases |ds| - i
  {
    if i == |ds| || ds[i].HostLine? then i else NextHost(ds, i + 1)
  }

  predicate NoHost(ds: seq<Item>) {
    forall j :: 0 <= j < |ds| ==> ds[j].OtherLine?
  }

  function Fold<H>(r: Rules<H>, h: H, ds: seq<Item>): H
    requires NoHost(ds)
  {
    if ds == [] then h else
      var d := ds[|ds| - 1];
      r.apply(Fold(r, h, ds[..|ds| - 1]), d.key, d.value)
  }

  /** The records of one block: none or one. */
  function Block<H>(r: Rules<H>, global: H, value: string, body: seq<Item>): seq<H>
    requires NoHost(body)
  {
    match r.open(value)
    case None => []
    case Some(h) => [r.merge(Fold(r, h, body), global)]
  }

  function ReadBlocks<H>(r: Rules<H>, global: H, ds: seq<Item>): seq<H>
    requires ds != [] ==> ds[0].HostLine?
    decreases |ds|
  {
    if ds == [] then [] else
      var e := NextHost(ds, 1);
      Block(r, global, ds[0].value, ds[1..e]) + ReadBlocks(r, global, ds[e..])
  }

  /** The global record: the fold of what precedes the first `Host`. */
  function Global<H>(r: Rules<H>, ds: seq<Item>): H {
    Fold(r, r.empty, ds[..NextHost(ds, 0)])
  }

  function ReadAll<H>(r: Rules<H>, ds: seq<Item>): seq<H> {
    ReadBlocks(r, Global(r, ds), ds[NextHost(ds, 0)..])
  }

  lemma NextHostConcat(a: seq<Item>, b: seq<Item>, i: nat)
    requires i <= |a| && (b != [] ==> b[0].HostLine?)
    ensures NextHost(a + b, i) == NextHost(a, i)
    ensures (a + b)[i..NextHost(a, i)] == a[i..NextHost(a, i)]
    ensures (a + b)[NextHost(a, i)..] == a[NextHost(a, i)..] + b
  {
    var e, f := NextHost(a, i), NextHost(a + b, i);
    assert forall j :: 0 <= j < |a| ==> (a + b)[j] == a[j];
    assert b != [] ==> (a + b)[|a|] == b[0];
    assert f == e;
    assert (a + b)[i..e] == a[i..e];
    assert (a + b)[e..] == a[e..] + b;
  }

  lemma Associative<T>(x: seq<T>, y: seq<T>, z: seq<T>)
    ensures x + (y + z) == (x + y) + z
  {
  }

  /** A file may be cut before any `Host` line and its halves read apart. */
  lemma {:induction false} BlocksConcat<H>(r: Rules<H>, global: H, a: seq<Item>, b: seq<Item>)
    requires a != [] ==> a[0].HostLine?
    requires b != [] ==> b[0].HostLine?
    ensures a + b != [] ==> (a + b)[0].HostLine?
    ensures ReadBlocks(r, global, a + b) == ReadBlocks(r, global, a) + ReadBlocks(r, global, b)
    decreases |a|
  {
    if a == [] {
      assert a + b == b;
    } else {
      var e := NextHost(a, 1);
      NextHostConcat(a, b, 1);
      assert (a + b)[0] == a[0];
      BlocksConcat(r, global, a[e..], b);
      var first := Block(r, global, a[0].value, a[1..e]);
      assert ReadBlocks(r, global, a + b) == first + ReadBlocks(r, global, a[e..] + b);
      Associative(first, ReadBlocks(r, global, a[e..]), ReadBlocks(r, global, b));
    }
  }

  /** A last block without a further `Host` line. */
  lemma LastBlock<H>(r: Rules<H>, global: H, value: string, body: seq<Item>)
    requires NoHost(body)
    ensures ReadBlocks(r, global, [HostLine(value)] + body) == Block(r, global, value, body)
  {
    var ds := [HostLine(value)] + body;
    assert NextHost(ds, 1) == |ds|;
    assert ds[1..|ds|] == body && ds[|ds|..] == [];
  }

  // ---- reading one line at a time --------------------------------------

  /** What a one-pass reader keeps: the records stored so far, the global one, whether the last
      stored record is still open, and whether the current block is dropped. */
  datatype View<H> = View(stored: seq<H>, global: H, isOpen: bool, skip: bool)

  predicate Sane<H>(v: View<H>) {
    v.isOpen ==> v.stored != []
  }

  /** Merge the global record into the open one. */
  function Close<H>(r: Rules<H>, v: View<H>): seq<H>
    requires Sane(v)
  {
    if v.isOpen then v.stored[..|v.stored| - 1] + [r.merge(v.stored[|v.stored| - 1], v.global)] else v.stored
  }

  function Step<H>(r: Rules<H>, v: View<H>, d: Item): (w: View<H>)
    requires Sane(v)
    ensures Sane(w)
  {
    match d
    case HostLine(value) => (
      match r.open(value)
      case None => View(Close(r, v), v.global, false, true)
      case Some(h) => View(Close(r, v) + [h], v.global, true, false))
    case OtherLine(key, value) =>
      if v.skip then v
      else if v.isOpen then
        v.(stored := v.stored[|v.stored| - 1 := r.apply(v.stored[|v.stored| - 1], key, value)])
      else v.(global := r.apply(v.global, key, value))
  }

  function Run<H>(r: Rules<H>, ds: seq<Item>): (v: View<H>)
    ensures Sane(v)
  {
    if ds == [] then View([], r.empty, false, false)
    else Step(r, Run(r, ds[..|ds| - 1]), ds[|ds| - 1])
  }

  lemma RunSnoc<H>(r: Rules<H>, ds: seq<Item>, d: Item)
    ensures Run(r, ds + [d]) == Step(r, Run(r, ds), d)
  {
    assert (ds + [d])[..|ds|] == ds;
  }

  /** The raw record of the block that starts at `start` and ends the file. */
  function OpenRecord<H>(r: Rules<H>, seen: seq<Item>, start: nat): seq<H>
    requires start < |seen| && NoHost(seen[start + 1..])
  {
    match r.open(seen[start].value)
    case None => []
    case Some(h) => [Fold(r, h, seen[start + 1..])]
  }

  /** After the lines `seen`, the last `Host` among them at `start`: the finished blocks are
      stored, and after them the raw record of the open one. */
  ghost predicate Tracks<H>(r: Rules<H>, seen: seq<Item>, start: nat, v: View<H>)
  {
    var first := NextHost(seen, 0);
    && v.global == Global(r, seen)
    && (first == |seen| ==> v.stored == [] && !v.isOpen && !v.skip)
    && (first < |seen| ==>
      && first <= start < |seen| && seen[start].HostLine? && NoHost(seen[start + 1..])
      && v.skip == r.open(seen[start].value).None? && v.isOpen == !v.skip
      && v.stored == ReadBlocks(r, v.global, seen[first..start]) + OpenRecord(r, seen, start))
  }

  lemma TracksClose<H>(r: Rules<H>, seen: seq<Item>, start: nat, v: View<H>)
    requires Tracks(r, seen, start, v)
    ensures Sane(v) && Close(r, v) == ReadAll(r, seen)
  {
    var first := NextHost(seen, 0);
    if first < |seen| {
      var body := seen[start + 1..];
      assert seen[first..] == seen[first..start] + ([seen[start]] + body);
      BlockBehind(r, v.global, seen[first..start], seen[start].value, body);
    }
  }

  lemma BlockBehind<H>(r: Rules<H>, global: H, before: seq<Item>, value: string, body: seq<Item>)
    requires (before != [] ==> before[0].HostLine?) && NoHost(body)
    ensures before + ([HostLine(value)] + body) != [] && (before + ([HostLine(value)] + body))[0].HostLine?
    ensures ReadBlocks(r, global, before + ([HostLine(value)] + body))
         == ReadBlocks(r, global, before) + Block(r, global, value, body)
  {
    BlocksConcat(r, global, before, [HostLine(value)] + body);
    LastBlock(r, global, value, body);
  }

  lemma NextHostSnoc(ds: seq<Item>, d: Item)
    ensures NextHost(ds + [d], 0) ==
            if NextHost(ds, 0) == |ds| && d.OtherLine? then |ds| + 1 else NextHost(ds, 0)
  {
    assert forall j :: 0 <= j < |ds| ==> (ds + [d])[j] == ds[j];
    assert (ds + [d])[|ds|] == d;
    var e, f := NextHost(ds, 0), NextHost(ds + [d], 0);
  }

  lemma TracksHost<H>(r: Rules<H>, seen: seq<Item>, start: nat, v: View<H>, value: string)
    requires Tracks(r, seen, start, v) && Sane(v)
    ensures Tracks(r, seen + [HostLine(value)], |seen|, Step(r, v, HostLine(value)))
  {
    var first := NextHost(seen, 0);
    var now := seen + [HostLine(value)];
    NextHostSnoc(seen, HostLine(value));
    TracksClose(r, seen, start, v);
    assert now[..first] == seen[..first];
    assert now[first..|seen|] == seen[first..];
    assert now[|seen| + 1..] == [];
  }

  lemma TracksOther<H>(r: Rules<H>, seen: seq<Item>, start: nat, v: View<H>, d: Item)
    requires Tracks(r, seen, start, v) && Sane(v) && d.OtherLine?
    ensures Tracks(r, seen + [d], start, Step(r, v, d))
  {
    var first := NextHost(seen, 0);
    var now := seen + [d];
    NextHostSnoc(seen, d);
    if first == |seen| {
      assert now[..|now|] == now && now[..|now| - 1] == seen && seen[..first] == seen;
    } else {
      var body := now[start + 1..];
      assert now[..first] == seen[..first];
      assert now[first..start] == seen[first..start];
      assert body == seen[start + 1..] + [d];
      assert body[..|body| - 1] == seen[start + 1..];
    }
  }

  lemma {:induction false} RunTracks<H>(r: Rules<H>, ds: seq<Item>) returns (start: nat)
    ensures Tracks(r, ds, start, Run(r, ds))
  {
    start := 0;
    if ds != [] {
      var seen, d := ds[..|ds| - 1], ds[|ds| - 1];
      assert ds == seen + [d];
      start := RunTracks(r, seen);
      if d.HostLine? {
        TracksHost(r, seen, start, Run(r, seen), d.value);
        start := |seen|;
      } else {
        TracksOther(r, seen, start, Run(r, seen), d);
      }
    }
  }

  /** One pass with a single open record computes the batch reading, for every file. */
  lemma OnePass<H>(r: Rules<H>, ds: seq<Item>)
    ensures Close(r, Run(r, ds)) == ReadAll(r, ds)
  {
    var start := RunTracks(r, ds);
    TracksClose(r, ds, start, Run(r, ds));
  }
}
