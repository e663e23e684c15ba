/** The list of hosts under save and delete: a finite map from names, in order. */
module HostTable {
  import opened SshHost

  /** The first host called `name`, or `|hs|`. */
  function IndexOf(hs: seq<Host>, name: string, i: nat := 0): (r: nat)
    requires i <= |hs|
    ensures i <= r <= |hs|
    ensures forall j :: i <= j < r ==> hs[j].name != name
    ensures r < |hs| ==> hs[r].name == name
    decreases |hs| - i
  {
    if i == |hs| || hs[i].name == name then i else IndexOf(hs, name, i + 1)
  }

  /** `cm_save_host` on the list: replace the first host of that name, or append. */
  function Save(hs: seq<Host>, h: Host): seq<Host> {
    var i := IndexOf(hs, h.name);
    if i < |hs| then hs[i := h] else hs + [h]
  }

  /** `cm_delete_host` on the list: close the gap behind the first host of that name. */
  function Delete(hs: seq<Host>, name: string): seq<Host> {
    var i := IndexOf(hs, name);
    if i < |hs| then hs[..i] + hs[i + 1..] else hs
  }

  predicate Distinct(hs: seq<Host>) {
    forall i, j :: 0 <= i < j < |hs| ==> hs[i].name != hs[j].name
  }

  /** What a name stands for: its first host. */
  function ToMap(hs: seq<Host>): (m: map<string, Host>)
    ensures forall n :: n in m <==> IndexOf(hs, n) < |hs|
    ensures forall n :: n in m ==> m[n] == hs[IndexOf(hs, n)]
  {
    Names(hs);
    map n | n in NameSet(hs) :: hs[IndexOf(hs, n)]
  }

  function NameSet(hs: seq<Host>): set<string> {
    set i | 0 <= i < |hs| :: hs[i].name
  }

  lemma Names(hs: seq<Host>)
    ensures forall n :: n in NameSet(hs) <==> IndexOf(hs, n) < |hs|
  {
    forall n ensures n in NameSet(hs) <==> IndexOf(hs, n) < |hs| {
      if n in NameSet(hs) {
        var i :| 0 <= i < |hs| && hs[i].name == n;
      }
    }
  }

  /** The hosts with other names, in order. */
  function Others(hs: seq<Host>, name: string): seq<Host> {
    if hs == [] then [] else
      Others(hs[..|hs| - 1], name) + (if hs[|hs| - 1].name == name then [] else [hs[|hs| - 1]])
  }

  lemma {:induction false} OthersConcat(a: seq<Host>, b: seq<Host>, name: string)
    ensures Others(a + b, name) == Others(a, name) + Others(b, name)
  {
    if b == [] {
      assert a + b == a;
    } else {
      assert (a + b)[..|a + b| - 1] == a + b[..|b| - 1];
      OthersConcat(a, b[..|b| - 1], name);
    }
  }

  lemma {:induction false} OthersAll(hs: seq<Host>, name: string)
    requires NoneNamed(hs, name)
    ensures Others(hs, name) == hs
  {
    if hs != [] {
      var front, last := hs[..|hs| - 1], hs[|hs| - 1];
      assert hs == front + [last];
      OthersAll(front, name);
    }
  }

  lemma OthersOne(h: Host, name: string)
    ensures Others([h], name) == if h.name == name then [] else [h]
  {
    assert [h][..0] == [];
  }

  /** A list is what precedes index `i`, the host there, and what follows. */
  lemma OthersAround(hs: seq<Host>, i: nat, name: string)
    requires i < |hs|
    ensures Others(hs, name) == Others(hs[..i], name) + Others([hs[i]], name) + Others(hs[i + 1..], name)
  {
    assert hs == hs[..i] + [hs[i]] + hs[i + 1..];
    OthersConcat(hs[..i], [hs[i]], name);
    OthersConcat(hs[..i] + [hs[i]], hs[i + 1..], name);
  }

  lemma SavedAt(hs: seq<Host>, h: Host, n: string)
    ensures var r := Save(hs, h);
            if n == h.name then IndexOf(r, n) == IndexOf(hs, n) < |r| && r[IndexOf(r, n)] == h
            else (IndexOf(r, n) < |r| <==> IndexOf(hs, n) < |hs|)
                 && (IndexOf(hs, n) < |hs| ==>
                       IndexOf(r, n) == IndexOf(hs, n) && r[IndexOf(r, n)] == hs[IndexOf(hs, n)])
  {
    var i, r := IndexOf(hs, h.name), Save(hs, h);
    var a, b := IndexOf(hs, n), IndexOf(r, n);
    assert forall j :: 0 <= j < |hs| && j != i ==> r[j] == hs[j];
    assert r[i] == h;
  }

  lemma SaveMap(hs: seq<Host>, h: Host)
    ensures ToMap(Save(hs, h)) == ToMap(hs)[h.name := h]
  {
    var m, r := ToMap(hs)[h.name := h], ToMap(Save(hs, h));
    forall n
      ensures n in r <==> n in m
      ensures n in r ==> r[n] == m[n]
    {
      SavedAt(hs, h, n);
    }
  }

  lemma SaveOthers(hs: seq<Host>, h: Host)
    ensures Others(Save(hs, h), h.name) == Others(hs, h.name)
  {
    var i, r := IndexOf(hs, h.name), Save(hs, h);
    OthersOne(h, h.name);
    if i < |hs| {
      OthersAround(hs, i, h.name);
      OthersAround(r, i, h.name);
      OthersOne(hs[i], h.name);
      assert r[..i] == hs[..i] && r[i + 1..] == hs[i + 1..];
    } else {
      OthersConcat(hs, [h], h.name);
    }
  }

  /** Saving is map update; every other host keeps its value and its place among the others. */
  lemma SaveIsUpdate(hs: seq<Host>, h: Host)
    ensures ToMap(Save(hs, h)) == ToMap(hs)[h.name := h]
    ensures Others(Save(hs, h), h.name) == Others(hs, h.name)
    ensures Distinct(hs) ==> Distinct(Save(hs, h))
  {
    SaveMap(hs, h);
    SaveOthers(hs, h);
    var i := IndexOf(hs, h.name);
  }

  /** At most one host is called `name`. */
  predicate Once(hs: seq<Host>, name: string) {
    forall j :: IndexOf(hs, name) < j < |hs| ==> hs[j].name != name
  }

  lemma DeletedAt(hs: seq<Host>, name: string, n: string)
    requires Once(hs, name)
    ensures var r := Delete(hs, name);
            if n == name then IndexOf(r, n) == |r|
            else (IndexOf(r, n) < |r| <==> IndexOf(hs, n) < |hs|)
                 && (IndexOf(hs, n) < |hs| ==> r[IndexOf(r, n)] == hs[IndexOf(hs, n)])
  {
    var i, r := IndexOf(hs, name), Delete(hs, name);
    var a, b := IndexOf(hs, n), IndexOf(r, n);
    if i < |hs| {
      assert forall j :: 0 <= j < |r| ==> r[j] == hs[if j < i then j else j + 1];
      if a < |hs| && a != i {
        assert r[if a < i then a else a - 1] == hs[a];
      }
    }
  }

  lemma DeleteMap(hs: seq<Host>, name: string)
    requires Once(hs, name)
    ensures ToMap(Delete(hs, name)) == ToMap(hs) - {name}
  {
    var r := Delete(hs, name);
    forall n ensures SameEntry(ToMap(r), ToMap(hs) - {name}, n) {
      DeletedAt(hs, name, n);
      EntriesAgree(hs, r, name, n);
    }
    SameEntries(ToMap(r), ToMap(hs) - {name});
  }

  predicate SameEntry(a: map<string, Host>, b: map<string, Host>, n: string) {
    (n in a <==> n in b) && (n in a ==> a[n] == b[n])
  }

  lemma SameEntries(a: map<string, Host>, b: map<string, Host>)
    requires forall n :: SameEntry(a, b, n)
    ensures a == b
  {
    forall n ensures (n in a <==> n in b) && (n in a ==> a[n] == b[n]) { assert SameEntry(a, b, n); }
  }

  lemma EntriesAgree(hs: seq<Host>, r: seq<Host>, name: string, n: string)
    requires n == name ==> IndexOf(r, n) == |r|
    requires n != name ==> (IndexOf(r, n) < |r| <==> IndexOf(hs, n) < |hs|)
    requires n != name && IndexOf(hs, n) < |hs| ==> r[IndexOf(r, n)] == hs[IndexOf(hs, n)]
    ensures SameEntry(ToMap(r), ToMap(hs) - {name}, n)
  {
  }

  predicate NoneNamed(hs: seq<Host>, name: string) {
    forall i :: 0 <= i < |hs| ==> hs[i].name != name
  }

  lemma OthersSnoc(a: seq<Host>, h: Host, name: string)
    requires h.name == name
    ensures Others(a + [h], name) == Others(a, name)
  {
    OthersConcat(a, [h], name);
    OthersOne(h, name);
    assert Others(a, name) + [] == Others(a, name);
  }

  lemma OthersGap(a: seq<Host>, h: Host, b: seq<Host>, name: string)
    requires NoneNamed(a, name) && h.name == name && NoneNamed(b, name)
    ensures Others(a + [h] + b, name) == a + b
  {
    OthersConcat(a + [h], b, name);
    OthersSnoc(a, h, name);
    OthersAll(a, name);
    OthersAll(b, name);
  }

  lemma DeleteOthers(hs: seq<Host>, name: string)
    requires Once(hs, name)
    ensures Delete(hs, name) == Others(hs, name)
  {
    var i := IndexOf(hs, name);
    if i < |hs| {
      assert hs == hs[..i] + [hs[i]] + hs[i + 1..];
      OthersGap(hs[..i], hs[i], hs[i + 1..], name);
    } else {
      OthersAll(hs, name);
    }
  }

  lemma DeleteDistinct(hs: seq<Host>, name: string)
    requires Distinct(hs)
    ensures Distinct(Delete(hs, name)) && Once(hs, name)
  {
    var i, r := IndexOf(hs, name), Delete(hs, name);
    if i < |hs| {
      forall j, k | 0 <= j < k < |r|
        ensures r[j].name != r[k].name
      {
        var a, b := if j < i then j else j + 1, if k < i then k else k + 1;
        assert r[j] == hs[a] && r[k] == hs[b] && a < b;
      }
    }
  }

  lemma NamedAt(r: seq<Host>, k: nat, name: string)
    requires k < |r| && r[k].name == name
    ensures name in ToMap(r)
  {
  }

  lemma StillNamed(hs: seq<Host>, name: string)
    requires !Once(hs, name)
    ensures name in ToMap(Delete(hs, name))
  {
    var i := IndexOf(hs, name);
    var j :| i < j < |hs| && hs[j].name == name;
    var r := hs[..i] + hs[i + 1..];
    assert r[j - 1] == hs[j];
    NamedAt(r, j - 1, name);
  }

  /** Deleting is map removal if and only if the name occurs at most once, as it does in a list of
      distinct names; it then leaves exactly the other hosts, in order. A name that is not there
      changes nothing. */
  lemma DeleteIsRemoval(hs: seq<Host>, name: string)
    ensures ToMap(Delete(hs, name)) == ToMap(hs) - {name} <==> Once(hs, name)
    ensures Once(hs, name) ==> Delete(hs, name) == Others(hs, name)
    ensures Distinct(hs) ==> Once(hs, name) && Distinct(Delete(hs, name))
    ensures name !in ToMap(hs) ==> Delete(hs, name) == hs
  {
    if Distinct(hs) { DeleteDistinct(hs, name); }
    if Once(hs, name) {
      DeleteMap(hs, name);
      DeleteOthers(hs, name);
    } else {
      StillNamed(hs, name);
    }
  }
}
