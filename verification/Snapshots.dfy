/** Instances, and the ID-ordered list that the registry hands out for a service. */
module Snapshots {

  datatype Instance = Instance(service: string, id: string, addr: string, metadata: map<string, string>)

  datatype Entry = Entry(ins: Instance, lastRenew: int)

  /** Strict lexicographic order of strings. */
  predicate Less(a: string, b: string) {
    if b == "" then false
    else if a == "" then true
    else a[0] < b[0] || (a[0] == b[0] && Less(a[1..], b[1..]))
  }

  /** The order of strings: at the first place where the two differ, `a` has ended or has the smaller character.
      (Comparing code points gives the order of the UTF-8 bytes.) */
  ghost predicate Precedes(a: string, b: string) {
    exists k | 0 <= k <= |a| && k < |b| :: a[..k] == b[..k] && (k == |a| || a[k] < b[k])
  }

  lemma {:induction false} LessIsStringOrder(a: string, b: string)
    ensures Less(a, b) <==> Precedes(a, b)
  {
    if a != "" && b != "" && a[0] == b[0] {
      LessIsStringOrder(a[1..], b[1..]);
      if Precedes(a[1..], b[1..]) {
        var k :| 0 <= k <= |a| - 1 && k < |b| - 1
                 && a[1..][..k] == b[1..][..k] && (k == |a| - 1 || a[k + 1] < b[k + 1]);
        OneLonger(a, b, k);
      }
      if Precedes(a, b) {
        var k :| 0 <= k <= |a| && k < |b| && a[..k] == b[..k] && (k == |a| || a[k] < b[k]);
        OneShorter(a, b, k);
      }
    } else if a == "" && b != "" {
      assert a[..0] == b[..0];
    } else if a != "" && b != "" {
      assert a[..0] == b[..0];
      forall k | 0 < k <= |a| && k <= |b| ensures a[..k] != b[..k] {
        assert a[..k][0] == a[0] && b[..k][0] == b[0];
      }
    }
  }

  lemma {:induction false} OneLonger(a: string, b: string, k: nat)
    requires a != "" && b != "" && a[0] == b[0] && k < |a| && k < |b| - 1 && a[1..][..k] == b[1..][..k]
    ensures a[..k + 1] == b[..k + 1]
  {
    assert a[..k + 1] == [a[0]] + a[1..][..k] && b[..k + 1] == [b[0]] + b[1..][..k];
  }

  lemma {:induction false} OneShorter(a: string, b: string, k: nat)
    requires a != "" && b != "" && a[0] == b[0] && k <= |a| && k < |b| && a[..k] == b[..k]
    requires k == |a| || a[k] < b[k]
    ensures Precedes(a[1..], b[1..])
  {
    assert a[1..][..k - 1] == a[..k][1..] && b[1..][..k - 1] == b[..k][1..];
  }

  /** Two strings that part after `p`, and a string and its beginning. */
  lemma {:induction false} OrderAfterPrefix(p: string, x: char, y: char, s: string, t: string)
    requires x != y
    ensures Less(p + [x] + s, p + [y] + t) <==> x < y
    ensures Less(p, p + [x] + s) && !Less(p + [x] + s, p)
  {
    if p == "" {
      assert p + [x] + s == [x] + s && p + [y] + t == [y] + t;
    } else {
      assert (p + [x] + s)[1..] == p[1..] + [x] + s && (p + [y] + t)[1..] == p[1..] + [y] + t;
      OrderAfterPrefix(p[1..], x, y, s, t);
    }
  }

  /** Every instance comes after all before it in string order of their IDs. */
  ghost predicate InStringOrder(s: seq<Instance>) {
    forall i, j | 0 <= i < j < |s| :: Precedes(s[i].id, s[j].id)
  }

  lemma {:induction false} SortedInStringOrder(s: seq<Instance>)
    ensures Sorted(s) <==> InStringOrder(s)
  {
    hide Less, Precedes;
    forall i, j | 0 <= i < j < |s| ensures Less(s[i].id, s[j].id) <==> Precedes(s[i].id, s[j].id) {
      LessIsStringOrder(s[i].id, s[j].id);
    }
  }

  lemma {:induction false} LessIsTotal(a: string, b: string)
    ensures Less(a, b) || a == b || Less(b, a)
  {
    if a != "" && b != "" && a[0] == b[0] {
      LessIsTotal(a[1..], b[1..]);
      assert a == [a[0]] + a[1..] && b == [b[0]] + b[1..];
    }
  }

  lemma {:induction false} LessIsStrict(a: string, b: string)
    ensures !(Less(a, b) && Less(b, a)) && !Less(a, a)
  {
    if a != "" {
      LessIsStrict(a[1..], if b == "" then "" else b[1..]);
    }
  }

  lemma {:induction false} LessIsTransitive(a: string, b: string, c: string)
    requires Less(a, b) && Less(b, c)
    ensures Less(a, c)
  {
    if a != "" && a[0] == b[0] == c[0] {
      LessIsTransitive(a[1..], b[1..], c[1..]);
    }
  }

  ghost predicate Sorted(s: seq<Instance>) {
    forall i, j | 0 <= i < j < |s| :: Less(s[i].id, s[j].id)
  }

  /** Entries are filed under their instance's ID. */
  ghost predicate Filed(m: map<string, Entry>) {
    forall id | id in m :: m[id].ins.id == id
  }

  /** `s` lists the instances of `m`, each once, in ID order. */
  ghost predicate IsSnapshot(s: seq<Instance>, m: map<string, Entry>) {
    && Sorted(s)
    && (forall i | 0 <= i < |s| :: s[i].id in m && m[s[i].id].ins == s[i])
    && (forall id | id in m :: m[id].ins in s)
  }

  /** Place an instance into a list sorted by ID. */
  method Insert(s: seq<Instance>, x: Instance) returns (r: seq<Instance>)
    requires Sorted(s) && forall i | 0 <= i < |s| :: s[i].id != x.id
    ensures Sorted(r) && |r| == |s| + 1
    ensures forall y :: y in r <==> y == x || y in s
  {
    hide Less;
    var i := 0;
    while i < |s| && Less(s[i].id, x.id)
      invariant 0 <= i <= |s|
      invariant forall j | 0 <= j < i :: Less(s[j].id, x.id)
    {
      i := i + 1;
    }
    r := s[..i] + [x] + s[i..];
    PlacedInOrder(s, i, x);
  }

  lemma {:induction false} PlacedInOrder(s: seq<Instance>, i: nat, x: Instance)
    requires Sorted(s) && i <= |s| && forall j | 0 <= j < i :: Less(s[j].id, x.id)
    requires i < |s| ==> !Less(s[i].id, x.id) && s[i].id != x.id
    ensures Sorted(s[..i] + [x] + s[i..])
    ensures forall y :: y in s[..i] + [x] + s[i..] <==> y == x || y in s
  {
    hide Less;
    forall j | i <= j < |s| ensures Less(x.id, s[j].id) {
      LessIsTotal(s[i].id, x.id);
      if j > i {
        LessIsTransitive(x.id, s[i].id, s[j].id);
      }
    }
    SameMembers(s, i, x);
  }

  lemma {:induction false} SameMembers(s: seq<Instance>, i: nat, x: Instance)
    requires i <= |s|
    ensures forall y :: y in s[..i] + [x] + s[i..] <==> y == x || y in s
  {
    assert s == s[..i] + s[i..];
  }

  /** The snapshot of a service's entries: collect in whatever order the map yields, sorted by ID. */
  method Collect(m: map<string, Entry>) returns (out: seq<Instance>)
    requires Filed(m)
    ensures IsSnapshot(out, m) && InStringOrder(out)
  {
    out := [];
    var rest := m.Keys;
    while rest != {}
      invariant rest <= m.Keys && Sorted(out)
      invariant forall x | x in out :: x.id in m && x.id !in rest && m[x.id].ins == x
      invariant forall id | id in m && id !in rest :: m[id].ins in out
    {
      hide Less, Sorted;
      var id :| id in rest;
      rest := rest - {id};
      out := Insert(out, m[id].ins);
    }
    SortedInStringOrder(out);
  }

  lemma {:induction false} SnapshotExists(m: map<string, Entry>)
    requires Filed(m)
    ensures exists s :: IsSnapshot(s, m)
    decreases |m.Keys|
  {
    hide IsSnapshot, Less;
    if m.Keys == {} {
      EmptySnapshot(m);
    } else {
      var last := Greatest(m.Keys);
      var rest := m - {last};
      assert m.Keys == rest.Keys + {last};
      SnapshotExists(rest);
      var s :| IsSnapshot(s, rest);
      AppendGreatest(s, m, last);
    }
  }

  lemma {:induction false} EmptySnapshot(m: map<string, Entry>)
    requires m.Keys == {}
    ensures IsSnapshot([], m)
  {}

  lemma {:induction false} AppendGreatest(s: seq<Instance>, m: map<string, Entry>, last: string)
    requires Filed(m) && last in m && IsSnapshot(s, m - {last})
    requires forall x | x in m && x != last :: Less(x, last)
    ensures IsSnapshot(s + [m[last].ins], m)
  {
    hide Less;
    var t := s + [m[last].ins];
    assert t[|s|] == m[last].ins;
    forall id | id in m ensures m[id].ins in t {
      if id != last {
        assert (m - {last})[id].ins in s;
      }
    }
  }

  lemma {:induction false} Greatest(ids: set<string>) returns (g: string)
    requires ids != {}
    ensures g in ids && forall x | x in ids && x != g :: Less(x, g)
    decreases |ids|
  {
    var x :| x in ids;
    if ids == {x} {
      g := x;
    } else {
      assert ids - {x} != {};
      g := Greatest(ids - {x});
      LessIsTotal(x, g);
      if Less(g, x) {
        forall y | y in ids && y != x ensures Less(y, x) {
          if y != g {
            LessIsTransitive(y, g, x);
          }
        }
        g := x;
      }
    }
  }

  /** There is only one: the order in which the map was walked does not show. */
  lemma {:induction false} SnapshotIsUnique(s: seq<Instance>, t: seq<Instance>, m: map<string, Entry>)
    requires Filed(m) && IsSnapshot(s, m) && IsSnapshot(t, m)
    ensures s == t
    decreases |s|
  {
    hide IsSnapshot, Less;
    EmptyTogether(s, t, m);
    if s != [] {
      SameLast(s, t, m);
      DropLast(s, m);
      DropLast(t, m);
      SnapshotIsUnique(s[..|s|-1], t[..|t|-1], m - {s[|s|-1].id});
      assert s == s[..|s|-1] + [s[|s|-1]] && t == t[..|t|-1] + [t[|t|-1]];
    }
  }

  lemma {:induction false} EmptyTogether(s: seq<Instance>, t: seq<Instance>, m: map<string, Entry>)
    requires Filed(m) && IsSnapshot(s, m) && IsSnapshot(t, m)
    ensures s == [] <==> t == []
  {
    if s != [] {
      assert m[s[0].id].ins in t;
    }
    if t != [] {
      assert m[t[0].id].ins in s;
    }
  }

  lemma {:induction false} SameLast(s: seq<Instance>, t: seq<Instance>, m: map<string, Entry>)
    requires Filed(m) && IsSnapshot(s, m) && IsSnapshot(t, m) && s != [] && t != []
    ensures s[|s|-1] == t[|t|-1]
  {
    LastIsGreatest(s, m, t[|t|-1]);
    LastIsGreatest(t, m, s[|s|-1]);
    LessIsStrict(s[|s|-1].id, t[|t|-1].id);
  }

  lemma {:induction false} LastIsGreatest(s: seq<Instance>, m: map<string, Entry>, y: Instance)
    requires Filed(m) && IsSnapshot(s, m) && s != [] && y.id in m && m[y.id].ins == y
    ensures y == s[|s|-1] || Less(y.id, s[|s|-1].id)
  {
    assert m[y.id].ins in s;
  }

  lemma {:induction false} DropLast(s: seq<Instance>, m: map<string, Entry>)
    requires Filed(m) && IsSnapshot(s, m) && s != []
    ensures IsSnapshot(s[..|s|-1], m - {s[|s|-1].id})
  {
    var init, x, rest := s[..|s|-1], s[|s|-1], m - {s[|s|-1].id};
    forall i | 0 <= i < |init| ensures init[i].id in rest {
      LessIsStrict(init[i].id, x.id);
    }
    forall id | id in rest ensures rest[id].ins in init {
      assert m[id].ins in s;
    }
  }

  /** The snapshot of a service's entries. */
  ghost function Snapshot(m: map<string, Entry>): (s: seq<Instance>)
    requires Filed(m)
    ensures IsSnapshot(s, m)
  {
    SnapshotExists(m);
    var s :| IsSnapshot(s, m);
    s
  }

  /** The address column of a list of instances. */
  function Addrs(s: seq<Instance>): (r: seq<string>)
    ensures |r| == |s| && forall i | 0 <= i < |s| :: r[i] == s[i].addr
  {
    seq(|s|, i requires 0 <= i < |s| => s[i].addr)
  }

  /** ID to address, all that a version speaks about. */
  function AddrMap(m: map<string, Entry>): map<string, string> {
    map id | id in m :: m[id].ins.addr
  }

  // ---------------------------------------------------------------- the address list depends on the address map only

  function BareInstance(ins: Instance): Instance {
    Instance("", ins.id, ins.addr, map[])
  }

  function Bare(m: map<string, Entry>): map<string, Entry> {
    map id | id in m :: Entry(BareInstance(m[id].ins), 0)
  }

  function BareList(s: seq<Instance>): (r: seq<Instance>)
    ensures |r| == |s| && forall i | 0 <= i < |s| :: r[i] == BareInstance(s[i])
  {
    seq(|s|, i requires 0 <= i < |s| => BareInstance(s[i]))
  }

  lemma {:induction false} BareSnapshot(s: seq<Instance>, m: map<string, Entry>)
    requires Filed(m) && IsSnapshot(s, m)
    ensures Filed(Bare(m)) && IsSnapshot(BareList(s), Bare(m))
  {
    hide Less;
    forall id | id in m ensures Bare(m)[id].ins in BareList(s) {
      assert m[id].ins in s;
      var i :| 0 <= i < |s| && s[i] == m[id].ins;
      assert BareList(s)[i] == Bare(m)[id].ins;
    }
  }

  /** Equal address maps give equal address lists: order and addresses do not depend on metadata. */
  lemma {:induction false} AddrsFollowAddrMap(m: map<string, Entry>, m': map<string, Entry>)
    requires Filed(m) && Filed(m') && AddrMap(m) == AddrMap(m')
    ensures Addrs(Snapshot(m)) == Addrs(Snapshot(m'))
  {
    hide IsSnapshot, Snapshot, Less;
    SameBare(m, m');
    BareSnapshot(Snapshot(m), m);
    BareSnapshot(Snapshot(m'), m');
    SnapshotIsUnique(BareList(Snapshot(m)), BareList(Snapshot(m')), Bare(m));
    BareAddrs(Snapshot(m));
    BareAddrs(Snapshot(m'));
  }

  lemma {:induction false} BareAddrs(s: seq<Instance>)
    ensures Addrs(BareList(s)) == Addrs(s)
  {}

  lemma {:induction false} SameBare(m: map<string, Entry>, m': map<string, Entry>)
    requires Filed(m) && Filed(m') && AddrMap(m) == AddrMap(m')
    ensures Bare(m) == Bare(m')
  {
    assert m.Keys == AddrMap(m).Keys == AddrMap(m').Keys == m'.Keys;
    forall id | id in m ensures Bare(m)[id] == Bare(m')[id] {
      assert AddrMap(m)[id] == AddrMap(m')[id];
    }
  }
}
