/**
 The cluster registry of internal/cluster/registry_crd.go: a map and an order slice that
 together act as one insertion-ordered dictionary without duplicate keys.
 */
module Registry {
  import opened Wrappers
  import opened Indices

  /** A registered cluster.  `client` is the identity of the client object it was built with. */
  datatype Entry = Entry(
    name: string,
    displayName: string,
    region: string,
    environment: string,
    fluxNamespace: string,
    client: nat,
    generation: int,
    builtAt: int)

  // ---------- the ordered dictionary ----------

  /** Keys with their values, oldest insertion first. */
  type Dict = seq<(string, Entry)>

  function Keys(d: Dict): set<string> {
    if d == [] then {} else {d[0].0} + Keys(d[1..])
  }

  ghost predicate Distinct(d: Dict) {
    d == [] || (d[0].0 !in Keys(d[1..]) && Distinct(d[1..]))
  }

  function Values(d: Dict): seq<Entry> {
    seq(|d|, i requires 0 <= i < |d| => d[i].1)
  }

  function Lookup(d: Dict, name: string): Option<Entry> {
    if d == [] then None
    else if d[0].0 == name then Some(d[0].1)
    else Lookup(d[1..], name)
  }

  /** Replaces the value in place when the key is there, and appends a new pair when it is not. */
  function Put(d: Dict, name: string, e: Entry): Dict {
    if d == [] then [(name, e)]
    else if d[0].0 == name then [(name, e)] + d[1..]
    else [d[0]] + Put(d[1..], name, e)
  }

  function Remove(d: Dict, name: string): Dict {
    if d == [] then []
    else if d[0].0 == name then d[1..]
    else [d[0]] + Remove(d[1..], name)
  }

  lemma {:induction false} LookupFinds(d: Dict, name: string)
    ensures Lookup(d, name).Some? <==> name in Keys(d)
  {
    if d != [] {
      LookupFinds(d[1..], name);
    }
  }

  /** Put is a dictionary update: one key changes, the others keep their values and their order. */
  lemma {:induction false} PutUpdates(d: Dict, name: string, e: Entry)
    requires Distinct(d)
    ensures Distinct(Put(d, name, e))
    ensures Keys(Put(d, name, e)) == Keys(d) + {name}
    ensures Lookup(Put(d, name, e), name) == Some(e)
    ensures forall m :: m != name ==> Lookup(Put(d, name, e), m) == Lookup(d, m)
    ensures Remove(Put(d, name, e), name) == Remove(d, name)
  {
    if d != [] {
      PutUpdates(d[1..], name, e);
    }
  }

  /** A new key goes to the end; a known one keeps its place. */
  lemma {:induction false} PutKeepsPlaces(d: Dict, name: string, e: Entry)
    ensures name !in Keys(d) ==> Put(d, name, e) == d + [(name, e)]
    ensures name in Keys(d) ==>
              |Put(d, name, e)| == |d| && forall i | 0 <= i < |d| :: Put(d, name, e)[i].0 == d[i].0
  {
    if d != [] {
      PutKeepsPlaces(d[1..], name, e);
      assert d == [d[0]] + d[1..];
    }
  }

  /** The others close up in order. */
  lemma {:induction false} RemoveClosesUp(d: Dict, name: string) returns (i: nat)
    requires name in Keys(d)
    ensures i < |d| && d[i].0 == name && Remove(d, name) == d[..i] + d[i + 1..]
  {
    if d[0].0 == name {
      i := 0;
    } else {
      i := RemoveClosesUp(d[1..], name);
      i := i + 1;
      assert d == [d[0]] + d[1..];
    }
  }

  /** Remove takes one key away and leaves the others, with their values and their order. */
  lemma {:induction false} RemoveUpdates(d: Dict, name: string)
    requires Distinct(d)
    ensures Distinct(Remove(d, name))
    ensures Keys(Remove(d, name)) == Keys(d) - {name}
    ensures Lookup(Remove(d, name), name) == None
    ensures forall m :: m != name ==> Lookup(Remove(d, name), m) == Lookup(d, m)
    ensures Remove(Remove(d, name), name) == Remove(d, name)
  {
    if d != [] {
      RemoveUpdates(d[1..], name);
      LookupFinds(d[1..], name);
      if d[0].0 == name {
        RemoveAbsent(d[1..], name);
      }
    }
  }

  lemma {:induction false} RemoveAbsent(d: Dict, name: string)
    requires name !in Keys(d)
    ensures Remove(d, name) == d
  {
    if d != [] {
      RemoveAbsent(d[1..], name);
    }
  }

  // ---------- the map and the order slice as a dictionary ----------

  /** The pairs of `entries` in the order of `order`. */
  function Zip(order: seq<string>, entries: map<string, Entry>): Dict
    requires forall name :: name in order ==> name in entries
  {
    if order == [] then [] else [(order[0], entries[order[0]])] + Zip(order[1..], entries)
  }

  lemma {:induction false} ZipShape(order: seq<string>, entries: map<string, Entry>)
    requires forall name :: name in order ==> name in entries
    ensures |Zip(order, entries)| == |order|
    ensures forall i | 0 <= i < |order| :: Zip(order, entries)[i] == (order[i], entries[order[i]])
    ensures Keys(Zip(order, entries)) == set name | name in order
    ensures NoRepeats(order) ==> Distinct(Zip(order, entries))
  {
    if order != [] {
      ZipShape(order[1..], entries);
    }
  }

  lemma {:induction false} ZipLookup(order: seq<string>, entries: map<string, Entry>, name: string)
    requires forall n :: n in order ==> n in entries
    ensures Lookup(Zip(order, entries), name) == if name in order then Some(entries[name]) else None
  {
    if order != [] {
      ZipLookup(order[1..], entries, name);
    }
  }

  lemma {:induction false} ZipPut(order: seq<string>, entries: map<string, Entry>, name: string, e: Entry)
    requires NoRepeats(order) && forall n :: n in order ==> n in entries
    ensures forall n :: n in order + [name] ==> n in entries[name := e]
    ensures Put(Zip(order, entries), name, e) ==
            Zip(if name in order then order else order + [name], entries[name := e])
  {
    if order != [] {
      ZipPut(order[1..], entries, name, e);
      assert name != order[0] ==> (order + [name])[1..] == order[1..] + [name];
      if order[0] == name {
        ZipSame(order[1..], entries, entries[name := e]);
      }
    }
  }

  lemma {:induction false} ZipRemove(order: seq<string>, entries: map<string, Entry>, i: nat)
    requires NoRepeats(order) && i < |order| && forall n :: n in order ==> n in entries
    ensures Remove(Zip(order, entries), order[i]) == Zip(order[..i] + order[i + 1..], entries)
  {
    if i == 0 {
      assert order[..0] + order[1..] == order[1..];
    } else {
      ZipRemove(order[1..], entries, i - 1);
      var cut := order[..i] + order[i + 1..];
      assert cut[1..] == order[1..][..i - 1] + order[1..][i..];
    }
  }

  lemma {:induction false} ZipSame(order: seq<string>, m1: map<string, Entry>, m2: map<string, Entry>)
    requires forall n :: n in order ==> n in m1 && n in m2 && m1[n] == m2[n]
    ensures Zip(order, m1) == Zip(order, m2)
  {
    if order != [] {
      ZipSame(order[1..], m1, m2);
    }
  }

  lemma {:induction false} CutElements(order: seq<string>, i: nat)
    requires NoRepeats(order) && i < |order|
    ensures NoRepeats(order[..i] + order[i + 1..])
    ensures forall n :: n in order[..i] + order[i + 1..] <==> n in order && n != order[i]
  {
    assert order == order[..i] + [order[i]] + order[i + 1..];
  }

  // ---------- the registry object ----------

  class CRDRegistry {
    var entries: map<string, Entry>
    var order: seq<string>

    ghost predicate Valid()
      reads this
    {
      && NoRepeats(order)
      && (forall name :: name in order <==> name in entries)
    }

    /** What the registry holds, as one ordered dictionary. */
    ghost function Contents(): (d: Dict)
      reads this
      requires Valid()
      ensures Distinct(d) && Keys(d) == entries.Keys
    {
      ZipShape(order, entries);
      Zip(order, entries)
    }

    constructor ()
      ensures Valid() && Contents() == []
    {
      entries, order := map[], [];
    }

    method List() returns (out: seq<Entry>)
      requires Valid()
      ensures out == Values(Contents())
    {
      ghost var d := Contents();
      ZipShape(order, entries);
      out := [];
      for i := 0 to |order|
        invariant |out| == i
        invariant forall k | 0 <= k < i :: out[k] == d[k].1
      {
        assert order[i] in order;
        if order[i] in entries {
          out := out + [entries[order[i]]];
        }
      }
    }

    method Get(name: string) returns (e: Option<Entry>)
      requires Valid()
      ensures e == Lookup(Contents(), name)
    {
      ZipLookup(order, entries, name);
      e := if name in entries then Some(entries[name]) else None;
    }

    method Set(name: string, e: Entry)
      requires Valid()
      modifies this
      ensures Valid() && Contents() == Put(old(Contents()), name, e)
    {
      ZipPut(order, entries, name, e);
      if name !in entries {
        order := order + [name];
      }
      entries := entries[name := e];
    }

    method Delete(name: string)
      requires Valid()
      modifies this
      ensures Valid() && Contents() == Remove(old(Contents()), name)
    {
      entries := entries - {name};
      for i := 0 to |order|
        invariant order == old(order) && entries == old(entries) - {name}
        invariant name !in order[..i]
      {
        if order[i] == name {
          ZipRemove(order, old(entries), i);
          CutElements(order, i);
          order := order[..i] + order[i + 1..];
          ZipSame(order, old(entries), entries);
          return;
        }
      }
      RemoveAbsent(old(Contents()), name);
      ZipSame(order, old(entries), entries);
    }
  }
}
