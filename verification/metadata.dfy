/**
 gRPC wire metadata: a map from (lower-case) key to the list of values sent
 under that key, in arrival order.
 */
module Metadata {

  type MD = map<string, seq<string>>

  /** The values under `key`; an absent key reads as the empty list, as an
      index into a Go map does. */
  function Lookup(md: MD, key: string): seq<string> {
    if key in md then md[key] else []
  }

  /** The first value under `key`, or `""` when the key is absent or its
      list is empty (first value wins). */
  function FirstValue(md: MD, key: string): string {
    if key in md && |md[key]| != 0 then md[key][0] else ""
  }

  /** The metadata that carries exactly one value per key of `m`. */
  function SingletonLists(m: map<string, string>): (md: MD)
    ensures md.Keys == m.Keys
    ensures forall k :: k in m ==> Lookup(md, k) == [m[k]]
  {
    map k | k in m :: [m[k]]
  }

  /** Append one value under `key`, as `metadata.AppendToOutgoingContext`
      does to the outgoing metadata of a context. */
  function Append(md: MD, key: string, value: string): (r: MD)
    ensures r.Keys == md.Keys + {key}
    ensures Lookup(r, key) == Lookup(md, key) + [value]
    ensures forall k :: k != key ==> Lookup(r, k) == Lookup(md, k)
  {
    md[key := Lookup(md, key) + [value]]
  }

  /** No element of `s` occurs twice. */
  predicate NoDuplicates(s: seq<string>) {
    forall i, j :: 0 <= i < j < |s| ==> s[i] != s[j]
  }

  /** Dropping the head keeps a sequence duplicate-free, and the head does
      not occur again. */
  lemma NoDuplicatesTail(s: seq<string>)
    requires |s| > 0 && NoDuplicates(s)
    ensures NoDuplicates(s[1..])
    ensures s[0] !in s[1..]
  {
  }

  /** `order` lists every key of `keys` exactly once: one possible
      iteration order of a Go map with those keys. */
  predicate Enumerates(order: seq<string>, keys: set<string>) {
    && NoDuplicates(order)
    && (forall k :: k in order ==> k in keys)
    && (forall k :: k in keys ==> k in order)
  }

  /** Append `pairs[k]` under each key `k`, visiting the keys in `order`:
      the `for k, v := range pairs` loop of the client interceptors. */
  function AppendInOrder(md: MD, pairs: map<string, string>, order: seq<string>): (r: MD)
    requires forall k :: k in order ==> k in pairs
    requires NoDuplicates(order)
    ensures forall k :: k in r <==> k in md || k in order
    ensures forall k :: k in order ==> Lookup(r, k) == Lookup(md, k) + [pairs[k]]
    ensures forall k :: k !in order ==> Lookup(r, k) == Lookup(md, k)
    decreases |order|
  {
    if order == [] then md
    else
      NoDuplicatesTail(order);
      AppendInOrder(Append(md, order[0], pairs[order[0]]), pairs, order[1..])
  }
}
