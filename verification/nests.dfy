/** Nested structures of values, as `tf.nest` sees them.

    A structure is a leaf or an ordered collection of sub-structures (a list, a
    tuple, or a dict read in key order). A leaf is addressed by its path: the
    child position at each level, from the root down. */
module Nests {
  import opened Wrappers

  datatype Nest<T> = Leaf(value: T) | Node(children: seq<Nest<T>>)

  /** The leaf at `path`, if the path ends at a leaf. */
  function Get<T>(t: Nest<T>, path: seq<nat>): Option<T>
  {
    if |path| == 0 then
      if t.Leaf? then Some(t.value) else None
    else if t.Node? && path[0] < |t.children| then
      Get(t.children[path[0]], path[1..])
    else None
  }

  /** Both structures have the same nesting: leaves in the same places. */
  predicate SameTopology<T, U>(a: Nest<T>, b: Nest<U>)
  {
    match a
    case Leaf(_) => b.Leaf?
    case Node(cs) =>
      b.Node? && |cs| == |b.children|
      && forall i :: 0 <= i < |cs| ==> SameTopology(cs[i], b.children[i])
  }

  /** Structures of the same topology have leaves at the same paths. */
  lemma {:induction false} SameTopologyGet<T, U>(a: Nest<T>, b: Nest<U>, path: seq<nat>)
    requires SameTopology(a, b)
    ensures Get(a, path).Some? <==> Get(b, path).Some?
  {
    if |path| > 0 && a.Node? && path[0] < |a.children| {
      SameTopologyGet(a.children[path[0]], b.children[path[0]], path[1..]);
    }
  }

  /** The structure has at least one leaf. */
  predicate HasLeaf<T>(t: Nest<T>)
  {
    match t
    case Leaf(_) => true
    case Node(cs) => exists i :: 0 <= i < |cs| && HasLeaf(cs[i])
  }

  /** `tf.nest.map_structure(f, t)`: `f` applied to every leaf, the nesting kept. */
  function Map<T, U>(t: Nest<T>, f: T -> U): (r: Nest<U>)
    ensures SameTopology(t, r)
  {
    match t
    case Leaf(v) => Leaf(f(v))
    case Node(cs) => Node(seq(|cs|, i requires 0 <= i < |cs| => Map(cs[i], f)))
  }

  /** The leaf of the mapped structure at a path is `f` of the leaf there. */
  lemma {:induction false} MapGet<T, U>(t: Nest<T>, f: T -> U, path: seq<nat>)
    ensures Get(t, path).None? ==> Get(Map(t, f), path).None?
    ensures Get(t, path).Some? ==> Get(Map(t, f), path) == Some(f(Get(t, path).value))
  {
    if |path| > 0 && t.Node? && path[0] < |t.children| {
      MapGet(t.children[path[0]], f, path[1..]);
    }
  }
}
