/**
 The index-and-assign loops shared by the loaders.  `assign` and `init` are the
 callbacks the loaders are given; here they compute the new Edges value of a node.
 */
module EdgeAssign {
  import opened Wrappers
  import opened Schema
  import opened EagerSpec
  import opened EagerLaws
  import opened QueryGraph

  // Assigning the neighbors one after the other.
  function Fold<E, M>(assign: (E, M) -> E, e: E, ms: seq<M>): E {
    if ms == [] then e else assign(Fold(assign, e, ms[..|ms| - 1]), ms[|ms| - 1])
  }

  lemma FoldSnoc<E, M>(assign: (E, M) -> E, e: E, ms: seq<M>, m: M)
    ensures Fold(assign, e, ms + [m]) == assign(Fold(assign, e, ms), m)
  {
    assert (ms + [m])[..|ms|] == ms;
  }

  ghost predicate DistinctNodes<E>(ns: seq<Node<E>>) {
    forall i, j :: 0 <= i < j < |ns| ==> ns[i] != ns[j]
  }

  lemma HaveKeySnoc<X>(xs: seq<X>, x: X, ks: seq<Option<int>>, k0: Option<int>, k: int)
    requires |xs| == |ks|
    ensures HaveKey(xs + [x], ks + [k0], k) == HaveKey(xs, ks, k) + (if k0 == Some(k) then [x] else [])
  {
    assert Marks(ks + [k0], k) == Marks(ks, k) + [k0 == Some(k)];
    GatherSnoc(xs, x, Marks(ks, k), k0 == Some(k));
  }

  // The bucket of a key: the nodes carrying it, none twice.
  lemma Bucket<E>(ns: seq<Node<E>>, ks: seq<Option<int>>, k: int)
    requires |ns| == |ks| && DistinctNodes(ns)
    ensures DistinctNodes(HaveKey(ns, ks, k))
    ensures forall i :: 0 <= i < |ns| ==> (ns[i] in HaveKey(ns, ks, k) <==> ks[i] == Some(k))
    ensures forall n :: n in HaveKey(ns, ks, k) ==> n in ns
  {
    var marks := Marks(ks, k);
    TruesAscending(marks);
    var at := Trues(marks);
    forall i, j | 0 <= i < j < |at| ensures ns[at[i]] != ns[at[j]] { assert at[i] < at[j]; }
    forall i | 0 <= i < |ns|
      ensures ns[i] in HaveKey(ns, ks, k) <==> ks[i] == Some(k)
    {
      if ks[i] == Some(k) {
        assert marks[i];
        var j :| 0 <= j < |at| && at[j] == i;
        assert HaveKey(ns, ks, k)[j] == ns[i];
      }
      if ns[i] in HaveKey(ns, ks, k) {
        var j :| 0 <= j < |at| && HaveKey(ns, ks, k)[j] == ns[i];
        assert marks[at[j]] && ns[at[j]] == ns[i];
        assert at[j] == i;
      }
    }
  }

  // ---------------------------------------------------------------- to-one loaders

  // ids lists the non-null keys once each, and nodeids holds the nodes of each key.
  ghost predicate KeyIndex<X>(nodes: seq<X>, keys: seq<Option<int>>, ids: seq<int>, nodeids: map<int, seq<X>>) {
    && |nodes| == |keys|
    && ids == Refs(keys)
    && (forall k :: k in nodeids <==> k in ids)
    && (forall k {:trigger HaveKey(nodes, keys, k)} :: k in nodeids ==> nodeids[k] == HaveKey(nodes, keys, k))
  }

  function KeyIndexAdd<X>(nodeids: map<int, seq<X>>, k: int, n: X): map<int, seq<X>> {
    nodeids[k := (if k in nodeids then nodeids[k] else []) + [n]]
  }

  lemma RefsSnoc(keys: seq<Option<int>>, k: Option<int>)
    ensures Refs(keys + [k]) == if k.None? || k.value in Refs(keys) then Refs(keys) else Refs(keys) + [k.value]
  {
    assert (keys + [k])[..|keys|] == keys;
  }

  lemma {:induction false} NoTrues(marks: seq<bool>)
    requires forall i :: 0 <= i < |marks| ==> !marks[i]
    ensures Trues(marks) == []
  {
    if marks != [] { NoTrues(marks[..|marks| - 1]); }
  }

  lemma NoneHave<X>(xs: seq<X>, ks: seq<Option<int>>, k: int)
    requires |xs| == |ks| && k !in Refs(ks)
    ensures HaveKey(xs, ks, k) == []
  {
    forall i | 0 <= i < |ks| ensures !Marks(ks, k)[i] { assert ks[i] in ks; }
    NoTrues(Marks(ks, k));
  }

  lemma KeyIndexStep<X>(
      nodes: seq<X>, keys: seq<Option<int>>, ids: seq<int>, nodeids: map<int, seq<X>>, n: X, key: Option<int>)
    requires KeyIndex(nodes, keys, ids, nodeids)
    ensures KeyIndex(nodes + [n], keys + [key],
                     if key.None? || key.value in nodeids then ids else ids + [key.value],
                     if key.None? then nodeids else KeyIndexAdd(nodeids, key.value, n))
  {
    RefsSnoc(keys, key);
    var now := if key.None? then nodeids else KeyIndexAdd(nodeids, key.value, n);
    forall k | k in now ensures now[k] == HaveKey(nodes + [n], keys + [key], k) {
      HaveKeySnoc(nodes, n, keys, key, k);
      if k !in nodeids {
        NoneHave(nodes, keys, k);
      }
    }
  }

  /** The foreign-key index: the keys to ask for, each once, and the nodes per key. */
  method IndexByKey<X>(nodes: seq<X>, keys: seq<Option<int>>) returns (ids: seq<int>, nodeids: map<int, seq<X>>)
    requires |nodes| == |keys|
    ensures KeyIndex(nodes, keys, ids, nodeids)
  {
    ids, nodeids := [], map[];
    for i := 0 to |nodes|
      invariant KeyIndex(nodes[..i], keys[..i], ids, nodeids)
    {
      KeyIndexStep(nodes[..i], keys[..i], ids, nodeids, nodes[i], keys[i]);
      assert keys[..i + 1] == keys[..i] + [keys[i]] && nodes[..i + 1] == nodes[..i] + [nodes[i]];
      if keys[i].Some? {
        var fk := keys[i].value;
        if fk !in nodeids {
          ids := ids + [fk];
        }
        nodeids := nodeids[fk := (if fk in nodeids then nodeids[fk] else []) + [nodes[i]]];
      }
    }
    assert keys[..|nodes|] == keys && nodes[..|nodes|] == nodes;
  }

  // Assigns one neighbor to every node of a bucket.
  method AssignEach<E, M>(bucket: seq<Node<E>>, m: M, assign: (E, M) -> E)
    requires DistinctNodes(bucket)
    modifies bucket
    ensures forall n :: n in bucket ==> n.edges == assign(old(n.edges), m)
  {
    for i := 0 to |bucket|
      invariant forall j :: 0 <= j < i ==> bucket[j].edges == assign(old(bucket[j].edges), m)
      invariant forall j :: i <= j < |bucket| ==> bucket[j].edges == old(bucket[j].edges)
    {
      bucket[i].edges := assign(bucket[i].edges, m);
    }
  }

  function Somes(ids: seq<int>): (res: seq<Option<int>>)
    ensures |res| == |ids| && forall i :: 0 <= i < |ids| ==> res[i] == Some(ids[i])
  {
    seq(|ids|, i requires 0 <= i < |ids| => Some(ids[i]))
  }

  // The neighbors a node with this foreign key is assigned, in answer order.
  function Received<M>(neighbors: seq<M>, ids: seq<int>, key: Option<int>): seq<M>
    requires |neighbors| == |ids|
  {
    if key.None? then [] else HaveKey(neighbors, Somes(ids), key.value)
  }

  lemma ReceivedSnoc<M>(neighbors: seq<M>, m: M, ids: seq<int>, id: int, key: Option<int>)
    requires |neighbors| == |ids|
    ensures Received(neighbors + [m], ids + [id], key)
         == Received(neighbors, ids, key) + (if key == Some(id) then [m] else [])
  {
    assert Somes(ids + [id]) == Somes(ids) + [Some(id)];
    if key.Some? { HaveKeySnoc(neighbors, m, Somes(ids), Some(id), key.value); }
  }

  lemma FoldReceived<E, M>(assign: (E, M) -> E, e: E, neighbors: seq<M>, m: M, ids: seq<int>, id: int, key: Option<int>)
    requires |neighbors| == |ids|
    ensures Fold(assign, e, Received(neighbors + [m], ids + [id], key))
         == var f := Fold(assign, e, Received(neighbors, ids, key)); if key == Some(id) then assign(f, m) else f
  {
    ReceivedSnoc(neighbors, m, ids, id, key);
    if key == Some(id) {
      FoldSnoc(assign, e, Received(neighbors, ids, key), m);
    } else {
      assert Received(neighbors, ids, key) + [] == Received(neighbors, ids, key);
    }
  }

  // Every node has been assigned what it receives from the first j neighbors.
  ghost predicate AssignedToOne<E, M>(
      nodes: seq<Node<E>>, was: seq<E>, keys: seq<Option<int>>, neighbors: seq<M>, ids: seq<int>, j: nat,
      assign: (E, M) -> E)
    reads nodes
  {
    && |nodes| == |was| == |keys| && j <= |neighbors| == |ids|
    && forall i {:trigger nodes[i]} :: 0 <= i < |nodes| ==>
       nodes[i].edges == Fold(assign, was[i], Received(neighbors[..j], ids[..j], keys[i]))
  }

  lemma PrefixStep<X>(xs: seq<X>, j: nat)
    requires j < |xs|
    ensures xs[..j + 1] == xs[..j] + [xs[j]]
  {
  }

  ghost function EdgesNow<E>(nodes: seq<Node<E>>): (res: seq<E>)
    reads nodes
    ensures |res| == |nodes| && forall i :: 0 <= i < |nodes| ==> res[i] == nodes[i].edges
  {
    seq(|nodes|, i requires 0 <= i < |nodes| reads nodes => nodes[i].edges)
  }

  // One neighbor, assigned to every node of its bucket.
  method AssignBucket<E, M>(
      nodes: seq<Node<E>>, ghost was: seq<E>, ghost keys: seq<Option<int>>, bucket: seq<Node<E>>,
      neighbors: seq<M>, ghost ids: seq<int>, j: nat, assign: (E, M) -> E)
    requires j < |neighbors| == |ids| && DistinctNodes(nodes)
    requires AssignedToOne(nodes, was, keys, neighbors, ids, j, assign)
    requires bucket == HaveKey(nodes, keys, ids[j])
    modifies nodes
    ensures AssignedToOne(nodes, was, keys, neighbors, ids, j + 1, assign)
  {
    Bucket(nodes, keys, ids[j]);
    AssignEach(bucket, neighbors[j], assign);
    forall i | 0 <= i < |nodes|
      ensures nodes[i].edges == Fold(assign, was[i], Received(neighbors[..j + 1], ids[..j + 1], keys[i]))
    {
      PrefixStep(neighbors, j);
      PrefixStep(ids, j);
      FoldReceived(assign, was[i], neighbors[..j], neighbors[j], ids[..j], ids[j], keys[i]);
    }
  }

  ghost predicate AllIn(ids: seq<int>, asked: seq<int>) {
    forall j :: 0 <= j < |ids| ==> ids[j] in asked
  }

  lemma KnownKeys<X>(nodes: seq<X>, keys: seq<Option<int>>, asked: seq<int>, nodeids: map<int, seq<X>>, ids: seq<int>)
    requires KeyIndex(nodes, keys, asked, nodeids)
    ensures AllIn(ids, asked) <==> forall l :: 0 <= l < |ids| ==> ids[l] in nodeids
  {
    forall l | 0 <= l < |ids| ensures ids[l] in nodeids <==> ids[l] in asked {
      var k := ids[l];
      assert k in nodeids <==> k in asked;
    }
  }

  /** The to-one assignment loop.  It stops at a neighbor nobody asked for; otherwise
      every node is assigned exactly the neighbors its key names. */
  method AssignToOne<E, M>(
      nodes: seq<Node<E>>, ghost keys: seq<Option<int>>, ghost asked: seq<int>, nodeids: map<int, seq<Node<E>>>,
      neighbors: seq<M>, ids: seq<int>, assign: (E, M) -> E)
      returns (ok: bool)
    requires |neighbors| == |ids| && DistinctNodes(nodes)
    requires KeyIndex(nodes, keys, asked, nodeids)
    modifies nodes
    ensures ok <==> AllIn(ids, asked)
    ensures ok ==> AssignedToOne(nodes, old(EdgesNow(nodes)), keys, neighbors, ids, |neighbors|, assign)
  {
    ghost var was := EdgesNow(nodes);
    for j := 0 to |neighbors|
      invariant forall l :: 0 <= l < j ==> ids[l] in nodeids
      invariant AssignedToOne(nodes, was, keys, neighbors, ids, j, assign)
    {
      if ids[j] !in nodeids {
        KnownKeys(nodes, keys, asked, nodeids, ids);
        return false;
      }
      assert ids[j] in asked && nodeids[ids[j]] == HaveKey(nodes, keys, ids[j]);
      AssignBucket(nodes, was, keys, nodeids[ids[j]], neighbors, ids, j, assign);
    }
    KnownKeys(nodes, keys, asked, nodeids, ids);
    ok := true;
  }

  // --------------------------------------------------------------- to-many loaders

  // fks lists every ID and nodeids holds the last node of each.
  ghost predicate IDIndex<E>(nodes: seq<Node<E>>, fks: seq<int>, nodeids: map<int, Node<E>>) {
    && fks == Ids(RowsOf(nodes))
    && (forall k :: k in nodeids <==> k in fks)
    && (forall k {:trigger nodeids[k]} :: k in nodeids ==> nodeids[k] == nodes[LastWith(fks, k)])
  }

  lemma LastSnoc(ks: seq<int>, k0: int, k: int)
    ensures LastWith(ks + [k0], k) == if k0 == k then |ks| else LastWith(ks, k)
  {
    assert (ks + [k0])[..|ks|] == ks;
  }

  lemma IDIndexStep<E>(nodes: seq<Node<E>>, fks: seq<int>, nodeids: map<int, Node<E>>, n: Node<E>)
    requires IDIndex(nodes, fks, nodeids)
    ensures var id := KeyOrZero(n.fields, ID);
            IDIndex(nodes + [n], fks + [id], nodeids[id := n])
  {
    var id := KeyOrZero(n.fields, ID);
    assert RowsOf(nodes + [n]) == RowsOf(nodes) + [n.fields];
    IdsSnoc(RowsOf(nodes), n.fields);
    forall k ensures LastWith(fks + [id], k) == if id == k then |fks| else LastWith(fks, k) { LastSnoc(fks, id, k); }
  }

  /** The ID index: the last node of each ID, after every node's edge was initialised. */
  method IndexByID<E>(nodes: seq<Node<E>>, init: E -> E) returns (fks: seq<int>, nodeids: map<int, Node<E>>)
    requires DistinctNodes(nodes)
    modifies nodes
    ensures IDIndex(nodes, fks, nodeids)
    ensures forall i :: 0 <= i < |nodes| ==> nodes[i].edges == init(old(nodes[i].edges))
  {
    fks, nodeids := [], map[];
    for i := 0 to |nodes|
      invariant IDIndex(nodes[..i], fks, nodeids)
      invariant forall l :: 0 <= l < i ==> nodes[l].edges == init(old(nodes[l].edges))
      invariant forall l :: i <= l < |nodes| ==> nodes[l].edges == old(nodes[l].edges)
    {
      IDIndexStep(nodes[..i], fks, nodeids, nodes[i]);
      assert nodes[..i + 1] == nodes[..i] + [nodes[i]];
      fks := fks + [KeyOrZero(nodes[i].fields, ID)];
      nodeids := nodeids[KeyOrZero(nodes[i].fields, ID) := nodes[i]];
      nodes[i].edges := init(nodes[i].edges);
    }
    assert nodes[..|nodes|] == nodes;
  }

  // The neighbors a node with this ID is assigned.
  function Owned<M>(neighbors: seq<M>, fks: seq<Option<int>>, ids: seq<int>, i: nat): seq<M>
    requires |neighbors| == |fks| && i < |ids|
  {
    if IsLast(ids, i) then HaveKey(neighbors, fks, ids[i]) else []
  }

  lemma FoldOwned<E, M>(
      assign: (E, M) -> E, e: E, neighbors: seq<M>, m: M, fks: seq<Option<int>>, fk: int, ids: seq<int>, i: nat)
    requires |neighbors| == |fks| && i < |ids|
    ensures Fold(assign, e, Owned(neighbors + [m], fks + [Some(fk)], ids, i))
         == var f := Fold(assign, e, Owned(neighbors, fks, ids, i)); if i == LastWith(ids, fk) then assign(f, m) else f
  {
    if IsLast(ids, i) {
      HaveKeySnoc(neighbors, m, fks, Some(fk), ids[i]);
      if i == LastWith(ids, fk) {
        FoldSnoc(assign, e, Owned(neighbors, fks, ids, i), m);
      } else {
        assert Owned(neighbors, fks, ids, i) + [] == Owned(neighbors, fks, ids, i);
      }
    }
  }

  lemma SameNode<E>(nodes: seq<Node<E>>, i: nat, at: int)
    requires DistinctNodes(nodes) && i < |nodes| && 0 <= at < |nodes|
    ensures nodes[i] == nodes[at] <==> i == at
  {
  }

  ghost predicate AssignedToMany<E, M>(
      nodes: seq<Node<E>>, was: seq<E>, ids: seq<int>, neighbors: seq<M>, fks: seq<Option<int>>, j: nat,
      assign: (E, M) -> E)
    reads nodes
  {
    && |nodes| == |was| == |ids| && j <= |neighbors| == |fks|
    && forall i {:trigger nodes[i]} :: 0 <= i < |nodes| ==>
       nodes[i].edges == Fold(assign, was[i], Owned(neighbors[..j], fks[..j], ids, i))
  }

  // One neighbor, assigned to the last node carrying its foreign key.
  method AssignOwner<E, M>(
      nodes: seq<Node<E>>, ghost was: seq<E>, ghost ids: seq<int>, node: Node<E>,
      neighbors: seq<M>, ghost fks: seq<Option<int>>, j: nat, assign: (E, M) -> E)
    requires j < |neighbors| == |fks| && DistinctNodes(nodes)
    requires AssignedToMany(nodes, was, ids, neighbors, fks, j, assign)
    requires fks[j].Some? && fks[j].value in ids && node == nodes[LastWith(ids, fks[j].value)]
    modifies nodes
    ensures AssignedToMany(nodes, was, ids, neighbors, fks, j + 1, assign)
  {
    node.edges := assign(node.edges, neighbors[j]);
    forall i | 0 <= i < |nodes|
      ensures nodes[i].edges == Fold(assign, was[i], Owned(neighbors[..j + 1], fks[..j + 1], ids, i))
    {
      PrefixStep(neighbors, j);
      PrefixStep(fks, j);
      FoldOwned(assign, was[i], neighbors[..j], neighbors[j], fks[..j], fks[j].value, ids, i);
      SameNode(nodes, i, LastWith(ids, fks[j].value));
    }
  }

  // The first n foreign keys all name a known node.
  ghost predicate Known(fks: seq<Option<int>>, n: nat, ids: seq<int>) {
    n <= |fks| && forall l :: 0 <= l < n ==> fks[l].Some? && fks[l].value in ids
  }

  lemma KnownStep(fks: seq<Option<int>>, j: nat, ids: seq<int>)
    requires Known(fks, j, ids) && j < |fks| && fks[j].Some? && fks[j].value in ids
    ensures Known(fks, j + 1, ids)
  {
  }

  /** The one-to-many assignment loop.  It stops at a neighbor with a null or unknown
      foreign key; otherwise the last node of each ID gets its neighbors in order. */
  method AssignToMany<E, M>(
      nodes: seq<Node<E>>, ghost ids: seq<int>, nodeids: map<int, Node<E>>,
      neighbors: seq<M>, fks: seq<Option<int>>, assign: (E, M) -> E)
      returns (ok: bool)
    requires |neighbors| == |fks| && DistinctNodes(nodes)
    requires IDIndex(nodes, ids, nodeids)
    modifies nodes
    ensures ok <==> Known(fks, |fks|, ids)
    ensures ok ==> AssignedToMany(nodes, old(EdgesNow(nodes)), ids, neighbors, fks, |neighbors|, assign)
  {
    ghost var was := EdgesNow(nodes);
    for j := 0 to |neighbors|
      invariant Known(fks, j, ids)
      invariant AssignedToMany(nodes, was, ids, neighbors, fks, j, assign)
    {
      if fks[j].None? || fks[j].value !in nodeids {
        return false;
      }
      assert nodeids[fks[j].value] == nodes[LastWith(ids, fks[j].value)];
      KnownStep(fks, j, ids);
      AssignOwner(nodes, was, ids, nodeids[fks[j].value], neighbors, fks, j, assign);
    }
    ok := true;
  }

  lemma AllOwned<E, M>(
      nodes: seq<Node<E>>, was: seq<E>, ids: seq<int>, neighbors: seq<M>, fks: seq<Option<int>>, assign: (E, M) -> E,
      i: nat)
    requires AssignedToMany(nodes, was, ids, neighbors, fks, |neighbors|, assign) && i < |nodes|
    ensures nodes[i].edges == Fold(assign, was[i], Owned(neighbors, fks, ids, i))
  {
    assert neighbors[..|neighbors|] == neighbors && fks[..|fks|] == fks;
  }
}
