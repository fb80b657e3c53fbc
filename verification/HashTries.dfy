/**
 The heap-allocated trie of hashtrie.py: nodes with a child map and an endpoint
 set, changed in place while an insert walks down.

 The ghost map `nodes` names every reachable node by its path, so the invariant
 is flat: no recursion through the heap. `history` is the plain list of inserts
 the trie stands for, and every lookup is specified against that list alone.
 */
module HashTries {
  import opened Basics
  import opened Trie

  /** The hashes `_chunk_and_hash` yields; the last chunk may be short. */
  function Hashes(request: string, size: int, hash: string -> int): (path: Path)
    requires size >= 1
  {
    if request == [] then []
    else if |request| <= size then [hash(request)]
    else [hash(request[..size])] + Hashes(request[size..], size, hash)
  }

  /** A short last chunk counts in full, so a match may be reported longer than the request. */
  lemma {:induction false} HashesCover(request: string, size: int, hash: string -> int)
    requires size >= 1
    ensures |request| <= |Hashes(request, size, hash)| * size < |request| + size
  {
    if |request| > size {
      HashesCover(request[size..], size, hash);
      var n := |Hashes(request[size..], size, hash)|;
      assert (1 + n) * size == size + n * size;
    }
  }

  /** Requests that agree on their first `d` full chunks of text share `d` hashes, whatever the hash. */
  lemma {:induction false} SameTextSharesHashes(a: string, b: string, d: nat, size: int, hash: string -> int)
    requires size >= 1
    requires d * size <= |a| && d * size <= |b| && a[..d * size] == b[..d * size]
    ensures d <= |Hashes(a, size, hash)| && d <= |Hashes(b, size, hash)|
    ensures Hashes(a, size, hash)[..d] == Hashes(b, size, hash)[..d]
  {
    if d > 0 {
      assert d * size == (d - 1) * size + size && (d - 1) * size >= 0;
      FirstChunk(a, size, hash);
      FirstChunk(b, size, hash);
      assert a[..size] == a[..d * size][..size] == b[..size];
      assert a[size..][..(d - 1) * size] == a[..d * size][size..] == b[size..][..(d - 1) * size];
      SameTextSharesHashes(a[size..], b[size..], d - 1, size, hash);
      var ha, hb := Hashes(a, size, hash), Hashes(b, size, hash);
      assert ha[..d] == [ha[0]] + ha[1..][..d - 1];
      assert hb[..d] == [hb[0]] + hb[1..][..d - 1];
    }
  }

  ghost predicate CollisionFree(hash: string -> int) {
    forall a, b :: hash(a) == hash(b) ==> a == b
  }

  /** `a[:n]` */
  function Cut(a: string, n: nat): string {
    if n <= |a| then a[..n] else a
  }

  /** Without collisions the converse holds too, also for a short last chunk. */
  lemma {:induction false} SameHashesShareText(a: string, b: string, d: nat, size: int, hash: string -> int)
    requires size >= 1 && CollisionFree(hash)
    requires d <= |Hashes(a, size, hash)| && d <= |Hashes(b, size, hash)|
    requires Hashes(a, size, hash)[..d] == Hashes(b, size, hash)[..d]
    ensures d * size >= 0 && Cut(a, d * size) == Cut(b, d * size)
    decreases d
  {
    hide Hashes, Cut, CollisionFree;
    if d == 0 {
      CutNothing(a, b);
    } else {
      var ha, hb := Hashes(a, size, hash), Hashes(b, size, hash);
      HashAndRest(a, size, hash);
      HashAndRest(b, size, hash);
      assert ha[0] == ha[..d][0] == hb[..d][0] == hb[0];
      assert ha[1..][..d - 1] == ha[..d][1..] == hb[..d][1..] == hb[1..][..d - 1];
      SameHashesShareText(Rest(a, size), Rest(b, size), d - 1, size, hash);
      NoCollision(hash, Cut(a, size), Cut(b, size));
      assert d * size == (d - 1) * size + size;
      CutFirst(a, (d - 1) * size, size);
      CutFirst(b, (d - 1) * size, size);
    }
  }

  lemma CutNothing(a: string, b: string)
    ensures Cut(a, 0) == Cut(b, 0)
  {
  }

  function Rest(a: string, size: nat): string {
    if size <= |a| then a[size..] else ""
  }

  lemma NoCollision(hash: string -> int, a: string, b: string)
    requires CollisionFree(hash) && hash(a) == hash(b)
    ensures a == b
  {
  }

  lemma HashAndRest(a: string, size: nat, hash: string -> int)
    requires size >= 1 && Hashes(a, size, hash) != []
    ensures Hashes(a, size, hash)[0] == hash(Cut(a, size))
    ensures Hashes(a, size, hash)[1..] == Hashes(Rest(a, size), size, hash)
  {
    if size <= |a| {
      FirstChunk(a, size, hash);
    }
  }

  lemma CutFirst(a: string, n: nat, size: nat)
    ensures Cut(a, n + size) == Cut(a, size) + Cut(Rest(a, size), n)
  {
    if size <= |a| {
      assert a == a[..size] + a[size..];
    }
  }

  lemma FirstChunk(a: string, size: int, hash: string -> int)
    requires 1 <= size <= |a|
    ensures Hashes(a, size, hash) == [hash(a[..size])] + Hashes(a[size..], size, hash)
  {
    if |a| == size {
      assert a[..size] == a;
    }
  }

  /** Child maps and named nodes agree: following hashes from the root spells out a node's name. */
  ghost predicate Spells(nodes: map<Path, TrieNode>, children: map<Path, map<int, TrieNode>>, root: TrieNode) {
    && [] in nodes && nodes[[]] == root && children.Keys == nodes.Keys
    && (forall p, h :: p in children && h in children[p] ==> Child(p, h) in nodes && children[p][h] == nodes[Child(p, h)])
    && (forall c {:trigger Parent(c)} :: c in nodes && c != [] ==> Parent(c) in nodes && c[|c| - 1] in children[Parent(c)])
  }

  lemma SpellsOneMore(nodes: map<Path, TrieNode>, children: map<Path, map<int, TrieNode>>, root: TrieNode,
                      p: Path, h: int, child: TrieNode)
    requires Spells(nodes, children, root) && p in nodes && Child(p, h) !in nodes
    ensures var c := Child(p, h);
            c != p && p in children && Spells(nodes[c := child], children[c := map[]][p := children[p][h := child]], root)
  {
    var c := Child(p, h);
    var nodes', children' := nodes[c := child], children[c := map[]][p := children[p][h := child]];
    forall q, g | q in children' && g in children'[q]
      ensures Child(q, g) in nodes' && children'[q][g] == nodes'[Child(q, g)]
    {
      assert Child(q, g) == c ==> q == p && g == h;
    }
  }

  class TrieNode {
    var children: map<int, TrieNode>
    var endpoints: set<Url>
    ghost const path: Path

    constructor (ghost path: Path)
      ensures children == map[] && endpoints == {} && this.path == path
    {
      children, endpoints := map[], {};
      this.path := path;
    }
  }

  class HashTrie {
    const root: TrieNode
    const chunkSize: int
    const hash: string -> int

    ghost var nodes: map<Path, TrieNode>
    ghost var kids: map<Path, map<int, TrieNode>>
    ghost var repr: set<TrieNode>
    ghost var view: View
    ghost var history: seq<Entry>

    /** The node named `p` is on the heap as `kids` and `view` have it. */
    ghost predicate Stands(p: Path)
      reads this`nodes, this`repr, this`kids, this`view, repr
    {
      && p in nodes && p in kids && p in view
      && nodes[p] in repr && nodes[p].path == p && nodes[p].children == kids[p] && nodes[p].endpoints == view[p]
    }

    ghost predicate AllStand()
      reads this`nodes, this`repr, this`kids, this`view, repr
    {
      kids.Keys == nodes.Keys && view.Keys == nodes.Keys && forall p :: p in nodes ==> Stands(p)
    }

    /** `nodes` is the reachable part of the heap, and `kids` and `view` what it holds. */
    ghost predicate Linked()
      reads this`nodes, this`repr, this`kids, this`view, repr
    {
      Spells(nodes, kids, root) && AllStand()
    }

    /** The nodes spell out exactly the inserts made so far. */
    ghost predicate Valid()
      reads this, repr
    {
      chunkSize >= 1 && Linked() && view == ViewOf(history)
    }

    ghost function PathOf(request: string): Path
      requires chunkSize >= 1
    {
      Hashes(request, chunkSize, hash)
    }

    constructor (chunkSize: int, hash: string -> int)
      requires chunkSize >= 1
      ensures Valid() && fresh(repr)
      ensures history == [] && this.chunkSize == chunkSize && this.hash == hash
    {
      var node := new TrieNode([]);
      root := node;
      this.chunkSize, this.hash := chunkSize, hash;
      nodes, kids, repr := map[[] := node], map[[] := map[]], {node};
      view, history := EMPTY, [];
    }

    /** Give a new, empty node its name. */
    ghost method Adopt(c: Path, child: TrieNode)
      requires AllStand() && c !in nodes
      requires child.path == c && child.children == map[] && child.endpoints == {}
      modifies this`nodes, this`kids, this`repr, this`view
      ensures AllStand() && nodes == old(nodes)[c := child] && repr == old(repr) + {child}
      ensures kids == old(kids)[c := map[]] && view == old(view)[c := {}]
    {
      nodes, repr, view, kids := nodes[c := child], repr + {child}, view[c := {}], kids[c := map[]];
    }

    /** Hang a node under `node` for `h`. */
    method Hang(ghost p: Path, node: TrieNode, h: int, child: TrieNode)
      requires AllStand() && p in nodes && nodes[p] == node
      modifies this`kids, node`children
      ensures AllStand() && kids == old(kids)[p := old(kids)[p][h := child]]
    {
      assert Stands(p);
      node.children := node.children[h := child];
      kids := kids[p := kids[p][h := child]];
    }

    /** A new, empty child of `node` for `h`. */
    method Attach(ghost p: Path, node: TrieNode, h: int) returns (child: TrieNode)
      requires Linked() && p in nodes && nodes[p] == node && Child(p, h) !in nodes
      modifies this`nodes, this`kids, this`repr, this`view, node`children
      ensures Linked()
      ensures repr == old(repr) + {child} && fresh(child)
      ensures Child(p, h) in nodes && nodes[Child(p, h)] == child
      ensures view == old(view)[Child(p, h) := {}]
    {
      hide Spells, Stands, AllStand, Child;
      ghost var c := Child(p, h);
      child := new TrieNode(c);
      SpellsOneMore(nodes, kids, root, p, h, child);
      Adopt(c, child);
      Hang(p, node, h, child);
    }

    /** The locked section of `insert` that finds the child for `h`, making it if it is missing. */
    method Descend(ghost p: Path, node: TrieNode, h: int) returns (child: TrieNode)
      requires Linked() && p in nodes && nodes[p] == node
      modifies this`nodes, this`kids, this`repr, this`view, node`children
      ensures Linked()
      ensures repr == old(repr) + {child} && (child in old(repr) || fresh(child))
      ensures Child(p, h) in nodes && nodes[Child(p, h)] == child
      ensures view == if Child(p, h) in old(view) then old(view) else old(view)[Child(p, h) := {}]
    {
      assert Child(p, h) in nodes ==> h in node.children;
      if h in node.children {
        child := node.children[h];
      } else {
        child := Attach(p, node, h);
      }
    }

    /** The locked section of `insert` that adds the endpoint to a node. */
    method AddEndpoint(ghost p: Path, node: TrieNode, endpoint: Url)
      requires Linked() && p in nodes && nodes[p] == node
      modifies this`view, node`endpoints
      ensures Linked() && nodes == old(nodes) && repr == old(repr)
      ensures view == old(view)[p := old(view)[p] + {endpoint}]
    {
      hide Spells;
      assert Stands(p);
      node.endpoints := node.endpoints + {endpoint};
      view := view[p := view[p] + {endpoint}];
    }

    /** One turn of the loop of `insert`: down to the child for the next hash, and the endpoint added there. */
    method Extend(ghost path: Path, ghost d: nat, node: TrieNode, h: int, endpoint: Url, ghost start: View)
      returns (child: TrieNode)
      requires Linked() && d < |path| && path[d] == h
      requires path[..d] in nodes && nodes[path[..d]] == node && node in repr
      requires view == Trie.Insert(start, path[..d], endpoint)
      modifies this`nodes, this`kids, this`repr, this`view, repr
      ensures Linked() && old(repr) <= repr
      ensures fresh(repr - old(repr))
      ensures path[..d + 1] in nodes && nodes[path[..d + 1]] == child && child in repr
      ensures view == Trie.Insert(start, path[..d + 1], endpoint)
    {
      hide Linked, Trie.Insert;
      assert path[..d + 1] == Child(path[..d], h);
      child := Descend(path[..d], node, h);
      AddEndpoint(path[..d + 1], child, endpoint);
      InsertOneDeeper(start, path, endpoint, d);
    }

    /** The walk of `insert` over the request's chunks. */
    method Walk(request: string, endpoint: Url)
      requires chunkSize >= 1 && Linked()
      modifies this`nodes, this`kids, this`repr, this`view, repr
      ensures Linked() && fresh(repr - old(repr))
      ensures view == Trie.Insert(old(view), PathOf(request), endpoint)
    {
      ghost var path, d, start := PathOf(request), 0, view;
      var node, i := root, 0;
      AddEndpoint([], node, endpoint);
      InsertAtRoot(start, endpoint);
      while i < |request|
        invariant 0 <= i <= |request| && d <= |path|
        invariant Linked() && fresh(repr - old(repr))
        invariant path[d..] == Hashes(request[i..], chunkSize, hash)
        invariant path[..d] in nodes && nodes[path[..d]] == node && node in repr
        invariant view == Trie.Insert(start, path[..d], endpoint)
      {
        var end := if i + chunkSize <= |request| then i + chunkSize else |request|;
        NextHash(request, i, end, chunkSize, hash, path, d);
        node := Extend(path, d, node, hash(request[i..end]), endpoint, start);
        d, i := d + 1, end;
      }
      assert path[d..] == [] && path[..d] == path;
    }

    /** `insert` adds one entry to the history the trie stands for. */
    method Insert(request: string, endpoint: Url)
      requires Valid()
      modifies this, repr
      ensures Valid() && fresh(repr - old(repr))
      ensures history == old(history) + [Entry(PathOf(request), endpoint)]
    {
      hide Linked, Hashes, ViewOf, Trie.Insert;
      Walk(request, endpoint);
      ViewOfSnoc(history, Entry(PathOf(request), endpoint));
      history := history + [Entry(PathOf(request), endpoint)];
    }

    /**
     `longest_prefix_match`: the length counts whole chunks, `k` of them, and `k` with
     `selected` is the longest match in the history of inserts.
     */
    method LongestPrefixMatch(request: string, available: set<Url>)
      returns (matchLength: int, selected: set<Url>)
      requires Valid()
      ensures var k := Lookup(view, PathOf(request), available).0;
              && matchLength == k * chunkSize && selected == Lookup(view, PathOf(request), available).1
              && k <= |PathOf(request)|
              && IsLongestMatch(history, PathOf(request), available, k, selected)
    {
      ghost var path, d := PathOf(request), 0;
      var node, i := root, 0;
      matchLength, selected := 0, available;
      LookupFindsLongestMatch(history, path, available);
      while i < |request|
        invariant 0 <= i <= |request| && d <= |path|
        invariant path[d..] == Hashes(request[i..], chunkSize, hash)
        invariant path[..d] in nodes && nodes[path[..d]] == node
        invariant matchLength == d * chunkSize
        invariant Lookup(view, path, available) == LookupFrom(view, path, d, selected)
      {
        var end := if i + chunkSize <= |request| then i + chunkSize else |request|;
        NextHash(request, i, end, chunkSize, hash, path, d);
        var h := hash(request[i..end]);
        if h !in node.children {
          break;
        }
        node := node.children[h];
        var intersection := node.endpoints * selected;
        if intersection == {} {
          break;
        }
        OneMoreChunk(d, chunkSize);
        matchLength, selected := matchLength + chunkSize, intersection;
        d, i := d + 1, end;
      }
    }
  }

  lemma OneMoreChunk(d: nat, size: int)
    ensures (d + 1) * size == d * size + size
  {
  }

  /** The hash read next by a walk that has consumed `i` characters and `d` hashes. */
  lemma NextHash(request: string, i: nat, end: nat, size: int, hash: string -> int, path: Path, d: nat)
    requires size >= 1 && i < |request| && d <= |path|
    requires end == if i + size <= |request| then i + size else |request|
    requires path[d..] == Hashes(request[i..], size, hash)
    ensures d < |path| && path[d] == hash(request[i..end]) && path[..d + 1] == Child(path[..d], path[d])
    ensures path[d + 1..] == Hashes(request[end..], size, hash)
  {
    assert path[d] == path[d..][0];
    if i + size <= |request| {
      FirstChunk(request[i..], size, hash);
      assert request[i..][..size] == request[i..end] && request[i..][size..] == request[end..];
    } else {
      assert request[i..] == request[i..end];
    }
    assert path[d + 1..] == path[d..][1..];
  }
}
