/** The prefix tree the scanners walk to recognise symbols (src/utils/trie.ts). */
module Tries {
  import opened Wrappers

  /** A node: an optional value and its children keyed by one character. */
  datatype Trie<T> = Node(value: Option<T>, children: map<char, Trie<T>>)

  /** `new Trie<T>()`: no value and no children. */
  function Empty<T>(): (t: Trie<T>)
    ensures t.value.None? && t.children == map[]
  {
    Node(None, map[])
  }

  /** A node holding `v` with no children. */
  function Leaf<T>(v: T): (t: Trie<T>)
    ensures t.value == Some(v) && t.children == map[]
  {
    Node(Some(v), map[])
  }

  /** The node reached by following `path` from `t`, if every step exists. */
  function Find<T>(t: Trie<T>, path: string): Option<Trie<T>>
    decreases |path|
  {
    if path == [] then Some(t)
    else if path[0] in t.children then Find(t.children[path[0]], path[1..])
    else None
  }

  /** The value stored at the end of `key`, if that node exists and holds one. */
  function Lookup<T>(t: Trie<T>, key: string): Option<T> {
    match Find(t, key)
    case Some(n) => n.value
    case None => None
  }

  /** One pass of the insertion walk: reuse the child for each character, creating an empty
      one only where it is missing, and set the value on the node the key ends at. */
  function Insert<T>(t: Trie<T>, key: string, v: T): (r: Trie<T>)
    ensures key == [] ==> r.value == Some(v) && r.children == t.children
    ensures key != [] ==> r.value == t.value
    ensures t.children.Keys <= r.children.Keys
    ensures forall c :: c in t.children && (key == [] || c != key[0]) ==> r.children[c] == t.children[c]
    decreases |key|
  {
    if key == [] then Node(Some(v), t.children)
    else
      var child := if key[0] in t.children then t.children[key[0]] else Empty();
      Node(t.value, t.children[key[0] := Insert(child, key[1..], v)])
  }

  /** After inserting `key`, exactly `key` maps to `v`; every other key keeps its value. */
  lemma {:induction false} InsertLookup<T>(t: Trie<T>, key: string, v: T, other: string)
    ensures Lookup(Insert(t, key, v), other) == if other == key then Some(v) else Lookup(t, other)
    decreases |key|
  {
    var r := Insert(t, key, v);
    if key == [] {
      if other != [] {
        assert Find(r, other) == Find(t, other);
      }
    } else if other == [] {
    } else if other[0] != key[0] {
      assert Find(r, other) == Find(t, other);
    } else {
      var child := if key[0] in t.children then t.children[key[0]] else Empty();
      InsertLookup(child, key[1..], v, other[1..]);
      assert Find(r, other) == Find(Insert(child, key[1..], v), other[1..]);
      if key[0] !in t.children {
        EmptyFindsOnlyRoot<T>(other[1..]);
      }
      assert (other[1..] == key[1..]) == (other == key);
    }
  }

  lemma {:induction false} EmptyFindsOnlyRoot<T>(path: string)
    ensures Find(Empty<T>(), path) == if path == [] then Some(Empty()) else None
  {
  }

  /** Inserting `key` adds exactly the nodes of the prefixes of `key`; no other node appears
      and none disappears. */
  lemma {:induction false} InsertNodes<T>(t: Trie<T>, key: string, v: T, path: string)
    ensures Find(Insert(t, key, v), path).Some? <==> Find(t, path).Some? || path <= key
    decreases |key|
  {
    var r := Insert(t, key, v);
    if key == [] || path == [] {
      if path != [] {
        assert Find(r, path) == Find(t, path);
      }
    } else if path[0] != key[0] {
      assert Find(r, path) == Find(t, path);
    } else {
      var child := if key[0] in t.children then t.children[key[0]] else Empty();
      InsertNodes(child, key[1..], v, path[1..]);
      assert Find(r, path) == Find(Insert(child, key[1..], v), path[1..]);
      if key[0] !in t.children {
        EmptyFindsOnlyRoot<T>(path[1..]);
      }
      assert (path[1..] <= key[1..]) == (path <= key);
    }
  }

  /** Inserting a one-character key the root has no child for adds a leaf under it. */
  lemma InsertFreshChar<T>(t: Trie<T>, c: char, v: T)
    requires c !in t.children
    ensures Insert(t, [c], v) == Node(t.value, t.children[c := Leaf(v)])
  {
    assert [c][1..] == [];
  }

  /** The value of the last entry whose key is `key`, if any. */
  ghost function LastValue<T>(entries: seq<(string, T)>, key: string): Option<T> {
    if entries == [] then None
    else if entries[|entries| - 1].0 == key then Some(entries[|entries| - 1].1)
    else LastValue(entries[..|entries| - 1], key)
  }

  /** The tree `buildTrie(entries)` returns: entries inserted in list order into an empty root. */
  function BuildTrieSpec<T>(entries: seq<(string, T)>): Trie<T> {
    if entries == [] then Empty()
    else
      var last := entries[|entries| - 1];
      Insert(BuildTrieSpec(entries[..|entries| - 1]), last.0, last.1)
  }

  /** `buildTrie`: a fresh root, then each entry in order walks its key, creating missing
      children, and stores its value at the end. */
  method BuildTrie<T>(entries: seq<(string, T)>) returns (trie: Trie<T>)
    ensures trie == BuildTrieSpec(entries)
  {
    trie := Empty();
    var k := 0;
    while k < |entries|
      invariant 0 <= k <= |entries|
      invariant trie == BuildTrieSpec(entries[..k])
    {
      var entry := entries[k];
      assert entries[..k + 1][..k] == entries[..k];
      trie := Insert(trie, entry.0, entry.1);
      k := k + 1;
    }
    assert entries[..k] == entries;
  }

  /** Every entry's key leads to a node holding a value, and for a repeated key the last
      entry's value wins. */
  lemma {:induction false} BuildTrieLookup<T>(entries: seq<(string, T)>, key: string)
    ensures Lookup(BuildTrieSpec(entries), key) == LastValue(entries, key)
  {
    if entries == [] {
      EmptyFindsOnlyRoot<T>(key);
    } else {
      var init := entries[..|entries| - 1];
      var last := entries[|entries| - 1];
      InsertLookup(BuildTrieSpec(init), last.0, last.1, key);
      BuildTrieLookup(init, key);
    }
  }

  /** A node exists exactly for the root and for each prefix of some entry's key. */
  lemma {:induction false} BuildTrieNodes<T>(entries: seq<(string, T)>, path: string)
    ensures Find(BuildTrieSpec(entries), path).Some? <==>
      path == [] || exists i :: 0 <= i < |entries| && path <= entries[i].0
  {
    if entries == [] {
      EmptyFindsOnlyRoot<T>(path);
    } else {
      var init := entries[..|entries| - 1];
      var last := entries[|entries| - 1];
      InsertNodes(BuildTrieSpec(init), last.0, last.1, path);
      BuildTrieNodes(init, path);
      if exists i :: 0 <= i < |entries| && path <= entries[i].0 {
        var i :| 0 <= i < |entries| && path <= entries[i].0;
        if i < |init| { assert init[i] == entries[i]; }
      }
      if exists i :: 0 <= i < |init| && path <= init[i].0 {
        var i :| 0 <= i < |init| && path <= init[i].0;
        assert entries[i] == init[i];
      }
    }
  }

  /** An entry with the empty key stores its value on the root itself. */
  lemma EmptyKeyOnRoot<T>(entries: seq<(string, T)>)
    ensures BuildTrieSpec(entries).value == LastValue(entries, "")
  {
    BuildTrieLookup(entries, "");
  }
}
