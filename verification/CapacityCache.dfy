/** The decision cache as it is built: a usage list, and a map from hashed keys to a value and an
    iterator into that list. */
module CapacityCache {
  import opened Types
  import Lru

  /** A list node. An iterator is a reference to one; it stays good while others come and go. */
  class Node {
    const key: string

    constructor (key: string)
      ensures this.key == key
    {
      this.key := key;
    }
  }

  /** No key occurs twice in the usage list, its keys are exactly the map's, and every stored
      iterator is the node of its own key. */
  ghost predicate Linked<V>(usage: seq<Node>, values: map<string, (V, Node)>) {
    && DistinctKeys(usage)
    && (forall i :: 0 <= i < |usage| ==> usage[i].key in values && values[usage[i].key].1 == usage[i])
    && (forall k :: k in values ==> values[k].1 in usage && values[k].1.key == k)
  }

  ghost predicate DistinctKeys(usage: seq<Node>) {
    forall i, j :: 0 <= i < j < |usage| ==> usage[i].key != usage[j].key
  }

  ghost function EntriesOf<V>(usage: seq<Node>, values: map<string, (V, Node)>): (es: seq<(string, V)>)
    requires Linked(usage, values)
    ensures |es| == |usage| && Lru.Distinct(es)
    ensures forall i {:trigger es[i]} :: 0 <= i < |es| ==>
      usage[i].key in values && es[i] == (usage[i].key, values[usage[i].key].0)
  {
    seq(|usage|, i requires 0 <= i < |usage| && usage[i].key in values =>
      (usage[i].key, values[usage[i].key].0))
  }

  const CACHE_DEFAULT_CAPACITY: nat := 100

  class CapacityCache<K, V> {
    const capacity: nat
    const hasher: K -> string
    var keyUsage: seq<Node>
    var keyValue: map<string, (V, Node)>

    ghost predicate Valid()
      reads this
    {
      Linked(keyUsage, keyValue) && |keyUsage| <= capacity
    }

    ghost function View(): (c: Lru.Lru<V>)
      requires Valid()
      reads this
      ensures Lru.Valid(c) && c.capacity == capacity
    {
      Lru.Lru(capacity, EntriesOf(keyUsage, keyValue))
    }

    constructor (hasher: K -> string, capacity: nat)
      ensures Valid() && View() == Lru.Empty(capacity) && this.hasher == hasher
    {
      this.hasher, this.capacity := hasher, capacity;
      keyUsage, keyValue := [], map[];
    }

    /** `splice(begin, list, it)`: the node leaves its place and becomes the first. */
    method Splice(it: Node)
      requires it in keyUsage
      modifies `keyUsage
      ensures Spliced(old(keyUsage), keyUsage, it)
    {
      var i := 0;
      while keyUsage[i] != it
        invariant 0 <= i < |keyUsage| && it in keyUsage[i..] && keyUsage == old(keyUsage)
        decreases |keyUsage| - i
      {
        i := i + 1;
      }
      keyUsage := [it] + keyUsage[..i] + keyUsage[i + 1..];
      assert IsSplice(old(keyUsage), keyUsage, i);
    }

    method Get(key: K) returns (value: Option<V>)
      requires Valid()
      modifies `keyUsage
      ensures Valid() && View() == Lru.Get(old(View()), hasher(key))
      ensures value == if Lru.Cached(old(View()), hasher(key))
                       then Some(Lru.ValueOf(old(View()), hasher(key))) else None
    {
      hide Lru.Find, Lru.ToFront, EntriesOf, Linked, Spliced;
      var k := hasher(key);
      Position(keyUsage, keyValue, k);
      if k !in keyValue {
        return None;
      }
      ghost var usage := keyUsage;
      value := Some(keyValue[k].0);
      Splice(keyValue[k].1);
      SplicedEntries(usage, keyUsage, keyValue, k, keyValue[k].0);
      SameValue(keyValue, k);
    }

    method Clear()
      requires Valid()
      modifies `keyUsage, `keyValue
      ensures Valid() && View() == Lru.Clear(old(View()))
    {
      keyUsage, keyValue := [], map[];
    }

    /** `evict`: the last node goes, and with it its entry in the map. */
    method Evict()
      requires Valid() && keyUsage != []
      modifies `keyUsage, `keyValue
      ensures Valid() && View().entries == old(View()).entries[..|old(View()).entries| - 1]
    {
      var last := |keyUsage| - 1;
      var lastUsedKey := keyUsage[last].key;
      EvictedEntries(keyUsage, keyValue);
      keyUsage := keyUsage[..last];
      keyValue := keyValue - {lastUsedKey};
    }

    method Update(key: K, value: V) returns (existed: bool)
      requires Valid()
      modifies `keyUsage, `keyValue
      ensures Valid() && View() == Lru.Update(old(View()), hasher(key), value)
      ensures existed == Lru.Existed(old(View()), hasher(key))
    {
      hide Lru.Find, Lru.ToFront, EntriesOf, Linked;
      if capacity == 0 {
        return false;
      }
      SizeOfMap(keyUsage, keyValue);
      if |keyValue| == capacity {
        Evict();
      }
      existed := Place(hasher(key), value);
    }

    /** The rest of `update`, once there is room. */
    method Place(k: string, value: V) returns (existed: bool)
      requires Valid() && |keyUsage| < capacity
      modifies `keyUsage, `keyValue
      ensures Valid() && View().entries == Lru.ToFront(old(View()).entries, k, (k, value))
      ensures existed == Lru.Cached(old(View()), k)
    {
      hide Lru.Find, Lru.ToFront, EntriesOf, Linked, Spliced;
      ghost var usage := keyUsage;
      Position(keyUsage, keyValue, k);
      existed := k in keyValue;
      if existed {
        Splice(keyValue[k].1);
        SplicedEntries(usage, keyUsage, keyValue, k, value);
      } else {
        var node := new Node(k);
        NewEntries(keyUsage, keyValue, node, value);
        keyUsage := [node] + keyUsage;
      }
      keyValue := keyValue[k := (value, keyUsage[0])];
    }
  }

  // ---- The list and the map against the entries ---------------------------------------------

  ghost predicate IsSplice(before: seq<Node>, after: seq<Node>, i: nat) {
    i < |before| && after == [before[i]] + before[..i] + before[i + 1..]
  }

  ghost predicate Spliced(before: seq<Node>, after: seq<Node>, it: Node) {
    exists i :: 0 <= i < |before| && before[i] == it && IsSplice(before, after, i)
  }

  /** The node of a cached key stands where its entry stands. */
  lemma Position<V>(usage: seq<Node>, values: map<string, (V, Node)>, k: string)
    requires Linked(usage, values)
    ensures var es := EntriesOf(usage, values);
      && (k in values <==> Lru.Find(es, k) < |es|)
      && (k in values ==> usage[Lru.Find(es, k)] == values[k].1 && es[Lru.Find(es, k)] == (k, values[k].0))
  {
    var es := EntriesOf(usage, values);
    if k in values {
      var i :| 0 <= i < |usage| && usage[i] == values[k].1;
      assert es[i].0 == k;
      Lru.FindIs(es, k, i);
    } else {
      forall i | 0 <= i < |es| ensures es[i].0 != k {
        assert usage[i].key in values;
      }
      Lru.FindNone(es, k);
    }
  }

  /** A splice, index by index. */
  lemma SpliceAt(before: seq<Node>, after: seq<Node>, i: nat)
    requires DistinctKeys(before) && IsSplice(before, after, i)
    ensures |after| == |before| && after[0] == before[i] && DistinctKeys(after)
    ensures forall j {:trigger after[j]} :: 0 < j < |after| ==> after[j] == before[if j <= i then j - 1 else j]
    ensures forall n :: n in after <==> n in before
  {
    forall n | n in before ensures n in after {
      var j :| 0 <= j < |before| && before[j] == n;
      if j != i {
        assert after[if j < i then j + 1 else j] == n;
      }
    }
    forall a, b | 0 <= a < b < |after| ensures after[a].key != after[b].key {
      var p, q := if a == 0 then i else if a <= i then a - 1 else a, if b <= i then b - 1 else b;
      assert after[a] == before[p] && after[b] == before[q] && p != q;
    }
  }

  /** Splicing the node of a key to the front and storing a value there moves its entry. */
  lemma SplicedEntries<V>(before: seq<Node>, after: seq<Node>, values: map<string, (V, Node)>, k: string, v: V)
    requires Linked(before, values) && k in values && Spliced(before, after, values[k].1)
    ensures |after| == |before| && after[0] == values[k].1
    ensures var values' := values[k := (v, after[0])];
      && Linked(after, values')
      && EntriesOf(after, values') == Lru.ToFront(EntriesOf(before, values), k, (k, v))
  {
    hide Lru.Find, Lru.ToFront, EntriesOf, IsSplice;
    var i :| 0 <= i < |before| && before[i] == values[k].1 && IsSplice(before, after, i);
    SpliceAt(before, after, i);
    SplicedLinked(before, after, values, i, v);
    FoundAt(before, values, i);
    MovedEntries(before, after, values, i, v);
  }

  lemma FoundAt<V>(usage: seq<Node>, values: map<string, (V, Node)>, i: nat)
    requires Linked(usage, values) && i < |usage|
    ensures Lru.Find(EntriesOf(usage, values), usage[i].key) == i
  {
    var es := EntriesOf(usage, values);
    assert es[i].0 == usage[i].key;
    Lru.FindIs(es, usage[i].key, i);
  }

  lemma MovedEntries<V>(before: seq<Node>, after: seq<Node>, values: map<string, (V, Node)>, i: nat, v: V)
    requires Linked(before, values) && i < |before| && |after| == |before| && after[0] == before[i]
    requires forall j {:trigger after[j]} :: 0 < j < |after| ==> after[j] == before[if j <= i then j - 1 else j]
    requires Linked(after, values[before[i].key := (v, after[0])])
    requires Lru.Find(EntriesOf(before, values), before[i].key) == i
    ensures var k := before[i].key;
      EntriesOf(after, values[k := (v, after[0])]) == Lru.ToFront(EntriesOf(before, values), k, (k, v))
  {
    hide Lru.Find, Lru.ToFront, EntriesOf;
    var k, es := before[i].key, EntriesOf(before, values);
    var es', r := EntriesOf(after, values[k := (v, after[0])]), Lru.ToFront(es, k, (k, v));
    Lru.ToFrontAt(es, k, (k, v));
    forall j | 0 <= j < |r| ensures es'[j] == r[j] {
      if j > 0 {
        var q := if j <= i then j - 1 else j;
        assert after[j] == before[q] && r[j] == es[q] && q != i;
        assert before[q].key != k;
      }
    }
  }

  lemma SplicedLinked<V>(before: seq<Node>, after: seq<Node>, values: map<string, (V, Node)>, i: nat, v: V)
    requires Linked(before, values) && IsSplice(before, after, i)
    ensures after != [] && Linked(after, values[before[i].key := (v, after[0])])
  {
    SpliceAt(before, after, i);
    var k := before[i].key;
    var values' := values[k := (v, after[0])];
    forall j | 0 <= j < |after|
      ensures after[j].key in values' && values'[after[j].key].1 == after[j]
    {
      assert after[j] in before;
    }
  }

  lemma NewEntries<V>(usage: seq<Node>, values: map<string, (V, Node)>, node: Node, v: V)
    requires Linked(usage, values) && node.key !in values
    ensures var values' := values[node.key := (v, node)];
      && Linked([node] + usage, values')
      && EntriesOf([node] + usage, values') == Lru.ToFront(EntriesOf(usage, values), node.key, (node.key, v))
  {
    hide Lru.Find;
    var k, es := node.key, EntriesOf(usage, values);
    Position(usage, values, k);
    var values' := values[k := (v, node)];
    assert Linked([node] + usage, values') by {
      assert forall i :: 0 <= i < |usage| ==> usage[i].key != k;
    }
    assert EntriesOf([node] + usage, values') == [(k, v)] + es;
  }

  lemma EvictedEntries<V>(usage: seq<Node>, values: map<string, (V, Node)>)
    requires Linked(usage, values) && usage != []
    ensures var last := |usage| - 1;
      var values' := values - {usage[last].key};
      && Linked(usage[..last], values')
      && EntriesOf(usage[..last], values') == EntriesOf(usage, values)[..last]
  {
    var last := |usage| - 1;
    var front, values' := usage[..last], values - {usage[last].key};
    forall k | k in values' ensures values'[k].1 in front && values'[k].1.key == k {
      var i :| 0 <= i < |usage| && usage[i] == values[k].1;
      assert i != last;
      assert front[i] == usage[i];
    }
    forall i | 0 <= i < |front| ensures front[i].key in values' && values'[front[i].key].1 == front[i] {
      assert usage[i].key != usage[last].key;
    }
    assert Linked(front, values');
    assert EntriesOf(front, values') == EntriesOf(usage, values)[..last];
  }

  lemma {:induction false} KeysOf(nodes: seq<Node>)
    requires DistinctKeys(nodes)
    ensures |set i | 0 <= i < |nodes| :: nodes[i].key| == |nodes|
    decreases |nodes|
  {
    if nodes != [] {
      var front := nodes[..|nodes| - 1];
      KeysOf(front);
      assert (set i | 0 <= i < |nodes| :: nodes[i].key)
          == (set i | 0 <= i < |front| :: front[i].key) + {nodes[|nodes| - 1].key};
    }
  }

  /** The map's size, which `update` tests, is the length of the list. */
  lemma SizeOfMap<V>(usage: seq<Node>, values: map<string, (V, Node)>)
    requires Linked(usage, values)
    ensures |values| == |usage|
  {
    KeysOf(usage);
    var keys := set i | 0 <= i < |usage| :: usage[i].key;
    forall k | k in values ensures k in keys {
      var i :| 0 <= i < |usage| && usage[i] == values[k].1;
      assert usage[i].key == k;
    }
    assert values.Keys == keys;
  }

  lemma SameValue<V>(values: map<string, (V, Node)>, k: string)
    requires k in values
    ensures values[k := (values[k].0, values[k].1)] == values
  {
  }
}
