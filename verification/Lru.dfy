/** What the decision cache is, without its list and its map: entries in order of use. */
module Lru {
  import opened Types

  /** Entries, most recently used first. */
  datatype Lru<V> = Lru(capacity: nat, entries: seq<(string, V)>)

  ghost predicate Valid<V>(c: Lru<V>) {
    |c.entries| <= c.capacity && Distinct(c.entries)
  }

  ghost predicate Distinct<V>(es: seq<(string, V)>) {
    forall i, j :: 0 <= i < j < |es| ==> es[i].0 != es[j].0
  }

  function Find<V>(es: seq<(string, V)>, k: string): (i: nat)
    ensures i <= |es| && (i < |es| ==> es[i].0 == k)
    ensures forall j :: 0 <= j < i ==> es[j].0 != k
  {
    if es == [] || es[0].0 == k then 0 else 1 + Find(es[1..], k)
  }

  predicate Cached<V>(c: Lru<V>, k: string) {
    Find(c.entries, k) < |c.entries|
  }

  function ValueOf<V>(c: Lru<V>, k: string): V
    requires Cached(c, k)
  {
    c.entries[Find(c.entries, k)].1
  }

  function Without<V>(es: seq<(string, V)>, i: nat): seq<(string, V)>
    requires i < |es|
  {
    es[..i] + es[i + 1..]
  }

  /** The entry of `k` leaves its place, if it has one, and `e` goes to the front. */
  function ToFront<V>(es: seq<(string, V)>, k: string, e: (string, V)): seq<(string, V)> {
    var i := Find(es, k);
    [e] + if i == |es| then es else Without(es, i)
  }

  /** A hit moves the entry to the front. */
  function Get<V>(c: Lru<V>, k: string): Lru<V> {
    var i := Find(c.entries, k);
    if i == |c.entries| then c else c.(entries := ToFront(c.entries, k, c.entries[i]))
  }

  /** A full cache gives up its last entry before the key is looked up. */
  function Evict<V>(c: Lru<V>): Lru<V> {
    if c.entries != [] && |c.entries| == c.capacity then c.(entries := c.entries[..|c.entries| - 1]) else c
  }

  function Update<V>(c: Lru<V>, k: string, v: V): Lru<V> {
    if c.capacity == 0 then c else c.(entries := ToFront(Evict(c).entries, k, (k, v)))
  }

  /** What `update` returns: whether the key was still there after the eviction. */
  predicate Existed<V>(c: Lru<V>, k: string) {
    c.capacity != 0 && Cached(Evict(c), k)
  }

  function Clear<V>(c: Lru<V>): Lru<V> {
    c.(entries := [])
  }

  datatype Op<V> = Looked(k: string) | Stored(k: string, v: V) | Cleared

  function Step<V>(c: Lru<V>, op: Op<V>): Lru<V> {
    match op
    case Looked(k) => Get(c, k)
    case Stored(k, v) => Update(c, k, v)
    case Cleared => Clear(c)
  }

  function Run<V>(c: Lru<V>, ops: seq<Op<V>>): Lru<V> {
    if ops == [] then c else Step(Run(c, ops[..|ops| - 1]), ops[|ops| - 1])
  }

  function Empty<V>(capacity: nat): Lru<V> {
    Lru(capacity, [])
  }

  // ---- Positions ----------------------------------------------------------------------------

  lemma FindIs<V>(es: seq<(string, V)>, k: string, i: nat)
    requires i < |es| && es[i].0 == k && forall j :: 0 <= j < |es| && j != i ==> es[j].0 != k
    ensures Find(es, k) == i
  {
  }

  lemma FindNone<V>(es: seq<(string, V)>, k: string)
    requires forall j :: 0 <= j < |es| ==> es[j].0 != k
    ensures Find(es, k) == |es|
  {
  }

  lemma ToFrontAt<V>(es: seq<(string, V)>, k: string, e: (string, V))
    ensures var i, r := Find(es, k), ToFront(es, k, e);
      && |r| == (if i < |es| then |es| else |es| + 1)
      && r[0] == e
      && (forall j {:trigger r[j]} :: 0 < j < |r| ==> r[j] == es[if j <= i then j - 1 else j])
  {
    hide Find;
  }

  lemma ToFrontDistinct<V>(es: seq<(string, V)>, k: string, e: (string, V))
    requires Distinct(es) && e.0 == k
    ensures Distinct(ToFront(es, k, e))
  {
    ToFrontAt(es, k, e);
    var i, r := Find(es, k), ToFront(es, k, e);
    hide Find, ToFront;
    forall a, b | 0 <= a < b < |r| ensures r[a].0 != r[b].0 {
      var q := if b <= i then b - 1 else b;
      assert r[b] == es[q] && q != i;
      assert es[q].0 != k;
      if a > 0 {
        assert r[a] == es[if a <= i then a - 1 else a];
      }
    }
  }

  lemma StepValid<V>(c: Lru<V>, op: Op<V>)
    requires Valid(c)
    ensures Valid(Step(c, op)) && Step(c, op).capacity == c.capacity
  {
    hide Find, ToFront;
    if op.Looked? && Cached(c, op.k) {
      ToFrontDistinct(c.entries, op.k, c.entries[Find(c.entries, op.k)]);
      ToFrontAt(c.entries, op.k, c.entries[Find(c.entries, op.k)]);
    } else if op.Stored? && c.capacity != 0 {
      ToFrontDistinct(Evict(c).entries, op.k, (op.k, op.v));
      ToFrontAt(Evict(c).entries, op.k, (op.k, op.v));
    }
  }

  lemma {:induction false} RunValid<V>(c: Lru<V>, ops: seq<Op<V>>)
    requires Valid(c)
    ensures Valid(Run(c, ops)) && Run(c, ops).capacity == c.capacity
    decreases |ops|
  {
    if ops != [] {
      RunValid(c, ops[..|ops| - 1]);
      StepValid(Run(c, ops[..|ops| - 1]), ops[|ops| - 1]);
    }
  }

  /** The cache is full and the use an update: the last entry goes. */
  ghost predicate Displaced<V>(c: Lru<V>, op: Op<V>) {
    op.Stored? && |c.entries| == c.capacity
  }

  /** The entries an operation that is no clear works on: those left after an eviction. */
  ghost function Base<V>(c: Lru<V>, op: Op<V>): seq<(string, V)> {
    if op.Stored? then Evict(c).entries else c.entries
  }

  lemma BasePrefix<V>(c: Lru<V>, op: Op<V>)
    ensures Base(c, op) <= c.entries
  {
  }

  /** A used key is taken out of its place, if it has one, and put at the front. */
  lemma StepShape<V>(c: Lru<V>, op: Op<V>)
    requires Valid(c) && !op.Cleared?
    requires op.Looked? ==> Cached(c, op.k)
    requires op.Stored? ==> c.capacity != 0
    ensures var es, i, r := Base(c, op), Find(c.entries, op.k), Step(c, op).entries;
      && |r| == (if i < |es| then |es| else |es| + 1)
      && r[0].0 == op.k
      && (forall j {:trigger r[j]} :: 0 < j < |r| ==> r[j] == es[if j <= i then j - 1 else j])
  {
    hide Find, ToFront, Evict;
    FindEvicted(c, op.k);
    if op.Looked? {
      ToFrontAt(c.entries, op.k, c.entries[Find(c.entries, op.k)]);
    } else {
      ToFrontAt(Evict(c).entries, op.k, (op.k, op.v));
    }
  }

  /** Another key's entry that is not given up moves back by one if it was in front. */
  lemma OtherKept<V>(c: Lru<V>, op: Op<V>, k: string)
    requires Valid(c) && Cached(c, k) && !op.Cleared? && op.k != k
    requires op.Looked? ==> Cached(c, op.k)
    requires op.Stored? ==> c.capacity != 0
    requires Find(c.entries, k) < |Base(c, op)|
    ensures var p, c' := Find(c.entries, k), Step(c, op);
      && Cached(c', k) && ValueOf(c', k) == ValueOf(c, k)
      && Find(c'.entries, k) == if Find(c.entries, op.k) < p then p else p + 1
  {
    hide Find, Step, Evict, Base;
    StepShape(c, op);
    StepValid(c, op);
    BasePrefix(c, op);
    var es, i, p := Base(c, op), Find(c.entries, op.k), Find(c.entries, k);
    var q := if i < p then p else p + 1;
    assert i != p;
    assert Step(c, op).entries[q] == es[p];
    FindAt(Step(c, op), k, q);
  }

  lemma OtherLost<V>(c: Lru<V>, op: Op<V>, k: string)
    requires Valid(c) && Cached(c, k) && op.Stored? && op.k != k && c.capacity != 0
    requires Find(c.entries, k) == |Base(c, op)|
    ensures !Cached(Step(c, op), k)
  {
    hide Step;
    StepShape(c, op);
    var es, i, r := Base(c, op), Find(c.entries, op.k), Step(c, op).entries;
    forall j | 0 <= j < |r| ensures r[j].0 != k {
      assert j > 0 ==> r[j] == es[if j <= i then j - 1 else j];
    }
    FindGone(Step(c, op), k);
  }

  /** Where an entry is after another key has been used: one further back if it was in front of
      that key, and gone if the cache was full, the use was an update, and the entry was last. */
  lemma OtherUse<V>(c: Lru<V>, op: Op<V>, k: string)
    requires Valid(c) && Cached(c, k) && !op.Cleared? && op.k != k
    ensures var p := Find(c.entries, k);
      if Displaced(c, op) && p == |c.entries| - 1 then !Cached(Step(c, op), k)
      else
        && Cached(Step(c, op), k) && ValueOf(Step(c, op), k) == ValueOf(c, k)
        && Find(Step(c, op).entries, k)
           == if op.Looked? && !Cached(c, op.k) then p
              else if Find(c.entries, op.k) < p then p
              else p + 1
  {
    if op.Stored? || Cached(c, op.k) {
      if Find(c.entries, k) < |Base(c, op)| {
        OtherKept(c, op, k);
        hide Find, Step;
      } else {
        OtherLost(c, op, k);
        hide Find, Step;
      }
    }
  }

  lemma FindAt<V>(c: Lru<V>, k: string, q: nat)
    requires q < |c.entries| && c.entries[q].0 == k
    requires Distinct(c.entries)
    ensures Find(c.entries, k) == q
  {
    FindIs(c.entries, k, q);
  }

  lemma FindGone<V>(c: Lru<V>, k: string)
    requires forall j :: 0 <= j < |c.entries| ==> c.entries[j].0 != k
    ensures !Cached(c, k)
  {
    FindNone(c.entries, k);
  }

  lemma FindEvicted<V>(c: Lru<V>, x: string)
    requires Valid(c)
    ensures var i := Find(c.entries, x);
      Find(Evict(c).entries, x) == if i < |Evict(c).entries| then i else |Evict(c).entries|
  {
    var es, fs := c.entries, Evict(c).entries;
    if Find(es, x) < |fs| {
      FindIs(fs, x, Find(es, x));
    } else {
      FindNone(fs, x);
    }
  }

  /** A use of a key puts it at the front. */
  lemma OwnUse<V>(c: Lru<V>, op: Op<V>)
    requires Valid(c) && !op.Cleared? && (op.Stored? ==> c.capacity != 0) && (op.Looked? ==> Cached(c, op.k))
    ensures var c' := Step(c, op);
      && c'.entries != [] && c'.entries[0].0 == op.k
      && (op.Stored? ==> c'.entries[0].1 == op.v)
      && (op.Looked? ==> c'.entries[0].1 == ValueOf(c, op.k))
  {
  }

  // ---- The last value -----------------------------------------------------------------------

  /** The value last stored under a key since the last clear. */
  ghost function LastStored<V>(ops: seq<Op<V>>, k: string): Option<V> {
    if ops == [] then None else
      var op := ops[|ops| - 1];
      if op.Cleared? then None
      else if op.Stored? && op.k == k then Some(op.v)
      else LastStored(ops[..|ops| - 1], k)
  }

  /** Whatever is cached is the value last stored under that key since the last clear. */
  lemma {:induction false} CachedIsLastStored<V>(capacity: nat, ops: seq<Op<V>>, k: string)
    requires Cached(Run(Empty(capacity), ops), k)
    ensures LastStored(ops, k) == Some(ValueOf(Run(Empty(capacity), ops), k))
    decreases |ops|
  {
    if ops != [] {
      var before, op := Run(Empty(capacity), ops[..|ops| - 1]), ops[|ops| - 1];
      RunValid(Empty(capacity), ops[..|ops| - 1]);
      if !op.Cleared? && op.k != k {
        NotInserted(before, op, k);
        OtherUse(before, op, k);
        CachedIsLastStored(capacity, ops[..|ops| - 1], k);
      } else if op.Looked? {
        LookedStays(before, k);
        CachedIsLastStored(capacity, ops[..|ops| - 1], k);
      } else {
        OwnStored(before, op, k);
      }
    }
  }

  lemma LookedStays<V>(c: Lru<V>, k: string)
    requires Valid(c) && Cached(Get(c, k), k)
    ensures Cached(c, k) && ValueOf(Get(c, k), k) == ValueOf(c, k)
  {
  }

  lemma OwnStored<V>(c: Lru<V>, op: Op<V>, k: string)
    requires Valid(c) && Cached(Step(c, op), k)
    requires op.Cleared? || (op.Stored? && op.k == k)
    ensures op.Stored? && ValueOf(Step(c, op), k) == op.v
  {
  }

  /** Using one key does not bring in another. */
  lemma NotInserted<V>(c: Lru<V>, op: Op<V>, k: string)
    requires Valid(c) && !op.Cleared? && op.k != k && Cached(Step(c, op), k)
    ensures Cached(c, k)
  {
    if !Cached(c, k) && (op.Stored? ==> c.capacity != 0) && (op.Looked? ==> Cached(c, op.k)) {
      StepShape(c, op);
      hide Step;
      var es, i, r := Base(c, op), Find(c.entries, op.k), Step(c, op).entries;
      forall j | 0 <= j < |r| ensures r[j].0 != k {
        assert j > 0 ==> r[j] == es[if j <= i then j - 1 else j];
      }
      FindGone(Step(c, op), k);
    }
  }

  // ---- Retention ----------------------------------------------------------------------------

  /** The keys used by a run: stored, or looked up and found. */
  ghost function Used<V>(c: Lru<V>, ops: seq<Op<V>>): set<string> {
    if ops == [] then {} else
      var before, op := ops[..|ops| - 1], ops[|ops| - 1];
      Used(c, before)
      + if op.Stored? || (op.Looked? && Cached(Run(c, before), op.k)) then {op.k} else {}
  }

  /** Neither a clear nor any use of `k`. */
  ghost predicate LeavesAlone<V>(ops: seq<Op<V>>, k: string) {
    forall i :: 0 <= i < |ops| ==> !ops[i].Cleared? && ops[i].k != k
  }

  /** No update comes after capacity - 1 other keys have been used. */
  ghost predicate NoLateUpdate<V>(c: Lru<V>, ops: seq<Op<V>>) {
    forall i :: 0 <= i < |ops| && ops[i].Stored? ==> |Used(c, ops[..i])| < c.capacity - 1
  }

  /** The keys in front of an entry. */
  ghost function Front<V>(es: seq<(string, V)>, p: nat): set<string>
    requires p <= |es|
  {
    set j | 0 <= j < p :: es[j].0
  }

  lemma {:induction false} FrontSize<V>(es: seq<(string, V)>, p: nat)
    requires p <= |es| && Distinct(es)
    ensures |Front(es, p)| == p
    decreases p
  {
    if p > 0 {
      FrontSize(es, p - 1);
      assert Front(es, p) == Front(es, p - 1) + {es[p - 1].0};
    }
  }

  /** While an entry stays, the keys in front of it are exactly those used since it was at the
      front itself. */
  ghost predicate Tracks<V>(c: Lru<V>, now: Lru<V>, ops: seq<Op<V>>, k: string) {
    Cached(now, k) ==> Front(now.entries, Find(now.entries, k)) == Used(c, ops)
  }

  lemma FrontAfter<V>(c: Lru<V>, op: Op<V>, k: string)
    requires Valid(c) && Cached(c, k) && !op.Cleared? && op.k != k && Cached(Step(c, op), k)
    ensures Front(Step(c, op).entries, Find(Step(c, op).entries, k))
         == Front(c.entries, Find(c.entries, k))
            + if op.Stored? || Cached(c, op.k) then {op.k} else {}
  {
    hide Find;
    OtherUse(c, op, k);
    StepValid(c, op);
    var c', es, p := Step(c, op), c.entries, Find(c.entries, k);
    var p' := Find(c'.entries, k);
    if op.Looked? && Find(es, op.k) == |es| {
    } else {
      FrontMoved(c, op, p, p');
    }
  }

  lemma FrontMoved<V>(c: Lru<V>, op: Op<V>, p: nat, p': nat)
    requires Valid(c) && p < |c.entries| && !op.Cleared? && c.entries[p].0 != op.k
    requires op.Stored? || Cached(c, op.k)
    requires op.Stored? ==> c.capacity != 0 && p < |Evict(c).entries|
    requires p' == if Find(c.entries, op.k) < p then p else p + 1
    ensures p' < |Step(c, op).entries|
    ensures Front(Step(c, op).entries, p') == Front(c.entries, p) + {op.k}
  {
    StepShape(c, op);
    hide Find, Step, Evict;
    var es, r, i := c.entries, Step(c, op).entries, Find(c.entries, op.k);
    assert forall j {:trigger r[j]} :: 0 < j < p' ==> r[j] == es[if j <= i then j - 1 else j];
    FrontShifted(es, r, i, p, p', op.k);
  }

  lemma FrontShifted<V>(es: seq<(string, V)>, r: seq<(string, V)>, i: nat, p: nat, p': nat, x: string)
    requires p < |es| && 0 < p' < |r| && i != p && p' == if i < p then p else p + 1
    requires i < |es| ==> es[i].0 == x
    requires r[0].0 == x
    requires forall j {:trigger r[j]} :: 0 < j < p' ==> r[j] == es[if j <= i then j - 1 else j]
    ensures Front(r, p') == Front(es, p) + {x}
  {
    forall y | y in Front(es, p) ensures y in Front(r, p') + {x} {
      var j :| 0 <= j < p && es[j].0 == y;
      if j != i {
        assert r[if j < i then j + 1 else j].0 == y;
      }
    }
    forall y | y in Front(r, p') ensures y in Front(es, p) + {x} {
      var j :| 0 <= j < p' && r[j].0 == y;
      if j > 0 {
        assert es[if j <= i then j - 1 else j].0 == y;
      }
    }
    assert r[0].0 in Front(r, p');
  }

  lemma UsedStep<V>(c: Lru<V>, ops: seq<Op<V>>, op: Op<V>)
    ensures Used(c, ops + [op])
         == Used(c, ops) + if op.Stored? || (op.Looked? && Cached(Run(c, ops), op.k)) then {op.k} else {}
    ensures Run(c, ops + [op]) == Step(Run(c, ops), op)
  {
    assert (ops + [op])[..|ops + [op]| - 1] == ops;
  }

  lemma {:induction false} RetentionInv<V>(c: Lru<V>, ops: seq<Op<V>>, k: string)
    requires Valid(c) && c.entries != [] && c.entries[0].0 == k && LeavesAlone(ops, k)
    ensures Tracks(c, Run(c, ops), ops, k)
    ensures Cached(Run(c, ops), k) <==> NoLateUpdate(c, ops)
    decreases |ops|
  {
    hide Find, Step, Cached;
    if ops == [] {
      RetentionStart(c, k);
    } else {
      var before, op := ops[..|ops| - 1], ops[|ops| - 1];
      assert ops == before + [op];
      assert LeavesAlone(before, k);
      RetentionInv(c, before, k);
      RunValid(c, before);
      UsedStep(c, before, op);
      NoLateStep(c, before, op);
      RetentionStep(c, before, op, k);
    }
  }

  lemma RetentionStart<V>(c: Lru<V>, k: string)
    requires Valid(c) && c.entries != [] && c.entries[0].0 == k
    ensures Cached(c, k) && Front(c.entries, Find(c.entries, k)) == {}
  {
  }

  lemma NoLateStep<V>(c: Lru<V>, before: seq<Op<V>>, op: Op<V>)
    ensures NoLateUpdate(c, before + [op])
        <==> NoLateUpdate(c, before) && (op.Stored? ==> |Used(c, before)| < c.capacity - 1)
  {
    hide Used;
    var ops := before + [op];
    assert ops[..|before|] == before;
    assert forall i :: 0 <= i < |before| ==> ops[..i] == before[..i] && ops[i] == before[i];
    if NoLateUpdate(c, ops) {
      forall i | 0 <= i < |before| && before[i].Stored? ensures |Used(c, before[..i])| < c.capacity - 1 {
        assert ops[i].Stored?;
      }
      assert op.Stored? ==> ops[|before|].Stored?;
    }
  }

  lemma RetentionStep<V>(c: Lru<V>, before: seq<Op<V>>, op: Op<V>, k: string)
    requires var now := Run(c, before);
      Valid(now) && now.capacity == c.capacity && Tracks(c, now, before, k)
    requires !op.Cleared? && op.k != k
    ensures var now := Run(c, before);
      && Tracks(c, Step(now, op), before + [op], k)
      && (Cached(Step(now, op), k) <==> Cached(now, k) && (op.Stored? ==> |Used(c, before)| < c.capacity - 1))
  {
    var now := Run(c, before);
    UsedStep(c, before, op);
    hide Find, Step, Used, Run;
    if Cached(now, k) {
      var p := Find(now.entries, k);
      FrontSize(now.entries, p);
      OtherUse(now, op, k);
      if Cached(Step(now, op), k) {
        FrontAfter(now, op, k);
      }
    } else if Cached(Step(now, op), k) {
      NotInserted(now, op, k);
    }
  }

  /** Exactly when a key survives. Once it has been used (it is then at the front), and as long as
      nothing clears the cache or uses it again, it stays cached if and only if no update arrives
      after capacity - 1 distinct other keys have been used: eviction comes before lookup, so even
      an update of a key that is there costs the last entry. */
  lemma Retention<V>(c: Lru<V>, ops: seq<Op<V>>, k: string)
    requires Valid(c) && c.entries != [] && c.entries[0].0 == k && LeavesAlone(ops, k)
    ensures Cached(Run(c, ops), k) <==> NoLateUpdate(c, ops)
    ensures |Used(c, ops)| <= c.capacity - 2 ==> Cached(Run(c, ops), k)
  {
    RetentionInv(c, ops, k);
    forall i | 0 <= i < |ops| ensures |Used(c, ops[..i])| <= |Used(c, ops)| {
      UsedGrows(c, ops, i);
    }
  }

  lemma Smaller(a: set<string>, b: set<string>)
    requires a <= b
    ensures |a| <= |b|
  {
    assert b == a + (b - a);
  }

  lemma {:induction false} UsedGrows<V>(c: Lru<V>, ops: seq<Op<V>>, i: nat)
    requires i <= |ops|
    ensures Used(c, ops[..i]) <= Used(c, ops) && |Used(c, ops[..i])| <= |Used(c, ops)|
    decreases |ops|
  {
    if i == |ops| {
      assert ops[..i] == ops;
    } else {
      var before := ops[..|ops| - 1];
      UsedGrows(c, before, i);
      assert before[..i] == ops[..i] && Used(c, before) <= Used(c, ops);
      hide Used;
      Smaller(Used(c, ops[..i]), Used(c, ops));
    }
  }

  // ---- The bound is tight -------------------------------------------------------------------

  ghost function Stores<V>(keys: seq<string>, v: V): seq<Op<V>> {
    seq(|keys|, i requires 0 <= i < |keys| => Stored(keys[i], v))
  }

  lemma StoresStep<V>(c: Lru<V>, keys: seq<string>, v: V)
    requires keys != []
    ensures Used(c, Stores(keys, v)) == Used(c, Stores(keys[..|keys| - 1], v)) + {keys[|keys| - 1]}
  {
    hide Cached, Run;
    var front, last := keys[..|keys| - 1], keys[|keys| - 1];
    assert Stores(keys, v) == Stores(front, v) + [Stored(last, v)];
    UsedStep(c, Stores(front, v), Stored(last, v));
  }

  ghost function KeySet(keys: seq<string>): set<string> {
    set x | x in keys
  }

  lemma KeySetStep(keys: seq<string>)
    requires keys != []
    requires forall i, j :: 0 <= i < j < |keys| ==> keys[i] != keys[j]
    ensures var front, last := keys[..|keys| - 1], keys[|keys| - 1];
      KeySet(keys) == KeySet(front) + {last} && last !in KeySet(front)
  {
    assert keys == keys[..|keys| - 1] + [keys[|keys| - 1]];
  }

  lemma NoStores<V>(c: Lru<V>, v: V)
    ensures Used(c, Stores([], v)) == {} == KeySet([])
  {
    hide Cached, Run;
    assert Stores([], v) == [];
  }

  lemma {:induction false} UsedByStores<V>(c: Lru<V>, keys: seq<string>, v: V)
    requires forall i, j :: 0 <= i < j < |keys| ==> keys[i] != keys[j]
    ensures Used(c, Stores(keys, v)) == KeySet(keys)
    ensures |KeySet(keys)| == |keys|
    decreases |keys|
  {
    hide Used, Stores, KeySet;
    if keys == [] {
      NoStores(c, v);
    } else {
      UsedByStores(c, keys[..|keys| - 1], v);
      StoresStep(c, keys, v);
      KeySetStep(keys);
    }
  }

  /** With capacity - 1 other keys the key is lost, and lost to an update of a key that is in the
      cache at the time: no room was needed for it. */
  lemma CapacityMinusOneIsTooMany<V>(c: Lru<V>, k: string, others: seq<string>, v: V)
    requires Valid(c) && c.entries != [] && c.entries[0].0 == k && 2 <= c.capacity
    requires |others| == c.capacity - 1 && k !in others
    requires forall i, j :: 0 <= i < j < |others| ==> others[i] != others[j]
    ensures var ops := Stores(others, v) + [Stored(others[0], v)];
      && |Used(c, ops)| == c.capacity - 1
      && Cached(Run(c, Stores(others, v)), k)
      && !Cached(Run(c, ops), k)
  {
    hide Cached, Run, Find, Used, Stores, NoLateUpdate, LeavesAlone, Tracks, KeySet;
    var stores, again := Stores(others, v), Stored(others[0], v);
    UsedByStores(c, others, v);
    UsedStep(c, stores, again);
    FirstIsIn(others);
    assert Used(c, stores + [again]) == Used(c, stores);
    StoresLeaveAlone(others, k, v);
    StoresInTime(c, others, v);
    RetentionInv(c, stores, k);
    NoLateStep(c, stores, again);
    RetentionInv(c, stores + [again], k);
  }

  lemma FirstIsIn(keys: seq<string>)
    requires keys != []
    ensures keys[0] in KeySet(keys)
  {
  }

  lemma StoresLeaveAlone<V>(keys: seq<string>, k: string, v: V)
    requires keys != [] && k !in keys
    ensures LeavesAlone(Stores(keys, v), k) && LeavesAlone(Stores(keys, v) + [Stored(keys[0], v)], k)
  {
    assert forall i :: 0 <= i < |keys| ==> Stores(keys, v)[i].k == keys[i] && keys[i] in keys;
  }

  lemma StoresInTime<V>(c: Lru<V>, keys: seq<string>, v: V)
    requires |keys| == c.capacity - 1
    requires forall i, j :: 0 <= i < j < |keys| ==> keys[i] != keys[j]
    ensures NoLateUpdate(c, Stores(keys, v))
  {
    hide Used;
    var stores := Stores(keys, v);
    forall i | 0 <= i < |stores| ensures |Used(c, stores[..i])| < c.capacity - 1 {
      assert stores[..i] == Stores(keys[..i], v);
      UsedByStores(c, keys[..i], v);
    }
  }

  /** What evicting first means for one update: the key is reported as new exactly when it was
      not there, or was itself the entry given up; and a full cache that holds the key elsewhere
      comes out one short. */
  lemma EvictFirst<V>(c: Lru<V>, k: string, v: V)
    requires Valid(c) && c.capacity != 0
    ensures Existed(c, k) <==>
      Cached(c, k) && !(|c.entries| == c.capacity && Find(c.entries, k) == |c.entries| - 1)
    ensures |c.entries| == c.capacity && Existed(c, k) ==> |Update(c, k, v).entries| == c.capacity - 1
    ensures !(|c.entries| == c.capacity && Existed(c, k)) ==>
      |Update(c, k, v).entries| == if Cached(c, k) then |c.entries|
                                   else if |c.entries| == c.capacity then c.capacity
                                   else |c.entries| + 1
  {
    FindEvicted(c, k);
  }
}
