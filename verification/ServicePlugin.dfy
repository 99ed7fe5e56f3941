/** The service plugin: permanent decisions in the cache, everything else put to the agent. */
module ServicePlugin {
  import opened Types
  import opened Decimal
  import opened Translator
  import opened CapacityCache
  import Lru

  // ---- The composite key --------------------------------------------------------------------

  const MARK: char := '\U{1}'

  /** One of the three lengths at the end of the key. */
  function Length(n: nat): string {
    [MARK] + ToText(n)
  }

  function Hash(key: RequestData): string {
    key.client + key.user + key.privilege
    + Length(|key.client|) + Length(|key.user|) + Length(|key.privilege|)
  }

  /** A length is recovered from the right, whatever stands before it: the digits end at the
      last byte that is no digit, and that is the mark. */
  lemma {:induction false} LastLength(a: string, b: string, s: string, t: string)
    requires AllDigits(s) && AllDigits(t)
    requires a + [MARK] + s == b + [MARK] + t
    ensures a == b && s == t
    decreases |s|
  {
    var x, y := a + [MARK] + s, b + [MARK] + t;
    if s == [] || t == [] {
      assert x[|x| - 1] == if s == [] then MARK else s[|s| - 1];
      assert y[|y| - 1] == if t == [] then MARK else t[|t| - 1];
      assert !IsDigit(MARK);
      assert s == [] && t == [];
      assert x[..|x| - 1] == a && y[..|y| - 1] == b;
    } else {
      assert x[|x| - 1] == s[|s| - 1] && y[|y| - 1] == t[|t| - 1];
      assert x[..|x| - 1] == a + [MARK] + s[..|s| - 1];
      assert y[..|y| - 1] == b + [MARK] + t[..|t| - 1];
      LastLength(a, b, s[..|s| - 1], t[..|t| - 1]);
      assert s == s[..|s| - 1] + [s[|s| - 1]] && t == t[..|t| - 1] + [t[|t| - 1]];
    }
  }

  lemma LengthFromRight(a: string, b: string, m: nat, n: nat)
    requires a + Length(m) == b + Length(n)
    ensures a == b && m == n
  {
    assert a + [MARK] + ToText(m) == a + Length(m);
    assert b + [MARK] + ToText(n) == b + Length(n);
    LastLength(a, b, ToText(m), ToText(n));
    TextInjective(m, n);
  }

  /** Different triples never share a key, not even when the strings hold digits or the mark. */
  lemma HashInjective(x: RequestData, y: RequestData)
    requires Hash(x) == Hash(y)
    ensures x == y
  {
    hide Length;
    var a, b := x.client + x.user + x.privilege, y.client + y.user + y.privilege;
    LengthFromRight(a + Length(|x.client|) + Length(|x.user|), b + Length(|y.client|) + Length(|y.user|),
                    |x.privilege|, |y.privilege|);
    LengthFromRight(a + Length(|x.client|), b + Length(|y.client|), |x.user|, |y.user|);
    LengthFromRight(a, b, |x.client|, |y.client|);
    var c, u := |x.client|, |x.client| + |x.user|;
    assert a[..c] == x.client && a[c..u] == x.user && a[u..] == x.privilege;
    assert b[..c] == y.client && b[c..u] == y.user && b[u..] == y.privilege;
  }

  // ---- The history of decisions -------------------------------------------------------------

  datatype PluginEvent =
    | Checked(key: RequestData)
    | Updated(key: RequestData, agentData: string)
    | Invalidated

  predicate PerLife(answer: nat) {
    answer == ALLOW_PER_LIFE || answer == DENY_PER_LIFE
  }

  /** The permanent decision an update brings, if it brings one. */
  function Decision(types: PolicyTypes, agentData: string): Option<nat> {
    match DataToAnswer(types, agentData)
    case Ok(answer) => if PerLife(answer) then Some(answer) else None
    case Err(_) => None
  }

  /** The last permanent decision for exactly this triple since the last invalidation. */
  ghost function LastDecision(types: PolicyTypes, history: seq<PluginEvent>, key: RequestData): Option<nat> {
    if history == [] then None else
      var before, e := history[..|history| - 1], history[|history| - 1];
      match e
      case Invalidated => None
      case Checked(_) => LastDecision(types, before, key)
      case Updated(other, data) =>
        if other == key && Decision(types, data).Some? then Decision(types, data)
        else LastDecision(types, before, key)
  }

  /** How a history decides a triple, event by event: an update for it whose data convert to one of
      the two permanent answers settles it, an invalidation unsettles it, and nothing else counts. */
  lemma LastDecisionIs(types: PolicyTypes, history: seq<PluginEvent>, e: PluginEvent, key: RequestData)
    ensures LastDecision(types, [], key) == None
    ensures LastDecision(types, history + [e], key)
         == match e
            case Checked(_) => LastDecision(types, history, key)
            case Invalidated => None
            case Updated(other, data) =>
              if other != key then LastDecision(types, history, key)
              else
                match DataToAnswer(types, data)
                case Err(_) => LastDecision(types, history, key)
                case Ok(answer) =>
                  if answer == ALLOW_PER_LIFE then Some(ALLOW_PER_LIFE)
                  else if answer == DENY_PER_LIFE then Some(DENY_PER_LIFE)
                  else LastDecision(types, history, key)
  {
    hide DataToAnswer;
    assert (history + [e])[..|history|] == history;
  }

  /** What a history asks of the cache. */
  ghost function CacheOps(types: PolicyTypes, history: seq<PluginEvent>): seq<Lru.Op<nat>> {
    if history == [] then [] else
      CacheOps(types, history[..|history| - 1]) + CacheOp(types, history[|history| - 1])
  }

  ghost function CacheOp(types: PolicyTypes, e: PluginEvent): seq<Lru.Op<nat>> {
    match e
    case Checked(key) => [Lru.Looked(Hash(key))]
    case Updated(key, data) =>
      (match Decision(types, data)
       case Some(answer) => [Lru.Stored(Hash(key), answer)]
       case None => [])
    case Invalidated => [Lru.Cleared]
  }

  ghost function CacheAfter(types: PolicyTypes, capacity: nat, history: seq<PluginEvent>): Lru.Lru<nat> {
    Lru.Run(Lru.Empty(capacity), CacheOps(types, history))
  }

  /** The last value under a hashed key is the last decision for the triple: hashing loses nothing. */
  lemma {:induction false} LastStoredIsLastDecision(types: PolicyTypes, history: seq<PluginEvent>, key: RequestData)
    ensures Lru.LastStored(CacheOps(types, history), Hash(key)) == LastDecision(types, history, key)
    decreases |history|
  {
    hide Hash, Decision;
    if history != [] {
      var before, e := history[..|history| - 1], history[|history| - 1];
      LastStoredIsLastDecision(types, before, key);
      var ops, more := CacheOps(types, before), CacheOp(types, e);
      if more == [] {
        assert ops + more == ops;
      } else {
        assert (ops + more)[..|ops + more| - 1] == ops;
        if e.Updated? && Hash(e.key) == Hash(key) {
          HashInjective(e.key, key);
        }
      }
    }
  }

  /** After any history, what is cached for a triple is its last permanent decision. */
  lemma CachedIsLastDecision(types: PolicyTypes, capacity: nat, history: seq<PluginEvent>, key: RequestData)
    requires Lru.Cached(CacheAfter(types, capacity, history), Hash(key))
    ensures LastDecision(types, history, key)
         == Some(Lru.ValueOf(CacheAfter(types, capacity, history), Hash(key)))
  {
    Lru.CachedIsLastStored(capacity, CacheOps(types, history), Hash(key));
    LastStoredIsLastDecision(types, history, key);
  }

  lemma {:induction false} DecisionsPerLife(types: PolicyTypes, history: seq<PluginEvent>, key: RequestData)
    ensures LastDecision(types, history, key).Some? ==> PerLife(LastDecision(types, history, key).value)
    decreases |history|
  {
    if history != [] {
      DecisionsPerLife(types, history[..|history| - 1], key);
    }
  }

  lemma HistoryStep(types: PolicyTypes, capacity: nat, history: seq<PluginEvent>, e: PluginEvent)
    ensures CacheAfter(types, capacity, history + [e])
         == var c := CacheAfter(types, capacity, history);
            match e
            case Checked(key) => Lru.Get(c, Hash(key))
            case Updated(key, data) =>
              if Decision(types, data).Some? then Lru.Update(c, Hash(key), Decision(types, data).value) else c
            case Invalidated => Lru.Clear(c)
  {
    hide Hash, Decision;
    assert (history + [e])[..|history|] == history && (history + [e])[|history|] == e;
    var ops, more := CacheOps(types, history), CacheOp(types, e);
    if more == [] {
      assert ops + more == ops;
    } else {
      assert (ops + more)[..|ops|] == ops;
    }
  }

  // ---- How long a decision lasts ------------------------------------------------------------

  /** A check of this triple would find a decision. */
  ghost predicate Remembered(types: PolicyTypes, capacity: nat, history: seq<PluginEvent>, key: RequestData) {
    Lru.Cached(CacheAfter(types, capacity, history), Hash(key))
  }

  /** The triple an event after this history uses: by a permanent decision, or by a check that
      finds one. */
  ghost function Uses(types: PolicyTypes, capacity: nat, history: seq<PluginEvent>, e: PluginEvent): set<RequestData> {
    match e
    case Checked(key) => if Remembered(types, capacity, history, key) then {key} else {}
    case Updated(key, data) => if Decision(types, data).Some? then {key} else {}
    case Invalidated => {}
  }

  ghost function TriplesUsed(types: PolicyTypes, capacity: nat, made: seq<PluginEvent>,
                             later: seq<PluginEvent>): set<RequestData> {
    if later == [] then {} else
      var before, e := later[..|later| - 1], later[|later| - 1];
      TriplesUsed(types, capacity, made, before) + Uses(types, capacity, made + before, e)
  }

  /** Neither an invalidation nor a check or another decision about this triple. */
  ghost predicate LeavesAlone(types: PolicyTypes, later: seq<PluginEvent>, key: RequestData) {
    forall i :: 0 <= i < |later| ==>
      match later[i]
      case Checked(other) => other != key
      case Updated(other, data) => other == key ==> Decision(types, data).None?
      case Invalidated => false
  }

  ghost predicate Decides(types: PolicyTypes, e: PluginEvent) {
    e.Updated? && Decision(types, e.agentData).Some?
  }

  /** No permanent decision comes after capacity - 1 other triples have been used. */
  ghost predicate NoLateDecision(types: PolicyTypes, capacity: nat, made: seq<PluginEvent>, later: seq<PluginEvent>) {
    forall i :: 0 <= i < |later| && Decides(types, later[i])
      ==> |TriplesUsed(types, capacity, made, later[..i])| < capacity - 1
  }

  ghost function Hashes(keys: set<RequestData>): set<string> {
    set key | key in keys :: Hash(key)
  }

  lemma {:induction false} HashCount(keys: set<RequestData>)
    ensures |Hashes(keys)| == |keys|
  {
    hide Hash;
    if keys != {} {
      var key :| key in keys;
      HashCount(keys - {key});
      assert Hashes(keys) == Hashes(keys - {key}) + {Hash(key)};
      if other :| other in keys - {key} && Hash(other) == Hash(key) {
        HashInjective(other, key);
      }
    }
  }

  lemma CacheOpsStep(types: PolicyTypes, later: seq<PluginEvent>, e: PluginEvent)
    ensures CacheOps(types, later + [e]) == CacheOps(types, later) + CacheOp(types, e)
  {
    assert (later + [e])[..|later|] == later;
  }

  /** What happened later, seen from the cache right after the decision. */
  ghost predicate SeenFrom(types: PolicyTypes, capacity: nat, made: seq<PluginEvent>, later: seq<PluginEvent>,
                           k: string) {
    var c, ops := CacheAfter(types, capacity, made), CacheOps(types, later);
    && CacheAfter(types, capacity, made + later) == Lru.Run(c, ops)
    && Lru.Used(c, ops) == Hashes(TriplesUsed(types, capacity, made, later))
    && (Lru.NoLateUpdate(c, ops) <==> NoLateDecision(types, capacity, made, later))
    && Lru.LeavesAlone(ops, k)
  }

  lemma {:induction false} SeenFromCache(types: PolicyTypes, capacity: nat, made: seq<PluginEvent>,
                                         later: seq<PluginEvent>, key: RequestData)
    requires LeavesAlone(types, later, key) && CacheAfter(types, capacity, made).capacity == capacity
    ensures SeenFrom(types, capacity, made, later, Hash(key))
    decreases |later|
  {
    hide Hash, Decision;
    if later == [] {
      assert made + later == made;
    } else {
      var before, e := later[..|later| - 1], later[|later| - 1];
      assert later == before + [e];
      assert LeavesAlone(types, before, key);
      SeenFromCache(types, capacity, made, before, key);
      SeenStep(types, capacity, made, before, e, key);
    }
  }

  lemma SeenStep(types: PolicyTypes, capacity: nat, made: seq<PluginEvent>, before: seq<PluginEvent>, e: PluginEvent,
                 key: RequestData)
    requires LeavesAlone(types, before + [e], key) && CacheAfter(types, capacity, made).capacity == capacity
    requires SeenFrom(types, capacity, made, before, Hash(key))
    ensures SeenFrom(types, capacity, made, before + [e], Hash(key))
  {
    hide Hash, Decision, CacheAfter, CacheOps, Hashes, TriplesUsed, NoLateDecision;
    hide Lru.Run, Lru.Used, Lru.NoLateUpdate, Lru.Cached, Lru.Step;
    var later, c, ops := before + [e], CacheAfter(types, capacity, made), CacheOps(types, before);
    assert later[|before|] == e;
    assert made + later == (made + before) + [e];
    CacheOpsStep(types, before, e);
    TriplesStep(types, capacity, made, before, e);
    NoLateDecisionStep(types, capacity, made, before, e);
    CacheLater(types, capacity, made + before, e);
    HashesUnion(TriplesUsed(types, capacity, made, before), Uses(types, capacity, made + before, e));
    UsesHash(types, capacity, made + before, e);
    if CacheOp(types, e) == [] {
      assert ops + [] == ops;
    } else {
      var op := CacheOp(types, e)[0];
      assert CacheOp(types, e) == [op];
      Lru.UsedStep(c, ops, op);
      Lru.NoLateStep(c, ops, op);
      HashCount(TriplesUsed(types, capacity, made, before));
      OtherHash(types, e, key);
    }
  }

  lemma TriplesStep(types: PolicyTypes, capacity: nat, made: seq<PluginEvent>, before: seq<PluginEvent>, e: PluginEvent)
    ensures TriplesUsed(types, capacity, made, before + [e])
         == TriplesUsed(types, capacity, made, before) + Uses(types, capacity, made + before, e)
  {
    hide Uses;
    assert (before + [e])[..|before|] == before;
  }

  lemma NoLateDecisionStep(types: PolicyTypes, capacity: nat, made: seq<PluginEvent>, before: seq<PluginEvent>,
                           e: PluginEvent)
    ensures NoLateDecision(types, capacity, made, before + [e])
        <==> NoLateDecision(types, capacity, made, before)
             && (Decides(types, e) ==> |TriplesUsed(types, capacity, made, before)| < capacity - 1)
  {
    hide TriplesUsed, Decides;
    var later := before + [e];
    assert later[..|before|] == before && later[|before|] == e;
    assert forall i :: 0 <= i < |before| ==> later[..i] == before[..i] && later[i] == before[i];
    if NoLateDecision(types, capacity, made, later) {
      forall i | 0 <= i < |before| && Decides(types, before[i])
        ensures |TriplesUsed(types, capacity, made, before[..i])| < capacity - 1
      {
        assert Decides(types, later[i]);
      }
      assert Decides(types, e) ==> Decides(types, later[|before|]);
    }
  }

  lemma CacheLater(types: PolicyTypes, capacity: nat, history: seq<PluginEvent>, e: PluginEvent)
    ensures CacheAfter(types, capacity, history + [e])
         == if CacheOp(types, e) == [] then CacheAfter(types, capacity, history)
            else Lru.Step(CacheAfter(types, capacity, history), CacheOp(types, e)[0])
  {
    hide Hash, Decision, Lru.Step;
    CacheOpsStep(types, history, e);
    var ops, more := CacheOps(types, history), CacheOp(types, e);
    if more == [] {
      assert ops + more == ops;
    } else {
      assert (ops + more)[..|ops|] == ops;
    }
  }

  lemma HashesUnion(a: set<RequestData>, b: set<RequestData>)
    ensures Hashes(a + b) == Hashes(a) + Hashes(b)
  {
  }

  lemma UsesHash(types: PolicyTypes, capacity: nat, history: seq<PluginEvent>, e: PluginEvent)
    ensures Hashes(Uses(types, capacity, history, e))
         == if CacheOp(types, e) == [] then {}
            else
              var op := CacheOp(types, e)[0];
              var c := CacheAfter(types, capacity, history);
              if op.Stored? || (op.Looked? && Lru.Cached(c, op.k)) then {op.k} else {}
  {
    hide Hash, Decision, Lru.Cached, CacheAfter;
  }

  lemma OtherHash(types: PolicyTypes, e: PluginEvent, key: RequestData)
    requires LeavesAlone(types, [e], key) && CacheOp(types, e) != []
    ensures Lru.LeavesAlone(CacheOp(types, e), Hash(key))
  {
    hide Hash, Decision;
    assert [e][0] == e;
    if Hash(e.key) == Hash(key) {
      HashInjective(e.key, key);
    }
  }
  /** How long a permanent decision lasts. From its last use on, be that the decision itself (in a
      cache with room for one) or a check that found it, and while nothing invalidates the cache,
      checks that triple or decides on it again, a check finds it if and only if no later decision
      follows the use of capacity - 1 other triples. So it is safe for capacity - 2 of them. */
  lemma DecisionLasts(types: PolicyTypes, capacity: nat, history: seq<PluginEvent>, used: PluginEvent,
                      key: RequestData, later: seq<PluginEvent>)
    requires key in Uses(types, capacity, history, used) && (used.Updated? ==> capacity != 0)
    requires LeavesAlone(types, later, key)
    ensures var made := history + [used];
      && (Remembered(types, capacity, made + later, key) <==> NoLateDecision(types, capacity, made, later))
      && (|TriplesUsed(types, capacity, made, later)| <= capacity - 2 ==>
            Remembered(types, capacity, made + later, key))
  {
    hide Hash, Decision, CacheAfter, CacheOps, Hashes, TriplesUsed, NoLateDecision, Uses;
    hide Lru.Run, Lru.Cached, Lru.Used, Lru.NoLateUpdate, Lru.LeavesAlone;
    var made := history + [used];
    JustUsed(types, capacity, history, used, key);
    var c := CacheAfter(types, capacity, made);
    SeenFromCache(types, capacity, made, later, key);
    HashCount(TriplesUsed(types, capacity, made, later));
    Lru.Retention(c, CacheOps(types, later), Hash(key));
  }

  lemma JustUsed(types: PolicyTypes, capacity: nat, history: seq<PluginEvent>, used: PluginEvent, key: RequestData)
    requires key in Uses(types, capacity, history, used) && (used.Updated? ==> capacity != 0)
    ensures var c := CacheAfter(types, capacity, history + [used]);
      Lru.Valid(c) && c.capacity == capacity && c.entries != [] && c.entries[0].0 == Hash(key)
  {
    hide Hash, Decision, CacheOps, Lru.Find;
    var c := CacheAfter(types, capacity, history);
    var op := if used.Updated? then Lru.Stored(Hash(key), Decision(types, used.agentData).value)
              else Lru.Looked(Hash(key));
    Lru.RunValid(Lru.Empty<nat>(capacity), CacheOps(types, history));
    hide CacheAfter, Lru.Run;
    HistoryStep(types, capacity, history, used);
    Lru.StepValid(c, op);
    Lru.OwnUse(c, op);
  }

  /** Events that leave a triple alone leave its decision alone. */
  lemma {:induction false} DecisionStands(types: PolicyTypes, made: seq<PluginEvent>, later: seq<PluginEvent>,
                                          key: RequestData)
    requires LeavesAlone(types, later, key)
    ensures LastDecision(types, made + later, key) == LastDecision(types, made, key)
    decreases |later|
  {
    if later == [] {
      assert made + later == made;
    } else {
      var before, e := later[..|later| - 1], later[|later| - 1];
      assert LeavesAlone(types, before, key) && LeavesAlone(types, [e], key) by {
        assert later[|later| - 1] == e;
      }
      DecisionStands(types, made, before, key);
      assert (made + later)[..|made + later| - 1] == made + before;
      assert (made + later)[|made + later| - 1] == e;
    }
  }

  /** A user's permanent answer, from the decision on the agent sends to the checks that follow: data
      that convert to "allow for life" are remembered as exactly that, and so for "deny for life",
      over every later history that leaves the triple alone and is not too long for the cache. */
  lemma PermanentAnswerStands(types: PolicyTypes, capacity: nat, history: seq<PluginEvent>, key: RequestData,
                              data: string, later: seq<PluginEvent>)
    requires types.Valid() && LeavesAlone(types, later, key)
    requires DataToAnswer(types, data) == Ok(ALLOW_PER_LIFE) || DataToAnswer(types, data) == Ok(DENY_PER_LIFE)
    requires |TriplesUsed(types, capacity, history + [Updated(key, data)], later)| <= capacity - 2
    ensures var all := history + [Updated(key, data)] + later;
      && Remembered(types, capacity, all, key)
      && LastDecision(types, all, key) == Some(DataToAnswer(types, data).value)
  {
    hide DataToAnswer, Hash, TriplesUsed, LastDecision, Remembered, LeavesAlone;
    var update := Updated(key, data);
    LastDecisionIs(types, history, update, key);
    DecisionStands(types, history + [update], later, key);
    DecisionLasts(types, capacity, history, update, key, later);
  }

  /** After an invalidation nothing is found and nothing is decided. */
  lemma InvalidationForgets(types: PolicyTypes, capacity: nat, history: seq<PluginEvent>, key: RequestData)
    ensures !Remembered(types, capacity, history + [Invalidated], key)
    ensures LastDecision(types, history + [Invalidated], key) == None
  {
    hide Hash;
    HistoryStep(types, capacity, history, Invalidated);
    LastDecisionIs(types, history, Invalidated, key);
  }

  // ---- The plugin ---------------------------------------------------------------------------

  datatype PluginStatus = ANSWER_READY | ANSWER_NOTREADY | SUCCESS | ERROR

  const AGENT_TYPE: string := "AskUser"

  class AskUserPlugin {
    const types: PolicyTypes
    const cache: CapacityCache<RequestData, nat>
    ghost var history: seq<PluginEvent>

    /** The cache is what the history of calls makes of an empty one. */
    ghost predicate Valid()
      reads this, cache
    {
      && types.Valid()
      && cache.Valid() && cache.hasher == Hash && cache.capacity == CACHE_DEFAULT_CAPACITY
      && cache.View() == CacheAfter(types, CACHE_DEFAULT_CAPACITY, history)
    }

    constructor (types: PolicyTypes)
      requires types.Valid()
      ensures Valid() && history == [] && this.types == types && fresh(cache)
    {
      this.types := types;
      cache := new CapacityCache<RequestData, nat>(Hash, CACHE_DEFAULT_CAPACITY);
      history := [];
    }

    /** `check`. The answer is ready exactly when the triple is cached; it allows exactly when the
        last permanent decision for the triple was to allow, and denies exactly when it was to
        deny. When it is not ready, the data for the agent decode to the triple. */
    method Check(client: string, user: string, privilege: string)
      returns (status: PluginStatus, result: Option<nat>, requiredAgent: string, pluginData: string)
      requires Valid()
      modifies this, cache`keyUsage
      ensures Valid() && history == old(history) + [Checked(RequestData(client, user, privilege))]
      ensures var key := RequestData(client, user, privilege);
        && status == (if Lru.Cached(old(cache.View()), Hash(key)) then ANSWER_READY else ANSWER_NOTREADY)
        && (status == ANSWER_READY <==> Remembered(types, CACHE_DEFAULT_CAPACITY, old(history), key))
        && (status == ANSWER_READY ==>
              && (result == Some(types.allow) <==> LastDecision(types, old(history), key) == Some(ALLOW_PER_LIFE))
              && (result == Some(types.deny) <==> LastDecision(types, old(history), key) == Some(DENY_PER_LIFE)))
        && (status == ANSWER_NOTREADY ==>
              DecodeRequest(pluginData) == Some(key) && requiredAgent == AGENT_TYPE)
    {
      hide Hash, DecodeRequest, RequestToData, CacheAfter, Lru.Cached;
      var key := RequestData(client, user, privilege);
      requiredAgent, pluginData := "", "";
      result := cache.Get(key);
      HistoryStep(types, CACHE_DEFAULT_CAPACITY, history, Checked(key));
      ghost var before := history;
      history := history + [Checked(key)];
      if result.None? {
        pluginData := RequestToData(client, user, privilege);
        requiredAgent := AGENT_TYPE;
        RequestRoundTrip(client, user, privilege);
        status := ANSWER_NOTREADY;
      } else {
        CachedIsLastDecision(types, CACHE_DEFAULT_CAPACITY, before, key);
        DecisionsPerLife(types, before, key);
        result := Some(if result.value == ALLOW_PER_LIFE then types.allow else types.deny);
        status := ANSWER_READY;
      }
    }

    /** `update`. A permanent decision is remembered and turned into the predefined answer; any
        other answer is passed through; data that do not convert change nothing. */
    method Update(client: string, user: string, privilege: string, agentData: string)
      returns (status: PluginStatus, result: Option<nat>)
      requires Valid()
      modifies this, cache
      ensures Valid() && history == old(history) + [Updated(RequestData(client, user, privilege), agentData)]
      ensures match DataToAnswer(types, agentData)
              case Err(_) => status == ERROR && result == None
              case Ok(answer) =>
                && status == SUCCESS
                && result == Some(if answer == ALLOW_PER_LIFE then types.allow
                                  else if answer == DENY_PER_LIFE then types.deny
                                  else answer)
      ensures var key := RequestData(client, user, privilege);
        LastDecision(types, history, key)
        == match DataToAnswer(types, agentData)
           case Err(_) => LastDecision(types, old(history), key)
           case Ok(answer) =>
             if answer == ALLOW_PER_LIFE then Some(ALLOW_PER_LIFE)
             else if answer == DENY_PER_LIFE then Some(DENY_PER_LIFE)
             else LastDecision(types, old(history), key)
    {
      hide Hash, DataToAnswer, CacheAfter;
      var key := RequestData(client, user, privilege);
      HistoryStep(types, CACHE_DEFAULT_CAPACITY, history, Updated(key, agentData));
      LastDecisionIs(types, history, Updated(key, agentData), key);
      history := history + [Updated(key, agentData)];
      match DataToAnswer(types, agentData)
      case Err(_) =>
        status, result := ERROR, None;
      case Ok(answer) =>
        status, result := SUCCESS, Some(answer);
        if answer == ALLOW_PER_LIFE {
          var _ := cache.Update(key, answer);
          result := Some(types.allow);
        } else if answer == DENY_PER_LIFE {
          var _ := cache.Update(key, answer);
          result := Some(types.deny);
        }
    }

    method Invalidate()
      requires Valid()
      modifies this, cache
      ensures Valid() && history == old(history) + [Invalidated]
      ensures forall key :: LastDecision(types, history, key) == None
      ensures cache.View().entries == []
    {
      hide CacheAfter;
      forall key ensures LastDecision(types, history + [Invalidated], key) == None {
        LastDecisionIs(types, history, Invalidated, key);
      }
      HistoryStep(types, CACHE_DEFAULT_CAPACITY, history, Invalidated);
      history := history + [Invalidated];
      cache.Clear();
    }
  }
}
