/**
 * The Engraft-style two-phase store: a coordinator stamps a value with a per-key index, writes it to a majority,
 * confirms it with a majority and moves on. Every node is a replica and may be a coordinator.
 */
module TwoPhaseStore {
  import opened Basics
  import opened Quorums

  /** The stored bytes: an index and the payload behind it. */
  datatype Stamped = Stamped(index: nat, data: seq<nat>)

  // ---------------------------------------------------------------- the replica

  datatype OpType = Write | Custom | Other

  /** An operand as the handler reads it: as text, when it is valid UTF-8, and as raw bytes. */
  datatype Operand = Operand(text: Option<string>, raw: Stamped)

  datatype Op = Op(opType: OpType, operands: seq<Operand>)

  datatype Transaction = Transaction(is2pc: bool, onReceive: Option<seq<Op>>)

  type Store = map<string, Stamped>

  /** A well-formed phase message is a 2PC transaction whose first operation has a textual key and a value. */
  predicate WellFormed(tx: Transaction) {
    tx.is2pc && tx.onReceive.Some? && tx.onReceive.value != []
    && |tx.onReceive.value[0].operands| >= 2 && tx.onReceive.value[0].operands[0].text.Some?
  }

  /** Write overwrites blindly; Custom succeeds exactly on the stored value; `diskOk` is whether the put succeeds. */
  function Handle(store: Store, tx: Transaction, diskOk: bool): (r: (Store, bool)) {
    if !WellFormed(tx) then (store, false)
    else
      var op := tx.onReceive.value[0];
      var key, val := op.operands[0].text.value, op.operands[1].raw;
      match op.opType
      case Write => if diskOk then (store[key := val], true) else (store, false)
      case Custom => (store, key in store && store[key] == val)
      case Other => (store, false)
  }

  class Replica {
    var store: Store

    method HandlePhaseMessage(tx: Transaction, diskOk: bool) returns (success: bool)
      modifies this
      ensures (store, success) == Handle(old(store), tx, diskOk)
      ensures !WellFormed(tx) ==> !success && store == old(store)
      ensures WellFormed(tx) ==>
                var op := tx.onReceive.value[0];
                var key, val := op.operands[0].text.value, op.operands[1].raw;
                && (op.opType == Write ==> success == diskOk && store == if diskOk then old(store)[key := val] else old(store))
                && (op.opType != Write ==> store == old(store))
                && (op.opType == Custom ==> (success <==> key in store && store[key] == val))
                && (op.opType == Other ==> !success)
    {
      success := false;
      if !tx.is2pc {
        return;
      }
      if tx.onReceive.None? {
        return;
      }
      var ops := tx.onReceive.value;
      if ops == [] {
        return;
      }
      var op := ops[0];
      if |op.operands| < 2 {
        return;
      }
      if op.operands[0].text.None? {
        return;
      }
      var key, val := op.operands[0].text.value, op.operands[1].raw;
      match op.opType {
        case Write =>
          if !diskOk {
            return;
          }
          store := store[key := val];
          success := true;
        case Custom =>
          if key !in store || store[key] != val {
            return;
          }
          success := true;
        case Other =>
      }
    }
  }

  /** The transaction `generic_phase` sends: key, value and padding. */
  function PhaseTx(op: OpType, key: string, val: Stamped): Transaction {
    var padding := Operand(None, Stamped(0, []));
    Transaction(true, Some([Op(op, [Operand(Some(key), Stamped(0, [])), Operand(None, val), padding])]))
  }

  // ---------------------------------------------------------------- keys

  function FinalKey(name: string, key: string): string {
    name + ":" + key
  }

  lemma {:induction false} ColonPosition(a: string, k: string, b: string, l: string)
    requires ':' !in l && FinalKey(a, k) == FinalKey(b, l)
    ensures |k| >= |l|
  {
    var s := FinalKey(b, l);
    assert s[|a|] == FinalKey(a, k)[|a|] == ':';
    forall i | |b| < i < |s| ensures s[i] != ':' {
      assert s[i] == l[i - |b| - 1];
    }
  }

  /** Keys without a colon keep all coordinators' key spaces apart, whatever their names. */
  lemma {:induction false} PlainKeysInjective(a: string, k: string, b: string, l: string)
    requires ':' !in k && ':' !in l && FinalKey(a, k) == FinalKey(b, l)
    ensures a == b && k == l
  {
    ColonPosition(a, k, b, l);
    ColonPosition(b, l, a, k);
    Split(a, k, b, l);
  }

  lemma {:induction false} Split(a: string, k: string, b: string, l: string)
    requires FinalKey(a, k) == FinalKey(b, l) && |a| == |b|
    ensures a == b && k == l
  {
    var s := FinalKey(a, k);
    assert a == s[..|a|] && b == s[..|b|] && k == s[|a| + 1..] && l == s[|b| + 1..];
  }

  /** One name goes on from the other after a colon. */
  predicate Continues(b: string, a: string) {
    a + ":" <= b
  }

  /** A shorter name can share a final key only with a name that continues it. */
  lemma {:induction false} SharedMeansContinues(a: string, k: string, b: string, l: string)
    requires FinalKey(a, k) == FinalKey(b, l) && |a| < |b|
    ensures Continues(b, a)
  {
    var s := FinalKey(a, k);
    assert s[..|a| + 1] == a + ":" && s[..|b|] == b;
    assert b[..|a| + 1] == s[..|a| + 1];
  }

  /** Two nodes' key spaces are disjoint, for all keys, exactly when neither name continues the other. */
  lemma {:induction false} FinalKeyInjective(a: string, b: string)
    ensures (forall k, l :: FinalKey(a, k) == FinalKey(b, l) ==> a == b && k == l) <==> !Continues(b, a) && !Continues(a, b)
  {
    if Continues(b, a) {
      Collides(a, b);
    }
    if Continues(a, b) {
      Collides(b, a);
    }
    if !Continues(b, a) && !Continues(a, b) {
      forall k, l | FinalKey(a, k) == FinalKey(b, l) ensures a == b && k == l {
        if |a| < |b| {
          SharedMeansContinues(a, k, b, l);
        } else if |b| < |a| {
          SharedMeansContinues(b, l, a, k);
        } else {
          Split(a, k, b, l);
        }
      }
    }
  }

  lemma {:induction false} Collides(a: string, b: string)
    requires Continues(b, a)
    ensures FinalKey(a, b[|a| + 1..] + ":k") == FinalKey(b, "k") && a != b
  {
    assert b == a + ":" + b[|a| + 1..];
  }

  /** Two different nodes with one key. */
  lemma {:induction false} ColonBreaksKeys()
    ensures FinalKey("n1", "x:k") == FinalKey("n1:x", "k") && "n1" != "n1:x" && Continues("n1:x", "n1")
  {
    assert FinalKey("n1", "x:k") == ['n', '1', ':', 'x', ':', 'k'];
    assert FinalKey("n1:x", "k") == ['n', '1', ':', 'x', ':', 'k'];
    assert "n1:x" == "n1" + ":" + "x";
  }

  /** No other node's name starts this key: the key belongs to its origin alone. */
  ghost predicate Private(names: seq<string>, c: nat, key: string) {
    forall d :: 0 <= d < |names| && d != c ==> !(names[d] + ":" <= key)
  }

  /** A key that coordinator c may use: private to it, or without a colon of its own. */
  ghost predicate Usable(names: seq<string>, c: nat, k: string)
    requires c < |names|
  {
    ':' !in k || Private(names, c, FinalKey(names[c], k))
  }

  /** Where no name continues another, every key is usable. */
  lemma {:induction false} OrdinaryNamesUseAnyKey(names: seq<string>, c: nat, k: string)
    requires DistinctNames(names) && c < |names|
    requires forall i, j :: 0 <= i < |names| && 0 <= j < |names| && i != j ==> !Continues(names[i], names[j])
    ensures Usable(names, c, k)
  {
    var key := FinalKey(names[c], k);
    forall d | 0 <= d < |names| && d != c ensures !(names[d] + ":" <= key) {
      if names[d] + ":" <= key {
        var l := key[|names[d]| + 1..];
        assert key == FinalKey(names[d], l);
        FinalKeyInjective(names[d], names[c]);
      }
    }
  }

  // ---------------------------------------------------------------- the protocol

  datatype Request = Request(op: OpType, key: string, val: Stamped, tag: nat)

  datatype Reply = Reply(tag: nat, success: bool)

  datatype Coordinator =
    | Idle
    | Awaiting(op: OpType, key: string, val: Stamped, acks: set<nat>)

  /**
   * Channels are FIFO per pair of nodes and may lose messages. Counters are kept under the final key, of which
   * each coordinator uses only its own. `done` and `issued` are history: finished commands, and stamps handed out.
   */
  datatype System = System(
    names: seq<string>,
    stores: map<nat, Store>,
    counters: map<(nat, string), nat>,
    tags: map<nat, nat>,
    coords: map<nat, Coordinator>,
    requests: map<(nat, nat), seq<Request>>,
    replies: map<(nat, nat), seq<Reply>>,
    done: set<(string, Stamped)>,
    issued: map<(string, nat), seq<nat>>)

  function Get<K, V>(m: map<K, V>, k: K, default: V): V {
    if k in m then m[k] else default
  }

  datatype Step =
    | Begin(c: nat, k: string, data: seq<nat>)
    | BeginFails(c: nat, k: string)
    | Deliver(c: nat, r: nat, diskOk: bool)
    | LoseRequest(c: nat, r: nat, at: nat)
    | LoseReply(c: nat, r: nat, at: nat)
    | TakeReply(c: nat, r: nat)
    | Retry(c: nat)
    | Advance(c: nat)

  function Counter(s: System, c: nat, key: string): nat {
    Get(s.counters, (c, key), 0)
  }

  function Tag(s: System, c: nat): nat {
    Get(s.tags, c, 0)
  }

  function Coord(s: System, c: nat): Coordinator {
    Get(s.coords, c, Idle)
  }

  function StoreOf(s: System, r: nat): Store {
    Get(s.stores, r, map[])
  }

  function Requests(s: System, c: nat, r: nat): seq<Request> {
    Get(s.requests, (c, r), [])
  }

  function Replies(s: System, c: nat, r: nat): seq<Reply> {
    Get(s.replies, (c, r), [])
  }

  /** The index a replica stores for a key; 0 when it has none. */
  function Index(s: System, r: nat, key: string): nat {
    if key in StoreOf(s, r) then StoreOf(s, r)[key].index else 0
  }

  predicate Enabled(s: System, e: Step) {
    match e
    case Begin(c, k, _) => c < |s.names| && Coord(s, c).Idle?
    case BeginFails(c, k) => c < |s.names| && Coord(s, c).Idle?
    case Deliver(c, r, _) => Requests(s, c, r) != []
    case LoseRequest(c, r, at) => at < |Requests(s, c, r)|
    case LoseReply(c, r, at) => at < |Replies(s, c, r)|
    case TakeReply(c, r) => Replies(s, c, r) != []
    case Retry(c) => Coord(s, c).Awaiting?
    case Advance(c) => Coord(s, c).Awaiting? && |Coord(s, c).acks| + 1 >= Majority(|s.names|)
  }

  function Remove<T>(q: seq<T>, at: nat): seq<T>
    requires at < |q|
  {
    q[..at] + q[at + 1..]
  }

  /** One `generic_phase`: a fresh tag, one request to every other node, no acknowledgement yet. */
  function Broadcast(s: System, c: nat, op: OpType, key: string, val: Stamped): System {
    var tag := Tag(s, c) + 1;
    var q := Request(op, key, val, tag);
    s.(tags := s.tags[c := tag],
       coords := s.coords[c := Awaiting(op, key, val, {})],
       requests := EnqueueAll(s.requests, c, |s.names|, q))
  }

  function EnqueueAll(m: map<(nat, nat), seq<Request>>, c: nat, n: nat, q: Request): (m': map<(nat, nat), seq<Request>>)
    ensures forall d: nat, r: nat :: Get(m', (d, r), []) ==
                           Get(m, (d, r), []) + if d == c && r < n && r != c then [q] else []
  {
    m + map r | 0 <= r < n && r != c :: (c, r) := Get(m, (c, r), []) + [q]
  }

  function BumpCounter(s: System, c: nat, key: string): System {
    s.(counters := s.counters[(c, key) := Counter(s, c, key) + 1])
  }

  function Next(s: System, e: Step): System
    requires Enabled(s, e)
  {
    match e
    case Begin(c, k, data) =>
      var key := FinalKey(s.names[c], k);
      Broadcast(Stamp(s, c, key, data), c, Write, key, Stamped(Counter(s, c, key) + 1, data))
    case BeginFails(c, k) =>
      BumpCounter(s, c, FinalKey(s.names[c], k))
    case Deliver(c, r, diskOk) =>
      var q := Requests(s, c, r);
      var (store, ok) := Handle(StoreOf(s, r), PhaseTx(q[0].op, q[0].key, q[0].val), diskOk);
      s.(stores := s.stores[r := store],
         requests := s.requests[(c, r) := q[1..]],
         replies := s.replies[(c, r) := Replies(s, c, r) + [Reply(q[0].tag, ok)]])
    case LoseRequest(c, r, at) =>
      s.(requests := s.requests[(c, r) := Remove(Requests(s, c, r), at)])
    case LoseReply(c, r, at) =>
      s.(replies := s.replies[(c, r) := Remove(Replies(s, c, r), at)])
    case TakeReply(c, r) =>
      var p := Replies(s, c, r)[0];
      var s1 := s.(replies := s.replies[(c, r) := Replies(s, c, r)[1..]]);
      var a := Coord(s, c);
      if a.Awaiting? && p.success && p.tag == Tag(s, c) && r < |s.names| && r != c
      then s1.(coords := s.coords[c := a.(acks := a.acks + {r})]) else s1
    case Retry(c) =>
      var a := Coord(s, c);
      Broadcast(s, c, a.op, a.key, a.val)
    case Advance(c) =>
      var a := Coord(s, c);
      if a.op == Write then Broadcast(s, c, Custom, a.key, a.val)
      else s.(coords := s.coords[c := Idle], done := s.done + {(a.key, a.val)})
  }

  ghost predicate DistinctNames(names: seq<string>) {
    forall i, j :: 0 <= i < j < |names| ==> names[i] != names[j]
  }

  ghost predicate Init(s: System) {
    && DistinctNames(s.names)
    && s.stores == map[] && s.counters == map[] && s.tags == map[] && s.coords == map[]
    && s.requests == map[] && s.replies == map[] && s.done == {} && s.issued == map[]
  }

  ghost predicate LegalRun(s: System, es: seq<Step>)
    decreases |es|
  {
    es == [] || (Enabled(s, es[0]) && LegalRun(Next(s, es[0]), es[1..]))
  }

  ghost function Run(s: System, es: seq<Step>): System
    requires LegalRun(s, es)
    decreases |es|
  {
    if es == [] then s else Run(Next(s, es[0]), es[1..])
  }

  ghost predicate UsesOwnKey(names: seq<string>, e: Step) {
    e.Begin? && e.c < |names| ==> Usable(names, e.c, e.k)
  }

  ghost predicate UseOwnKeys(names: seq<string>, es: seq<Step>) {
    forall i :: 0 <= i < |es| ==> UsesOwnKey(names, es[i])
  }

  // ---------------------------------------------------------------- stamps count attempts

  /** How often a node has begun, or failed to begin, a command under a key. */
  function Attempts(names: seq<string>, es: seq<Step>, c: nat, key: string): nat
    decreases |es|
  {
    if es == [] then 0
    else
      var e := es[0];
      (if (e.Begin? || e.BeginFails?) && e.c == c < |names| && FinalKey(names[c], e.k) == key then 1 else 0)
      + Attempts(names, es[1..], c, key)
  }

  /** Over every run the counter is the number of attempts, failed ones included: no stamp is handed out twice. */
  lemma {:induction false} CounterCountsAttempts(s: System, es: seq<Step>, c: nat, key: string)
    requires LegalRun(s, es)
    ensures Run(s, es).names == s.names
    ensures Counter(Run(s, es), c, key) == Counter(s, c, key) + Attempts(s.names, es, c, key)
    decreases |es|
  {
    if es != [] {
      CounterStep(s, es[0], c, key);
      CounterCountsAttempts(Next(s, es[0]), es[1..], c, key);
    }
  }

  lemma {:induction false} CounterStep(s: System, e: Step, c: nat, key: string)
    requires Enabled(s, e)
    ensures Next(s, e).names == s.names
    ensures Counter(Next(s, e), c, key) == Counter(s, c, key)
         + if (e.Begin? || e.BeginFails?) && e.c == c && FinalKey(s.names[c], e.k) == key then 1 else 0
  {
    hide Next, FinalKey;
    if e.BeginFails? {
      BeginFailsCounts(s, e.c, e.k);
    }
    if e.Begin? {
      BeginCounts(s, e.c, e.k, e.data);
    } else if !e.BeginFails? {
      CountersStay(s, e);
    }
  }

  lemma BeginCounts(s: System, c: nat, k: string, data: seq<nat>)
    requires Enabled(s, Begin(c, k, data))
    ensures var t, key := Next(s, Begin(c, k, data)), FinalKey(s.names[c], k);
            t.names == s.names && t.counters == s.counters[(c, key) := Counter(s, c, key) + 1]
  {
    hide EnqueueAll, FinalKey;
  }

  lemma BeginFailsCounts(s: System, c: nat, k: string)
    requires Enabled(s, BeginFails(c, k))
    ensures var t, key := Next(s, BeginFails(c, k)), FinalKey(s.names[c], k);
            t.names == s.names && t.counters == s.counters[(c, key) := Counter(s, c, key) + 1]
  {
    hide FinalKey;
  }

  lemma CountersStay(s: System, e: Step)
    requires Enabled(s, e) && !e.Begin? && !e.BeginFails?
    ensures Next(s, e).names == s.names && Next(s, e).counters == s.counters
  {
    hide Broadcast, Handle, Majority, FinalKey, Remove;
    if e.Retry? || e.Advance? {
      var a := Coord(s, e.c);
      BroadcastKeepsCounters(s, e.c, if e.Retry? then a.op else Custom, a.key, a.val);
    }
  }

  lemma BroadcastKeepsCounters(s: System, c: nat, op: OpType, key: string, val: Stamped)
    ensures var t := Broadcast(s, c, op, key, val); t.names == s.names && t.counters == s.counters
  {
    hide EnqueueAll;
  }

  /** What a command is stamped with, and where it goes: to the node's own store, and to every other node. */
  lemma {:induction false} BeginStamps(s: System, c: nat, k: string, data: seq<nat>, r: nat)
    requires Enabled(s, Begin(c, k, data)) && r < |s.names|
    ensures var t, key := Next(s, Begin(c, k, data)), FinalKey(s.names[c], k);
            var val := Stamped(Counter(s, c, key) + 1, data);
            && key in StoreOf(t, c) && StoreOf(t, c)[key] == val && Coord(t, c) == Awaiting(Write, key, val, {})
            && (r != c ==> Requests(t, c, r) == Requests(s, c, r) + [Request(Write, key, val, Tag(s, c) + 1)])
  {
    hide FinalKey, Broadcast;
    var key := FinalKey(s.names[c], k);
    BroadcastReaches(Stamp(s, c, key, data), c, Write, key, Stamped(Counter(s, c, key) + 1, data), r);
  }

  /** A phase that is retried, or the second phase, is sent to every other node under a fresh tag, and starts without acknowledgements. */
  lemma {:induction false} PhaseIsSent(s: System, e: Step, r: nat)
    requires Enabled(s, e) && (e.Retry? || (e.Advance? && Coord(s, e.c).op == Write)) && r < |s.names|
    ensures var t, a := Next(s, e), Coord(s, e.c);
            var op := if e.Retry? then a.op else Custom;
            && t.stores == s.stores && Coord(t, e.c) == Awaiting(op, a.key, a.val, {})
            && (r != e.c ==> Requests(t, e.c, r) == Requests(s, e.c, r) + [Request(op, a.key, a.val, Tag(s, e.c) + 1)])
  {
    hide Broadcast, Majority;
    var a := Coord(s, e.c);
    BroadcastReaches(s, e.c, if e.Retry? then a.op else Custom, a.key, a.val, r);
  }

  lemma BroadcastReaches(s: System, c: nat, op: OpType, key: string, val: Stamped, r: nat)
    ensures var t := Broadcast(s, c, op, key, val);
            && t.stores == s.stores && Coord(t, c) == Awaiting(op, key, val, {})
            && (r < |s.names| && r != c ==> Requests(t, c, r) == Requests(s, c, r) + [Request(op, key, val, Tag(s, c) + 1)])
  {
  }

  // ---------------------------------------------------------------- the invariant

  ghost predicate Owns(names: seq<string>, c: nat, key: string) {
    c < |names| && exists k :: Usable(names, c, k) && key == FinalKey(names[c], k)
  }

  lemma {:induction false} OwnerUnique(names: seq<string>, c: nat, d: nat, key: string)
    requires DistinctNames(names) && Owns(names, c, key) && Owns(names, d, key)
    ensures c == d
  {
    var k :| Usable(names, c, k) && key == FinalKey(names[c], k);
    var l :| Usable(names, d, l) && key == FinalKey(names[d], l);
    assert names[c] + ":" <= key && names[d] + ":" <= key;
    if c != d {
      PlainKeysInjective(names[c], k, names[d], l);
    }
  }

  ghost predicate WasIssued(issued: map<(string, nat), seq<nat>>, key: string, val: Stamped) {
    (key, val.index) in issued && issued[(key, val.index)] == val.data
  }

  /** A request in flight: own key, stamp handed out, not ahead of the counter, not behind the replica. */
  ghost predicate RequestOk(s: System, c: nat, r: nat, q: Request) {
    && Owns(s.names, c, q.key) && WasIssued(s.issued, q.key, q.val)
    && Index(s, r, q.key) <= q.val.index <= Counter(s, c, q.key)
    && q.tag <= Tag(s, c)
    && (q.tag == Tag(s, c) && Coord(s, c).Awaiting? ==> q.key == Coord(s, c).key && q.val == Coord(s, c).val)
  }

  ghost predicate ChannelOk(s: System, c: nat, r: nat) {
    var q := Requests(s, c, r);
    && (c == r ==> q == [])
    && (forall i :: 0 <= i < |q| ==> RequestOk(s, c, r, q[i]))
    && (forall i, j :: 0 <= i < j < |q| && q[i].key == q[j].key ==> q[i].val.index <= q[j].val.index)
  }

  /** A successful reply to the current broadcast proves the replica has caught up with the stamp. */
  ghost predicate ReplyOk(s: System, c: nat, r: nat, p: Reply) {
    && p.tag <= Tag(s, c)
    && (p.success && p.tag == Tag(s, c) && Coord(s, c).Awaiting? ==> Index(s, r, Coord(s, c).key) >= Coord(s, c).val.index)
  }

  ghost predicate RepliesOk(s: System, c: nat, r: nat) {
    forall i :: 0 <= i < |Replies(s, c, r)| ==> ReplyOk(s, c, r, Replies(s, c, r)[i])
  }

  ghost predicate CoordinatorOk(s: System, c: nat) {
    Coord(s, c).Awaiting? ==>
      var a := Coord(s, c);
      && Owns(s.names, c, a.key) && WasIssued(s.issued, a.key, a.val)
      && a.val.index == Counter(s, c, a.key)
      && Index(s, c, a.key) >= a.val.index
      && (forall r :: r in a.acks ==> r < |s.names| && r != c && Index(s, r, a.key) >= a.val.index)
  }

  ghost predicate StoreOk(s: System, r: nat) {
    forall key :: key in StoreOf(s, r) ==> WasIssued(s.issued, key, StoreOf(s, r)[key])
  }

  /** Stamps handed out for a key never exceed its owner's counter. */
  ghost predicate IssuedOk(s: System) {
    && (forall p :: p in s.issued ==> p.1 >= 1)
    && (forall c, p :: p in s.issued && Owns(s.names, c, p.0) ==> p.1 <= Counter(s, c, p.0))
  }

  ghost function Holders(s: System, key: string, index: nat): set<nat> {
    set r | 0 <= r < |s.names| && Index(s, r, key) >= index
  }

  ghost predicate DoneOk(s: System) {
    forall d :: d in s.done ==>
      WasIssued(s.issued, d.0, d.1) && |Holders(s, d.0, d.1.index)| >= Majority(|s.names|)
  }

  ghost predicate Inv(s: System) {
    && DistinctNames(s.names)
    && (forall c, r :: ChannelOk(s, c, r))
    && (forall c, r :: RepliesOk(s, c, r))
    && (forall c :: CoordinatorOk(s, c))
    && (forall r :: StoreOk(s, r))
    && IssuedOk(s)
    && DoneOk(s)
  }

  // ---------------------------------------------------------------- every step keeps it

  lemma InitHolds(s: System)
    requires Init(s)
    ensures Inv(s)
  {
  }

  /** Replicas never hold an index beyond the owner's counter. */
  lemma {:induction false} StoredBelowCounter(s: System, c: nat, r: nat, key: string)
    requires Inv(s) && Owns(s.names, c, key)
    ensures Index(s, r, key) <= Counter(s, c, key)
  {
    if key in StoreOf(s, r) {
      assert StoreOk(s, r) && WasIssued(s.issued, key, StoreOf(s, r)[key]);
      assert (key, StoreOf(s, r)[key].index) in s.issued;
    }
  }

  ghost predicate IndicesGrow(s: System, s': System) {
    && s.names == s'.names && s.done <= s'.done
    && (forall r, key :: Index(s, r, key) <= Index(s', r, key))
  }

  lemma {:induction false} HoldersGrow(s: System, s': System, key: string, index: nat)
    requires IndicesGrow(s, s')
    ensures Holders(s, key, index) <= Holders(s', key, index)
    ensures |Holders(s, key, index)| <= |Holders(s', key, index)|
  {
    var a, b := Holders(s, key, index), Holders(s', key, index);
    assert b == a + (b - a);
  }

  lemma {:induction false} DoneStays(s: System, s': System)
    requires DoneOk(s) && IndicesGrow(s, s') && s'.done == s.done
    requires forall key, val :: WasIssued(s.issued, key, val) ==> WasIssued(s'.issued, key, val)
    ensures DoneOk(s')
  {
    forall d | d in s'.done ensures WasIssued(s'.issued, d.0, d.1) && |Holders(s', d.0, d.1.index)| >= Majority(|s'.names|) {
      HoldersGrow(s, s', d.0, d.1.index);
    }
  }

  lemma Parts(s: System, c: nat, r: nat)
    requires Inv(s)
    ensures ChannelOk(s, c, r) && RepliesOk(s, c, r) && CoordinatorOk(s, c) && StoreOk(s, r) && DistinctNames(s.names)
  {
  }

  lemma {:induction false} BroadcastKeeps(s: System, c: nat, op: OpType, key: string, val: Stamped)
    requires Inv(s) && Owns(s.names, c, key) && WasIssued(s.issued, key, val)
    requires val.index == Counter(s, c, key) && Index(s, c, key) >= val.index
    ensures Inv(Broadcast(s, c, op, key, val))
    ensures IndicesGrow(s, Broadcast(s, c, op, key, val))
  {
    hide Owns, WasIssued, EnqueueAll;
    var s' := Broadcast(s, c, op, key, val);
    forall d, r ensures ChannelOk(s', d, r) {
      BroadcastChannel(s, c, op, key, val, d, r);
    }
    forall d, r ensures RepliesOk(s', d, r) {
      assert RepliesOk(s, d, r) && Replies(s', d, r) == Replies(s, d, r);
    }
    forall d ensures CoordinatorOk(s', d) {
      assert CoordinatorOk(s, d);
    }
    forall r ensures StoreOk(s', r) {
      assert StoreOk(s, r) && StoreOf(s', r) == StoreOf(s, r);
    }
    DoneStays(s, s');
  }

  lemma {:induction false} BroadcastRequest(s: System, c: nat, op: OpType, key: string, val: Stamped, d: nat, r: nat, q: Request)
    requires Inv(s) && Owns(s.names, c, key) && WasIssued(s.issued, key, val) && val.index == Counter(s, c, key)
    requires RequestOk(s, d, r, q) || (d == c && q == Request(op, key, val, Tag(s, c) + 1))
    ensures RequestOk(Broadcast(s, c, op, key, val), d, r, q)
  {
    hide Inv, Owns, WasIssued, EnqueueAll;
    StoredBelowCounter(s, c, r, key);
  }

  lemma {:induction false} BroadcastChannel(s: System, c: nat, op: OpType, key: string, val: Stamped, d: nat, r: nat)
    requires Inv(s) && Owns(s.names, c, key) && WasIssued(s.issued, key, val)
    requires val.index == Counter(s, c, key)
    ensures ChannelOk(Broadcast(s, c, op, key, val), d, r)
  {
    hide Inv, Owns, WasIssued, EnqueueAll, CoordinatorOk, RepliesOk, StoreOk;
    var s' := Broadcast(s, c, op, key, val);
    Parts(s, d, r);
    var q, sent := Requests(s, d, r), Request(op, key, val, Tag(s, c) + 1);
    var q' := q + if d == c && r < |s.names| && r != c then [sent] else [];
    assert Requests(s', d, r) == q';
    forall i | 0 <= i < |q'| ensures RequestOk(s', d, r, q'[i]) {
      BroadcastRequest(s, c, op, key, val, d, r, q'[i]);
    }
  }

  /** The state after stamping and storing locally, before the broadcast. */
  function Stamp(s: System, c: nat, key: string, data: seq<nat>): System {
    var val := Stamped(Counter(s, c, key) + 1, data);
    BumpCounter(s, c, key).(stores := s.stores[c := StoreOf(s, c)[key := val]],
                            issued := s.issued[(key, val.index) := data])
  }

  /** A fresh stamp overwrites no earlier one. */
  lemma {:induction false} FreshStamp(s: System, c: nat, key: string, data: seq<nat>, key': string, val': Stamped)
    requires Inv(s) && Owns(s.names, c, key) && WasIssued(s.issued, key', val')
    ensures WasIssued(Stamp(s, c, key, data).issued, key', val')
  {
    var p := (key', val'.index);
    assert p in s.issued;
    assert p.0 == key ==> p.1 <= Counter(s, c, p.0);
  }

  lemma {:induction false} StampGrows(s: System, c: nat, key: string, data: seq<nat>)
    requires Inv(s) && Owns(s.names, c, key)
    ensures IndicesGrow(s, Stamp(s, c, key, data))
    ensures forall k, val :: WasIssued(s.issued, k, val) ==> WasIssued(Stamp(s, c, key, data).issued, k, val)
  {
    hide Inv, Owns;
    StoredBelowCounter(s, c, c, key);
    forall k, val | WasIssued(s.issued, k, val) ensures WasIssued(Stamp(s, c, key, data).issued, k, val) {
      FreshStamp(s, c, key, data, k, val);
    }
  }

  lemma {:induction false} StampStore(s: System, c: nat, key: string, data: seq<nat>, r: nat)
    requires Inv(s) && Owns(s.names, c, key)
    ensures StoreOk(Stamp(s, c, key, data), r)
  {
    hide Inv, Owns, ChannelOk, RepliesOk, CoordinatorOk;
    StampGrows(s, c, key, data);
    Parts(s, c, r);
    var s' := Stamp(s, c, key, data);
    forall k | k in StoreOf(s', r) ensures WasIssued(s'.issued, k, StoreOf(s', r)[k]) {
      assert (r != c || k != key) ==> WasIssued(s.issued, k, StoreOf(s, r)[k]);
    }
  }

  lemma {:induction false} StampCoordinator(s: System, c: nat, key: string, data: seq<nat>, d: nat)
    requires Inv(s) && Owns(s.names, c, key) && Coord(s, c).Idle?
    ensures CoordinatorOk(Stamp(s, c, key, data), d)
  {
    hide Inv, Owns, WasIssued, ChannelOk, RepliesOk, StoreOk;
    StampGrows(s, c, key, data);
    Parts(s, d, d);
  }

  lemma {:induction false} StampKeeps(s: System, c: nat, key: string, data: seq<nat>)
    requires Inv(s) && Owns(s.names, c, key) && Coord(s, c).Idle?
    ensures Inv(Stamp(s, c, key, data))
    ensures IndicesGrow(s, Stamp(s, c, key, data))
    ensures var val := Stamped(Counter(s, c, key) + 1, data);
            var s' := Stamp(s, c, key, data);
            WasIssued(s'.issued, key, val) && Counter(s', c, key) == val.index == Index(s', c, key) && s'.names == s.names
  {
    hide Owns, ChannelOk, StoreOk, CoordinatorOk, IssuedOk;
    var s' := Stamp(s, c, key, data);
    StampGrows(s, c, key, data);
    forall d, r ensures ChannelOk(s', d, r) {
      StampChannel(s, c, key, data, d, r);
    }
    forall d, r ensures RepliesOk(s', d, r) {
      assert RepliesOk(s, d, r) && Replies(s', d, r) == Replies(s, d, r);
    }
    forall d ensures CoordinatorOk(s', d) {
      StampCoordinator(s, c, key, data, d);
    }
    forall r ensures StoreOk(s', r) {
      StampStore(s, c, key, data, r);
    }
    StampIssued(s, c, key, data);
    DoneStays(s, s');
  }

  lemma {:induction false} StampIssued(s: System, c: nat, key: string, data: seq<nat>)
    requires Inv(s) && Owns(s.names, c, key)
    ensures IssuedOk(Stamp(s, c, key, data))
  {
    var s' := Stamp(s, c, key, data);
    forall d, p | p in s'.issued && Owns(s'.names, d, p.0) ensures p.1 <= Counter(s', d, p.0) {
      if p == (key, Counter(s, c, key) + 1) {
        OwnerUnique(s.names, c, d, key);
      } else {
        assert p in s.issued;
      }
    }
  }

  lemma {:induction false} StampChannel(s: System, c: nat, key: string, data: seq<nat>, d: nat, r: nat)
    requires Inv(s) && Owns(s.names, c, key) && Coord(s, c).Idle?
    ensures ChannelOk(Stamp(s, c, key, data), d, r)
  {
    hide Inv, Owns, WasIssued;
    var s' := Stamp(s, c, key, data);
    Parts(s, d, r);
    var q := Requests(s, d, r);
    assert Requests(s', d, r) == q;
    forall i | 0 <= i < |q| ensures RequestOk(s', d, r, q[i]) {
      assert RequestOk(s, d, r, q[i]);
      FreshStamp(s, c, key, data, q[i].key, q[i].val);
      if r == c && q[i].key == key {
        OwnerUnique(s.names, c, d, key);
      }
    }
  }

  lemma {:induction false} BeginFailsKeeps(s: System, c: nat, key: string)
    requires Inv(s) && Coord(s, c).Idle?
    ensures Inv(BumpCounter(s, c, key))
  {
    hide Owns, WasIssued;
    var s' := BumpCounter(s, c, key);
    forall d, r ensures ChannelOk(s', d, r) {
      assert ChannelOk(s, d, r) && Requests(s', d, r) == Requests(s, d, r);
      forall i | 0 <= i < |Requests(s, d, r)| ensures RequestOk(s', d, r, Requests(s, d, r)[i]) {
        assert RequestOk(s, d, r, Requests(s, d, r)[i]);
      }
    }
    forall d, r ensures RepliesOk(s', d, r) {
      assert RepliesOk(s, d, r) && Replies(s', d, r) == Replies(s, d, r);
    }
    forall d ensures CoordinatorOk(s', d) {
      assert CoordinatorOk(s, d);
    }
    forall r ensures StoreOk(s', r) {
      assert StoreOk(s, r) && StoreOf(s', r) == StoreOf(s, r);
    }
    DoneStays(s, s');
  }

  /** What a delivery does to the replica: nothing, or it raises one key of the sender to the request's stamp. */
  lemma {:induction false} DeliverStore(s: System, c: nat, r: nat, diskOk: bool)
    requires Inv(s) && Requests(s, c, r) != []
    ensures var s' := Next(s, Deliver(c, r, diskOk));
            var q := Requests(s, c, r)[0];
            && IndicesGrow(s, s')
            && (forall k :: k != q.key ==> Index(s', r, k) == Index(s, r, k))
            && Index(s', r, q.key) <= q.val.index
            && (Last(Replies(s', c, r)).success ==> Index(s', r, q.key) == q.val.index)
            && (forall d :: d != r ==> StoreOf(s', d) == StoreOf(s, d))
            && StoreOk(s', r)
  {
    hide Owns, WasIssued, RepliesOk, CoordinatorOk, IssuedOk, DoneOk, Majority;
    assert ChannelOk(s, c, r) && RequestOk(s, c, r, Requests(s, c, r)[0]) && StoreOk(s, r);
  }

  function Last<T>(q: seq<T>): T
    requires q != []
  {
    q[|q| - 1]
  }

  lemma {:induction false} DeliverKeeps(s: System, c: nat, r: nat, diskOk: bool)
    requires Inv(s) && Requests(s, c, r) != []
    ensures Inv(Next(s, Deliver(c, r, diskOk)))
    ensures IndicesGrow(s, Next(s, Deliver(c, r, diskOk)))
  {
    hide Owns, WasIssued;
    var s' := Next(s, Deliver(c, r, diskOk));
    DeliverStore(s, c, r, diskOk);
    forall d, t ensures ChannelOk(s', d, t) {
      DeliverChannel(s, c, r, diskOk, d, t);
    }
    forall d, t ensures RepliesOk(s', d, t) {
      DeliverReplies(s, c, r, diskOk, d, t);
    }
    forall d ensures CoordinatorOk(s', d) {
      assert CoordinatorOk(s, d);
    }
    forall t ensures StoreOk(s', t) {
      assert StoreOk(s, t);
    }
    DoneStays(s, s');
  }

  lemma {:induction false} DeliverRequest(s: System, c: nat, r: nat, diskOk: bool, d: nat, t: nat, i: nat)
    requires Inv(s) && Requests(s, c, r) != [] && i < |Requests(s, d, t)| && (d == c && t == r ==> i > 0)
    ensures RequestOk(Next(s, Deliver(c, r, diskOk)), d, t, Requests(s, d, t)[i])
  {
    hide Inv, Owns, WasIssued, StoreOk, Handle, CoordinatorOk, RepliesOk;
    var head, q := Requests(s, c, r)[0], Requests(s, d, t)[i];
    DeliverStore(s, c, r, diskOk);
    Parts(s, d, t);
    Parts(s, c, r);
    assert RequestOk(s, c, r, head) && RequestOk(s, d, t, q);
    if t == r && q.key == head.key {
      OwnerUnique(s.names, c, d, head.key);
    }
  }

  lemma {:induction false} DeliverChannel(s: System, c: nat, r: nat, diskOk: bool, d: nat, t: nat)
    requires Inv(s) && Requests(s, c, r) != []
    ensures ChannelOk(Next(s, Deliver(c, r, diskOk)), d, t)
  {
    hide Inv, RequestOk, Handle, CoordinatorOk, RepliesOk, StoreOk;
    var s' := Next(s, Deliver(c, r, diskOk));
    Parts(s, d, t);
    var q, q' := Requests(s, d, t), Requests(s', d, t);
    var skip := if d == c && t == r then 1 else 0;
    assert q' == q[skip..];
    forall i | 0 <= i < |q'| ensures RequestOk(s', d, t, q'[i]) {
      assert q'[i] == q[i + skip];
      DeliverRequest(s, c, r, diskOk, d, t, i + skip);
    }
  }

  lemma {:induction false} DeliverReplies(s: System, c: nat, r: nat, diskOk: bool, d: nat, t: nat)
    requires Inv(s) && Requests(s, c, r) != []
    ensures RepliesOk(Next(s, Deliver(c, r, diskOk)), d, t)
  {
    hide Owns, WasIssued;
    DeliverStore(s, c, r, diskOk);
    var s' := Next(s, Deliver(c, r, diskOk));
    assert RepliesOk(s, d, t) && ChannelOk(s, c, r) && RequestOk(s, c, r, Requests(s, c, r)[0]);
    var p, p' := Replies(s, d, t), Replies(s', d, t);
    forall i | 0 <= i < |p'| ensures ReplyOk(s', d, t, p'[i]) {
      if i < |p| {
        assert p'[i] == p[i] && ReplyOk(s, d, t, p[i]);
      } else {
        assert d == c && t == r && p'[i] == Last(Replies(s', c, r));
      }
    }
  }

  /** Losing messages, and reading replies, changes only the channels and the set of acknowledgements. */
  ghost predicate Quiet(s: System, s': System) {
    && s'.names == s.names && s'.stores == s.stores && s'.counters == s.counters
    && s'.tags == s.tags && s'.issued == s.issued && s.done <= s'.done
    && (forall c :: Coord(s', c).Awaiting? ==>
          Coord(s, c).Awaiting? && Coord(s', c).key == Coord(s, c).key && Coord(s', c).val == Coord(s, c).val)
    && (forall c, r :: Subsequence(Requests(s', c, r), Requests(s, c, r)))
    && (forall c, r, i :: 0 <= i < |Replies(s', c, r)| ==> Replies(s', c, r)[i] in Replies(s, c, r))
  }

  /** Order-preserving: every two requests left were there in the same order. */
  ghost predicate Subsequence(q': seq<Request>, q: seq<Request>) {
    && (forall i :: 0 <= i < |q'| ==> q'[i] in q)
    && (forall i, j :: 0 <= i < j < |q'| ==> Before(q, q'[i], q'[j]))
    && (q == [] ==> q' == [])
  }

  ghost predicate Before(q: seq<Request>, a: Request, b: Request) {
    exists i, j :: 0 <= i < j < |q| && q[i] == a && q[j] == b
  }

  lemma {:induction false} RemoveIsSubsequence(q: seq<Request>, at: nat)
    requires at < |q|
    ensures Subsequence(Remove(q, at), q)
  {
    var q' := Remove(q, at);
    forall i, j | 0 <= i < j < |q'| ensures Before(q, q'[i], q'[j]) {
      var i0, j0 := if i < at then i else i + 1, if j < at then j else j + 1;
      assert q[i0] == q'[i] && q[j0] == q'[j];
    }
  }

  lemma {:induction false} SameIsSubsequence(q: seq<Request>)
    ensures Subsequence(q, q)
  {
    forall i, j | 0 <= i < j < |q| ensures Before(q, q[i], q[j]) {
    }
  }

  lemma {:induction false} QuietChannel(s: System, s': System, c: nat, r: nat)
    requires Inv(s) && Quiet(s, s')
    ensures ChannelOk(s', c, r)
  {
    hide Owns, WasIssued, Before;
    assert ChannelOk(s, c, r);
    var q, q' := Requests(s, c, r), Requests(s', c, r);
    assert Subsequence(q', q);
    forall i | 0 <= i < |q'| ensures RequestOk(s', c, r, q'[i]) {
      assert RequestOk(s, c, r, q'[i]);
    }
    forall i, j | 0 <= i < j < |q'| && q'[i].key == q'[j].key ensures q'[i].val.index <= q'[j].val.index {
      assert Before(q, q'[i], q'[j]);
      OrderedPair(q, q'[i], q'[j]);
    }
  }

  lemma OrderedPair(q: seq<Request>, a: Request, b: Request)
    requires forall i, j :: 0 <= i < j < |q| && q[i].key == q[j].key ==> q[i].val.index <= q[j].val.index
    requires Before(q, a, b) && a.key == b.key
    ensures a.val.index <= b.val.index
  {
  }

  /** Every quiet step keeps the invariant, given what it promises about acknowledgements and finished commands. */
  lemma {:induction false} QuietKeeps(s: System, s': System)
    requires Inv(s) && Quiet(s, s') && DoneOk(s')
    requires forall c, r :: Coord(s', c).Awaiting? && r in Coord(s', c).acks ==>
               r in Coord(s, c).acks || (r < |s.names| && r != c && Index(s, r, Coord(s, c).key) >= Coord(s, c).val.index)
    ensures Inv(s') && IndicesGrow(s, s')
  {
    hide Owns, WasIssued, Subsequence;
    forall c, r ensures ChannelOk(s', c, r) {
      QuietChannel(s, s', c, r);
    }
    forall c, r ensures RepliesOk(s', c, r) {
      assert RepliesOk(s, c, r);
      forall i | 0 <= i < |Replies(s', c, r)| ensures ReplyOk(s', c, r, Replies(s', c, r)[i]) {
        assert ReplyOk(s, c, r, Replies(s', c, r)[i]);
      }
    }
    forall c ensures CoordinatorOk(s', c) {
      assert CoordinatorOk(s, c);
    }
    forall r ensures StoreOk(s', r) {
      assert StoreOk(s, r) && StoreOf(s', r) == StoreOf(s, r);
    }
  }

  lemma {:induction false} LossKeeps(s: System, e: Step)
    requires Inv(s) && Enabled(s, e) && (e.LoseRequest? || e.LoseReply?)
    ensures Inv(Next(s, e)) && IndicesGrow(s, Next(s, e))
  {
    hide Subsequence;
    var s' := Next(s, e);
    forall c, r ensures Subsequence(Requests(s', c, r), Requests(s, c, r)) {
      if e.LoseRequest? && c == e.c && r == e.r {
        RemoveIsSubsequence(Requests(s, c, r), e.at);
      } else {
        SameIsSubsequence(Requests(s, c, r));
      }
    }
    DoneStays(s, s');
    QuietKeeps(s, s');
  }

  /** The only acknowledgement added is from a replica that has caught up. */
  lemma {:induction false} TakeReplyAcks(s: System, c: nat, r: nat, d: nat, t: nat)
    requires Inv(s) && Replies(s, c, r) != []
    requires Coord(Next(s, TakeReply(c, r)), d).Awaiting? && t in Coord(Next(s, TakeReply(c, r)), d).acks
    ensures t in Coord(s, d).acks || (t < |s.names| && t != d && Index(s, t, Coord(s, d).key) >= Coord(s, d).val.index)
  {
    hide Inv, ChannelOk, CoordinatorOk, StoreOk;
    Parts(s, c, r);
    assert ReplyOk(s, c, r, Replies(s, c, r)[0]);
  }

  lemma {:induction false} TakeReplyKeeps(s: System, c: nat, r: nat)
    requires Inv(s) && Replies(s, c, r) != []
    ensures Inv(Next(s, TakeReply(c, r))) && IndicesGrow(s, Next(s, TakeReply(c, r)))
  {
    hide Inv, WasIssued, Quiet, DoneOk, Requests, Replies;
    var s' := Next(s, TakeReply(c, r));
    forall d, t | Coord(s', d).Awaiting? && t in Coord(s', d).acks
      ensures t in Coord(s, d).acks || (t < |s.names| && t != d && Index(s, t, Coord(s, d).key) >= Coord(s, d).val.index) {
      TakeReplyAcks(s, c, r, d, t);
    }
    TakeReplyQuiet(s, c, r);
    InvDone(s);
    DoneStays(s, s');
    hide Next;
    QuietKeeps(s, s');
  }

  lemma InvDone(s: System)
    requires Inv(s)
    ensures DoneOk(s)
  {
  }

  lemma TakeReplyLeaves(s: System, c: nat, r: nat, d: nat, t: nat)
    requires Replies(s, c, r) != []
    ensures var s' := Next(s, TakeReply(c, r));
            && Requests(s', d, t) == Requests(s, d, t)
            && Replies(s', d, t) == if d == c && t == r then Replies(s, c, r)[1..] else Replies(s, d, t)
  {
  }

  lemma TakeReplyCoordinator(s: System, c: nat, r: nat, d: nat)
    requires Replies(s, c, r) != [] && Coord(Next(s, TakeReply(c, r)), d).Awaiting?
    ensures Coord(s, d).Awaiting?
    ensures Coord(Next(s, TakeReply(c, r)), d).key == Coord(s, d).key && Coord(Next(s, TakeReply(c, r)), d).val == Coord(s, d).val
  {
  }

  lemma {:induction false} TakeReplyQuiet(s: System, c: nat, r: nat)
    requires Replies(s, c, r) != []
    ensures Quiet(s, Next(s, TakeReply(c, r)))
  {
    hide Subsequence, Coord, Requests, Replies;
    var s' := Next(s, TakeReply(c, r));
    forall d | Coord(s', d).Awaiting?
      ensures Coord(s, d).Awaiting? && Coord(s', d).key == Coord(s, d).key && Coord(s', d).val == Coord(s, d).val {
      TakeReplyCoordinator(s, c, r, d);
    }
    forall d, t ensures Subsequence(Requests(s', d, t), Requests(s, d, t)) {
      TakeReplyLeaves(s, c, r, d, t);
      SameIsSubsequence(Requests(s, d, t));
    }
    forall d, t, i | 0 <= i < |Replies(s', d, t)| ensures Replies(s', d, t)[i] in Replies(s, d, t) {
      TakeReplyLeaves(s, c, r, d, t);
    }
  }

  /** Acknowledged by a majority less one, held by the coordinator itself: held by a majority. */
  lemma {:induction false} FinishHasMajority(s: System, c: nat)
    requires Inv(s) && Enabled(s, Advance(c)) && Coord(s, c).op != Write
    ensures |Holders(s, Coord(s, c).key, Coord(s, c).val.index)| >= Majority(|s.names|)
  {
    hide Subsequence, Owns, WasIssued;
    var a := Coord(s, c);
    assert CoordinatorOk(s, c);
    OwnerInRange(s.names, c, a.key);
    var held := a.acks + {c};
    assert held <= Holders(s, a.key, a.val.index);
    SubsetSize(held, Holders(s, a.key, a.val.index));
  }

  lemma {:induction false} FinishKeeps(s: System, c: nat)
    requires Inv(s) && Enabled(s, Advance(c)) && Coord(s, c).op != Write
    ensures Inv(Next(s, Advance(c))) && IndicesGrow(s, Next(s, Advance(c)))
  {
    hide Subsequence, Owns, WasIssued;
    var s' := Next(s, Advance(c));
    var a := Coord(s, c);
    assert CoordinatorOk(s, c);
    OwnerInRange(s.names, c, a.key);
    FinishHasMajority(s, c);
    forall d | d in s'.done ensures WasIssued(s'.issued, d.0, d.1) && |Holders(s', d.0, d.1.index)| >= Majority(|s'.names|) {
      HoldersGrow(s, s', d.0, d.1.index);
    }
    forall d, t ensures Subsequence(Requests(s', d, t), Requests(s, d, t)) {
      SameIsSubsequence(Requests(s, d, t));
    }
    QuietKeeps(s, s');
  }

  lemma OwnerInRange(names: seq<string>, c: nat, key: string)
    requires Owns(names, c, key)
    ensures c < |names|
  {
  }

  lemma OwnKey(names: seq<string>, c: nat, k: string)
    requires c < |names| && Usable(names, c, k)
    ensures Owns(names, c, FinalKey(names[c], k))
  {
  }

  lemma {:induction false} GrowsTwice(s: System, s1: System, s2: System)
    requires IndicesGrow(s, s1) && IndicesGrow(s1, s2)
    ensures IndicesGrow(s, s2)
  {
    hide Index;
    forall r, key ensures Index(s, r, key) <= Index(s2, r, key) {
      assert Index(s, r, key) <= Index(s1, r, key) <= Index(s2, r, key);
    }
  }

  lemma {:induction false} BeginKeeps(s: System, c: nat, k: string, data: seq<nat>)
    requires Inv(s) && Enabled(s, Begin(c, k, data)) && Usable(s.names, c, k)
    ensures Inv(Next(s, Begin(c, k, data))) && IndicesGrow(s, Next(s, Begin(c, k, data)))
  {
    hide Inv, Owns, Broadcast, Stamp, WasIssued, IndicesGrow, FinalKey, Index, Usable;
    var key := FinalKey(s.names[c], k);
    OwnKey(s.names, c, k);
    StampKeeps(s, c, key, data);
    var s1, val := Stamp(s, c, key, data), Stamped(Counter(s, c, key) + 1, data);
    BroadcastKeeps(s1, c, Write, key, val);
    GrowsTwice(s, s1, Broadcast(s1, c, Write, key, val));
  }

  /** Every step of every node keeps the invariant, and no replica's stored index ever decreases. */
  lemma {:induction false} StepKeeps(s: System, e: Step)
    requires Inv(s) && Enabled(s, e) && UsesOwnKey(s.names, e)
    ensures Inv(Next(s, e)) && IndicesGrow(s, Next(s, e))
  {
    hide Inv, Owns, Broadcast, Usable;
    match e {
      case Begin(c, k, data) => BeginKeeps(s, c, k, data);
      case BeginFails(c, k) => BeginFailsKeeps(s, c, FinalKey(s.names[c], k));
      case Deliver(c, r, diskOk) => DeliverKeeps(s, c, r, diskOk);
      case LoseRequest(c, r, at) => LossKeeps(s, e);
      case LoseReply(c, r, at) => LossKeeps(s, e);
      case TakeReply(c, r) => TakeReplyKeeps(s, c, r);
      case Retry(c) => RebroadcastKeeps(s, c, Coord(s, c).op);
      case Advance(c) =>
        if Coord(s, c).op == Write {
          RebroadcastKeeps(s, c, Custom);
        } else {
          FinishKeeps(s, c);
        }
    }
  }

  lemma {:induction false} RebroadcastKeeps(s: System, c: nat, op: OpType)
    requires Inv(s) && Coord(s, c).Awaiting?
    ensures var s' := Broadcast(s, c, op, Coord(s, c).key, Coord(s, c).val); Inv(s') && IndicesGrow(s, s')
  {
    assert CoordinatorOk(s, c);
    BroadcastKeeps(s, c, op, Coord(s, c).key, Coord(s, c).val);
  }

  // ---------------------------------------------------------------- whole runs

  lemma {:induction false} RunKeeps(s: System, es: seq<Step>)
    requires Inv(s) && LegalRun(s, es) && UseOwnKeys(s.names, es)
    ensures Inv(Run(s, es)) && IndicesGrow(s, Run(s, es))
    decreases |es|
  {
    hide Inv, Next, UsesOwnKey;
    if es != [] {
      StepKeeps(s, es[0]);
      RunKeeps(Next(s, es[0]), es[1..]);
      var s1, s2 := Next(s, es[0]), Run(s, es);
      forall r, key ensures Index(s, r, key) <= Index(s2, r, key) {
        assert Index(s, r, key) <= Index(s1, r, key) <= Index(s2, r, key);
      }
    }
  }

  /**
   * Once a command has finished, in every later state of every run, every majority of nodes contains one whose stored
   * index for that key is at least the command's. If the index is the command's own, so is the value.
   */
  lemma {:induction false} FinishedCommandsSurvive(s0: System, before: seq<Step>, after: seq<Step>, d: (string, Stamped), quorum: set<nat>) returns (r: nat)
    requires Init(s0) && LegalRun(s0, before) && LegalRun(Run(s0, before), after)
    requires UseOwnKeys(s0.names, before) && UseOwnKeys(s0.names, after)
    requires d in Run(s0, before).done
    requires quorum <= Nodes(|s0.names|) && |quorum| >= Majority(|s0.names|)
    ensures var s := Run(Run(s0, before), after);
            && r in quorum && Index(s, r, d.0) >= d.1.index
            && d.0 in StoreOf(s, r)
            && (StoreOf(s, r)[d.0].index == d.1.index ==> StoreOf(s, r)[d.0] == d.1)
  {
    InitHolds(s0);
    RunKeeps(s0, before);
    var s1 := Run(s0, before);
    RunKeeps(s1, after);
    var s2 := Run(s1, after);
    FinishedIsHeld(s2, d);
    Meet(Nodes(|s0.names|), Holders(s2, d.0, d.1.index), quorum);
    r :| r in Holders(s2, d.0, d.1.index) && r in quorum;
    assert StoreOk(s2, r) && WasIssued(s2.issued, d.0, StoreOf(s2, r)[d.0]);
  }

  lemma {:induction false} FinishedIsHeld(s: System, d: (string, Stamped))
    requires Inv(s) && d in s.done
    ensures |Holders(s, d.0, d.1.index)| >= Majority(|s.names|)
    ensures WasIssued(s.issued, d.0, d.1) && d.1.index >= 1
  {
    assert (d.0, d.1.index) in s.issued;
  }

  // ---------------------------------------------------------------- when two nodes share a key

  const CLASHING := ["n1", "n1:x"]

  const EMPTY := System(CLASHING, map[], map[], map[], map[], map[], map[], {}, map[])

  ghost predicate Reaches(s: System, t: System) {
    exists es :: LegalRun(s, es) && Run(s, es) == t
  }

  lemma {:induction false} RunSnoc(s: System, es: seq<Step>, e: Step)
    requires LegalRun(s, es) && Enabled(Run(s, es), e)
    ensures LegalRun(s, es + [e]) && Run(s, es + [e]) == Next(Run(s, es), e)
    decreases |es|
  {
    hide Next, Enabled;
    if es == [] {
      assert es + [e] == [e] && [e][1..] == [];
    } else {
      assert (es + [e])[0] == es[0] && (es + [e])[1..] == es[1..] + [e];
      RunSnoc(Next(s, es[0]), es[1..], e);
    }
  }

  lemma {:induction false} ReachesNext(s: System, t: System, e: Step)
    requires Reaches(s, t) && Enabled(t, e)
    ensures Reaches(s, Next(t, e))
  {
    hide Next, Enabled;
    var es :| LegalRun(s, es) && Run(s, es) == t;
    RunSnoc(s, es, e);
  }

  lemma ReachesSelf(s: System)
    ensures Reaches(s, s)
  {
    assert LegalRun(s, []) && Run(s, []) == s;
  }

  /** Node 0 has broadcast a phase for the key to node 1, which has nothing of its own under way. */
  ghost predicate Waiting(s: System, op: OpType, key: string, val: Stamped, acks: set<nat>, requests: seq<Request>) {
    && s.names == CLASHING && Coord(s, 0) == Awaiting(op, key, val, acks)
    && Requests(s, 0, 1) == requests && Replies(s, 0, 1) == []
    && key in StoreOf(s, 0) && StoreOf(s, 0)[key] == val
    && (op == Custom ==> key in StoreOf(s, 1) && StoreOf(s, 1)[key] == val)
    && Coord(s, 1) == Idle && Counter(s, 1, key) == 0 && Requests(s, 1, 0) == []
  }

  lemma {:induction false} PhaseDelivered(s: System, op: OpType, key: string, val: Stamped) returns (t: System)
    requires (op == Write || op == Custom) && Waiting(s, op, key, val, {}, [Request(op, key, val, Tag(s, 0))])
    ensures Enabled(s, Deliver(0, 1, true)) && t == Next(s, Deliver(0, 1, true)) && Enabled(t, TakeReply(0, 1))
    ensures Waiting(Next(t, TakeReply(0, 1)), op, key, val, {1}, [])
    ensures key in StoreOf(t, 1) && StoreOf(t, 1)[key] == val && Next(t, TakeReply(0, 1)).stores == t.stores
  {
    t := Next(s, Deliver(0, 1, true));
    assert Replies(t, 0, 1) == [Reply(Tag(s, 0), true)];
  }

  lemma {:induction false} PhaseRuns(s0: System, s: System, op: OpType, key: string, val: Stamped) returns (t: System)
    requires (op == Write || op == Custom) && Waiting(s, op, key, val, {}, [Request(op, key, val, Tag(s, 0))]) && Reaches(s0, s)
    ensures Reaches(s0, t) && Waiting(t, op, key, val, {1}, []) && key in StoreOf(t, 1) && StoreOf(t, 1)[key] == val
  {
    hide Next, Waiting, Reaches, Enabled;
    var m := PhaseDelivered(s, op, key, val);
    ReachesNext(s0, s, Deliver(0, 1, true));
    ReachesNext(s0, m, TakeReply(0, 1));
    t := Next(m, TakeReply(0, 1));
  }

  lemma {:induction false} FirstPhaseStarts(key: string, data: seq<nat>)
    requires key == FinalKey("n1", "x:k")
    ensures Enabled(EMPTY, Begin(0, "x:k", data))
    ensures var s := Next(EMPTY, Begin(0, "x:k", data));
            Waiting(s, Write, key, Stamped(1, data), {}, [Request(Write, key, Stamped(1, data), Tag(s, 0))])
  {
  }

  lemma {:induction false} SecondPhaseStarts(s: System, key: string, val: Stamped)
    requires Waiting(s, Write, key, val, {1}, []) && key in StoreOf(s, 1) && StoreOf(s, 1)[key] == val
    ensures Enabled(s, Advance(0))
    ensures var t := Next(s, Advance(0)); Waiting(t, Custom, key, val, {}, [Request(Custom, key, val, Tag(t, 0))])
  {
  }

  lemma {:induction false} FirstCommandFinishes(key: string) returns (s: System)
    requires key == FinalKey("n1", "x:k")
    ensures Reaches(EMPTY, s) && Waiting(s, Custom, key, Stamped(1, [1]), {1}, [])
  {
    hide Next, Waiting, Reaches, Enabled, FinalKey;
    var val := Stamped(1, [1]);
    FirstPhaseStarts(key, [1]);
    ReachesSelf(EMPTY);
    ReachesNext(EMPTY, EMPTY, Begin(0, "x:k", [1]));
    var s1 := PhaseRuns(EMPTY, Next(EMPTY, Begin(0, "x:k", [1])), Write, key, val);
    SecondPhaseStarts(s1, key, val);
    ReachesNext(EMPTY, s1, Advance(0));
    s := PhaseRuns(EMPTY, Next(s1, Advance(0)), Custom, key, val);
  }

  /** The other node starts its own first command on the shared key. */
  lemma {:induction false} OtherStarts(s: System, key: string, val: Stamped, data: seq<nat>) returns (t: System, u: System)
    requires key == FinalKey("n1:x", "k") && Waiting(s, Custom, key, val, {1}, [])
    ensures Enabled(s, Advance(0)) && t == Next(s, Advance(0)) && (key, val) in t.done
    ensures Enabled(t, Begin(1, "k", data)) && u == Next(t, Begin(1, "k", data)) && (key, val) in u.done
    ensures key in StoreOf(u, 1) && StoreOf(u, 1)[key] == Stamped(1, data)
    ensures Requests(u, 1, 0) == [Request(Write, key, Stamped(1, data), Tag(u, 1))]
  {
    t := Next(s, Advance(0));
    u := Next(t, Begin(1, "k", data));
  }

  lemma {:induction false} OtherOverwrites(u: System, key: string, val: Stamped)
    requires Requests(u, 1, 0) == [Request(Write, key, val, Tag(u, 1))] && key in StoreOf(u, 1) && StoreOf(u, 1)[key] == val
    ensures Enabled(u, Deliver(1, 0, true))
    ensures forall r :: r in {0, 1} ==> Holds(Next(u, Deliver(1, 0, true)), r, key, val)
  {
  }

  ghost predicate Holds(s: System, r: nat, key: string, val: Stamped) {
    key in StoreOf(s, r) && StoreOf(s, r)[key] == val
  }

  lemma SharedKey(key: string)
    requires key == FinalKey("n1", "x:k")
    ensures key == FinalKey("n1:x", "k") && Init(EMPTY)
  {
    ColonBreaksKeys();
  }

  /** From the start, with names that continue each other: a command finishes, and later every replica holds another value. */
  lemma {:induction false} ClashLosesCommand(key: string) returns (done: System, lost: System)
    requires key == FinalKey("n1", "x:k")
    ensures Init(EMPTY) && Reaches(EMPTY, done) && Reaches(done, lost)
    ensures (key, Stamped(1, [1])) in done.done && forall r :: r in {0, 1} ==> Holds(lost, r, key, Stamped(1, [2]))
  {
    hide Next, Waiting, Reaches, Enabled, FinalKey, Holds, Requests, Init;
    SharedKey(key);
    var s := FirstCommandFinishes(key);
    var u;
    done, u := OtherStarts(s, key, Stamped(1, [1]), [2]);
    OtherOverwrites(u, key, Stamped(1, [2]));
    lost := Next(u, Deliver(1, 0, true));
    ReachesNext(EMPTY, s, Advance(0));
    ReachesSelf(done);
    ReachesNext(done, done, Begin(1, "k", [2]));
    ReachesNext(done, u, Deliver(1, 0, true));
  }
}
