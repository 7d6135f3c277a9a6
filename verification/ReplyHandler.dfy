/**
 * The client reply handler: requests of a batch meet the commit acknowledgement of its block, whichever comes first.
 */
module ReplyHandlers {
  import opened Basics
  import opened Chain

  type Result = nat
  type Sender = nat

  /** A reply channel with its client tag and its client. */
  datatype Chan = Chan(id: nat, tag: nat, sender: Sender)

  datatype ByzResponse = ByzResponse(n: nat, txN: nat, tag: nat)

  datatype Out =
    | Receipt(n: nat, txN: nat, hash: Digest, result: Result, chan: Chan, byz: seq<ByzResponse>)
    | TryAgain(chan: Chan)
    | UnloggedReceipt(result: Result, chan: Chan)
    | ProbeReceipt(n: nat, chans: seq<Chan>)

  datatype CrashAck = CrashAck(n: nat, results: seq<Result>)
  datatype ByzAck = ByzAck(n: nat, responses: seq<ByzResponse>)

  datatype State = State(
    replyMap: map<Digest, seq<Chan>>,
    byzReplyMap: map<Digest, seq<Chan>>,
    crashBuf: map<Digest, CrashAck>,
    byzBuf: map<Digest, ByzAck>,
    byzStore: map<Sender, seq<ByzResponse>>,
    probes: map<nat, seq<Chan>>,
    ackedBci: nat,
    mustCancel: bool,
    out: seq<Out>)

  const EMPTY := State(map[], map[], map[], map[], map[], map[], 0, false, [])

  /** A commit command carries a map of acknowledgements; its entries are handled one by one, in any order. */
  datatype Event =
    | Batch(batchHash: Option<Digest>, chans: seq<Chan>)
    | Crash(hash: Digest, ack: CrashAck)
    | Byz(hash: Digest, byzAck: ByzAck)
    | CancelAll(order: seq<Digest>)
    | StopCancelling
    | Unlogged(result: Result, chan: Chan)
    | Probe(n: nat, chan: Chan)

  // ---------------------------------------------------------------- what each event does

  function Stored(s: State, sender: Sender): seq<ByzResponse> {
    if sender in s.byzStore then s.byzStore[sender] else []
  }

  /** Receipts for requests 0..i of a committed block; each takes along whatever is stored for its client. */
  function CrashReply(s: State, h: Digest, ack: CrashAck, chans: seq<Chan>, i: nat): (t: State)
    requires i <= |chans| == |ack.results|
    ensures t == s.(byzStore := t.byzStore, out := t.out)
  {
    if i == 0 then s
    else
      var t := CrashReply(s, h, ack, chans, i - 1);
      var c := chans[i - 1];
      t.(byzStore := t.byzStore - {c.sender},
         out := t.out + [Receipt(ack.n, i - 1, h, ack.results[i - 1], c, Stored(t, c.sender))])
  }

  /** The responses of a byzantine-committed block are kept, under the client's own tag, for its next receipt. */
  function KeepResponses(s: State, ack: ByzAck, chans: seq<Chan>, i: nat): (t: State)
    requires i <= |chans| == |ack.responses|
    ensures t == s.(byzStore := t.byzStore)
  {
    if i == 0 then s
    else
      var t := KeepResponses(s, ack, chans, i - 1);
      var c := chans[i - 1];
      t.(byzStore := t.byzStore[c.sender := Stored(t, c.sender) + [ack.responses[i - 1].(tag := c.tag)]])
  }

  /** Probes for blocks up to the acknowledged one, in block order. */
  function DueProbes(probes: map<nat, seq<Chan>>, bci: nat): seq<Out>
    decreases probes.Keys
  {
    if Due(probes, bci) == {} then []
    else
      var k := Least(Due(probes, bci));
      [ProbeReceipt(k, probes[k])] + DueProbes(probes - {k}, bci)
  }

  function Due(probes: map<nat, seq<Chan>>, bci: nat): set<nat> {
    set k | k in probes && k <= bci
  }

  function ClearProbes(s: State): State {
    s.(probes := map k | k in s.probes && k > s.ackedBci :: s.probes[k], out := s.out + DueProbes(s.probes, s.ackedBci))
  }

  function DoByz(s: State, ack: ByzAck, chans: seq<Chan>): (t: State)
    requires |chans| == |ack.responses|
    ensures t == s.(byzStore := t.byzStore, ackedBci := t.ackedBci, probes := t.probes, out := t.out)
  {
    var t := KeepResponses(s, ack, chans, |chans|);
    ClearProbes(t.(ackedBci := if ack.n > t.ackedBci then ack.n else t.ackedBci))
  }

  function TryAgains(chans: seq<Chan>): seq<Out> {
    if chans == [] then [] else [TryAgain(chans[0])] + TryAgains(chans[1..])
  }

  function CancelPending(m: map<Digest, seq<Chan>>, order: seq<Digest>): seq<Out> {
    if order == [] then []
    else (if order[0] in m then TryAgains(m[order[0]]) else []) + CancelPending(m, order[1..])
  }

  /** The lengths the handler asserts; and a drained map gives each of its keys once. */
  ghost predicate Legal(s: State, e: Event) {
    match e
    case Batch(Some(h), chans) =>
      || s.mustCancel
      || ((h in s.crashBuf ==> |s.crashBuf[h].results| == |chans|) && (h in s.byzBuf ==> |s.byzBuf[h].responses| == |chans|))
    case Crash(h, ack) => h in s.replyMap ==> |s.replyMap[h]| == |ack.results|
    case Byz(h, ack) => h in s.byzReplyMap ==> |s.byzReplyMap[h]| == |ack.responses|
    case CancelAll(order) =>
      (forall h :: h in s.replyMap <==> h in order) && (forall i, j :: 0 <= i < j < |order| ==> order[i] != order[j])
    case _ => true
  }

  /** The byzantine side goes first, so that the receipts can take its responses along. */
  function ClearByzBuf(s: State, h: Digest, chans: seq<Chan>): (t: State)
    requires h in s.byzBuf ==> |s.byzBuf[h].responses| == |chans|
    ensures t.replyMap == s.replyMap && t.crashBuf == s.crashBuf && t.mustCancel == s.mustCancel
  {
    if h in s.byzBuf then DoByz(s.(byzBuf := s.byzBuf - {h}, byzReplyMap := s.byzReplyMap - {h}), s.byzBuf[h], chans) else s
  }

  function ClearCrashBuf(s: State, h: Digest, chans: seq<Chan>): State
    requires h in s.crashBuf ==> |s.crashBuf[h].results| == |chans|
  {
    if h in s.crashBuf
    then CrashReply(s.(crashBuf := s.crashBuf - {h}, replyMap := s.replyMap - {h}), h, s.crashBuf[h], chans, |chans|) else s
  }

  function AcceptBatch(s: State, h: Digest, chans: seq<Chan>): State
    requires h in s.crashBuf ==> |s.crashBuf[h].results| == |chans|
    requires h in s.byzBuf ==> |s.byzBuf[h].responses| == |chans|
  {
    ClearCrashBuf(
      ClearByzBuf(s.(byzReplyMap := s.byzReplyMap[h := chans], replyMap := s.replyMap[h := chans]), h, chans), h, chans)
  }

  function Step(s: State, e: Event): State
    requires Legal(s, e)
  {
    match e
    case Batch(hash, chans) =>
      if hash == None || s.mustCancel then s.(out := s.out + TryAgains(chans))
      else AcceptBatch(s, hash.value, chans)
    case Crash(h, ack) =>
      if h in s.replyMap then CrashReply(s.(replyMap := s.replyMap - {h}), h, ack, s.replyMap[h], |s.replyMap[h]|)
      else s.(crashBuf := s.crashBuf[h := ack])
    case Byz(h, ack) =>
      if h in s.byzReplyMap then DoByz(s.(byzReplyMap := s.byzReplyMap - {h}), ack, s.byzReplyMap[h])
      else s.(byzBuf := s.byzBuf[h := ack])
    case CancelAll(order) =>
      s.(replyMap := map[], mustCancel := true, out := s.out + CancelPending(s.replyMap, order))
    case StopCancelling => s.(mustCancel := false)
    case Unlogged(result, c) => s.(out := s.out + [UnloggedReceipt(result, c)])
    case Probe(n, c) =>
      ClearProbes(s.(probes := s.probes[n := (if n in s.probes then s.probes[n] else []) + [c]]))
  }

  // ---------------------------------------------------------------- runs and their history

  datatype BatchRecord = BatchRecord(hash: Option<Digest>, chans: seq<Chan>)

  function BatchOf(e: Event): seq<BatchRecord> {
    if e.Batch? then [BatchRecord(e.batchHash, e.chans)] else []
  }

  function AckOf(e: Event): set<(Digest, CrashAck)> {
    if e.Crash? then {(e.hash, e.ack)} else {}
  }

  function Batches(es: seq<Event>): seq<BatchRecord> {
    if es == [] then []
    else
      var e := es[|es| - 1];
      Batches(es[..|es| - 1]) + BatchOf(e)
  }

  function Acks(es: seq<Event>): set<(Digest, CrashAck)> {
    if es == [] then {}
    else
      var e := es[|es| - 1];
      Acks(es[..|es| - 1]) + AckOf(e)
  }

  ghost predicate LegalRun(es: seq<Event>)
    decreases |es|, 0
  {
    es == [] || (LegalRun(es[..|es| - 1]) && Legal(Run(es[..|es| - 1]), es[|es| - 1]))
  }

  ghost function Run(es: seq<Event>): State
    requires LegalRun(es)
    decreases |es|, 1
  {
    if es == [] then EMPTY else Step(Run(es[..|es| - 1]), es[|es| - 1])
  }

  // ---------------------------------------------------------------- the handler itself

  function AsProbes(removed: seq<(nat, seq<Chan>)>): seq<Out> {
    if removed == [] then [] else AsProbes(removed[..|removed| - 1]) + [ProbeReceipt(removed[|removed| - 1].0, removed[|removed| - 1].1)]
  }

  lemma {:induction false} NothingDue(probes: map<nat, seq<Chan>>, bci: nat)
    requires Due(probes, bci) == {}
    ensures DueProbes(probes, bci) == [] && forall k :: k in probes ==> k > bci
  {
    assert forall k :: k in probes && k <= bci ==> k in Due(probes, bci);
  }

  lemma FirstDue(probes: map<nat, seq<Chan>>, bci: nat)
    requires Due(probes, bci) != {}
    ensures var k := Least(Due(probes, bci));
            k in probes && DueProbes(probes, bci) == [ProbeReceipt(k, probes[k])] + DueProbes(probes - {k}, bci)
  {
  }

  lemma {:induction false} TakeFirst(removed: seq<(nat, seq<Chan>)>, p: (nat, seq<Chan>), rest: seq<Out>)
    ensures AsProbes(removed + [p]) + rest == AsProbes(removed) + ([ProbeReceipt(p.0, p.1)] + rest)
  {
    assert (removed + [p])[..|removed|] == removed;
  }

  class ClientReplyHandler {
    var replyMap: map<Digest, seq<Chan>>
    var byzReplyMap: map<Digest, seq<Chan>>
    var crashBuf: map<Digest, CrashAck>
    var byzBuf: map<Digest, ByzAck>
    var byzStore: map<Sender, seq<ByzResponse>>
    var probes: map<nat, seq<Chan>>
    var ackedBci: nat
    var mustCancel: bool
    var out: seq<Out>

    ghost function Abstract(): State
      reads this
    {
      State(replyMap, byzReplyMap, crashBuf, byzBuf, byzStore, probes, ackedBci, mustCancel, out)
    }

    constructor ()
      ensures Abstract() == EMPTY
    {
      replyMap, byzReplyMap, crashBuf, byzBuf := map[], map[], map[], map[];
      byzStore, probes, ackedBci, mustCancel, out := map[], map[], 0, false, [];
    }

    method DoCrashCommitReply(chans: seq<Chan>, h: Digest, ack: CrashAck)
      requires |chans| == |ack.results|
      modifies this`byzStore, this`out
      ensures Abstract() == CrashReply(old(Abstract()), h, ack, chans, |chans|)
    {
      for i := 0 to |chans|
        invariant Abstract() == CrashReply(old(Abstract()), h, ack, chans, i)
      {
        var sender := chans[i].sender;
        var byz := if sender in byzStore then byzStore[sender] else [];
        byzStore := byzStore - {sender};
        out := out + [Receipt(ack.n, i, h, ack.results[i], chans[i], byz)];
      }
    }

    /** The due entries leave the buffer in key order. */
    method TakeDue() returns (removed: seq<(nat, seq<Chan>)>)
      modifies this`probes
      ensures AsProbes(removed) == DueProbes(old(probes), ackedBci)
      ensures probes == map k | k in old(probes) && k > ackedBci :: old(probes)[k]
    {
      hide DueProbes;
      removed := [];
      ghost var before := probes;
      while Due(probes, ackedBci) != {}
        invariant forall k :: k in probes ==> k in before && probes[k] == before[k]
        invariant forall k :: k in before && k > ackedBci ==> k in probes
        invariant AsProbes(removed) + DueProbes(probes, ackedBci) == DueProbes(before, ackedBci)
        decreases |probes.Keys|
      {
        var k := Least(Due(probes, ackedBci));
        FirstDue(probes, ackedBci);
        TakeFirst(removed, (k, probes[k]), DueProbes(probes - {k}, ackedBci));
        removed := removed + [(k, probes[k])];
        probes := probes - {k};
      }
      NothingDue(probes, ackedBci);
    }

    method MaybeClearProbeBuf()
      modifies this`probes, this`out
      ensures Abstract() == ClearProbes(old(Abstract()))
    {
      hide DueProbes;
      var removed := TakeDue();
      SendProbes(removed);
    }

    method SendProbes(removed: seq<(nat, seq<Chan>)>)
      modifies this`out
      ensures out == old(out) + AsProbes(removed)
    {
      for i := 0 to |removed|
        invariant out == old(out) + AsProbes(removed[..i])
      {
        assert removed[..i + 1][..i] == removed[..i];
        out := out + [ProbeReceipt(removed[i].0, removed[i].1)];
      }
      assert removed[..|removed|] == removed;
    }

    method DoByzCommitReply(chans: seq<Chan>, ack: ByzAck)
      requires |chans| == |ack.responses|
      modifies this`byzStore, this`ackedBci, this`probes, this`out
      ensures Abstract() == DoByz(old(Abstract()), ack, chans)
    {
      for i := 0 to |chans|
        invariant Abstract() == KeepResponses(old(Abstract()), ack, chans, i)
      {
        var reply := ack.responses[i].(tag := chans[i].tag);
        var sender := chans[i].sender;
        if sender in byzStore {
          byzStore := byzStore[sender := byzStore[sender] + [reply]];
        } else {
          assert [] + [reply] == [reply];
          byzStore := byzStore[sender := [reply]];
        }
      }
      if ack.n > ackedBci {
        ackedBci := ack.n;
      }
      MaybeClearProbeBuf();
    }

    method MaybeClearReplyBuf(h: Digest)
      requires h in replyMap && h in byzReplyMap && replyMap[h] == byzReplyMap[h]
      requires h in crashBuf ==> |crashBuf[h].results| == |replyMap[h]|
      requires h in byzBuf ==> |byzBuf[h].responses| == |replyMap[h]|
      modifies this
      ensures Abstract() == ClearCrashBuf(ClearByzBuf(old(Abstract()), h, old(replyMap[h])), h, old(replyMap[h]))
    {
      hide CrashReply, DoByz;
      if h in byzBuf {
        var ack, senders := byzBuf[h], byzReplyMap[h];
        byzBuf, byzReplyMap := byzBuf - {h}, byzReplyMap - {h};
        DoByzCommitReply(senders, ack);
      }
      assert Abstract() == ClearByzBuf(old(Abstract()), h, old(replyMap[h]));
      if h in crashBuf {
        var ack, senders := crashBuf[h], replyMap[h];
        crashBuf, replyMap := crashBuf - {h}, replyMap - {h};
        DoCrashCommitReply(senders, h, ack);
      }
    }

    /** Every channel of a batch is told to try again. */
    method Refuse(chans: seq<Chan>)
      modifies this`out
      ensures out == old(out) + TryAgains(chans)
    {
      for i := 0 to |chans|
        invariant out + TryAgains(chans[i..]) == old(out) + TryAgains(chans)
      {
        assert chans[i..][1..] == chans[i + 1..];
        out := out + [TryAgain(chans[i])];
      }
    }

    /** The batch side of the worker. An empty hash means the sequencer refused the batch. */
    method HandleBatch(hash: Option<Digest>, chans: seq<Chan>)
      requires Legal(Abstract(), Batch(hash, chans))
      modifies this
      ensures Abstract() == Step(old(Abstract()), Batch(hash, chans))
    {
      hide ClearCrashBuf, ClearByzBuf, TryAgains;
      if hash == None || mustCancel {
        Refuse(chans);
      } else {
        byzReplyMap := byzReplyMap[hash.value := chans];
        replyMap := replyMap[hash.value := chans];
        MaybeClearReplyBuf(hash.value);
      }
    }

    /** Draining a hash map visits its keys in an order of the map's own. */
    method RefusePending(order: seq<Digest>)
      requires forall h :: h in order ==> h in replyMap
      modifies this`out
      ensures out == old(out) + CancelPending(replyMap, order)
    {
      hide TryAgains;
      for i := 0 to |order|
        invariant out + CancelPending(replyMap, order[i..]) == old(out) + CancelPending(replyMap, order)
      {
        assert order[i] in order;
        assert order[i..][1..] == order[i + 1..];
        Refuse(replyMap[order[i]]);
      }
    }

    method HandleReplyCommand(e: Event)
      requires Legal(Abstract(), e) && !e.Batch?
      modifies this
      ensures Abstract() == Step(old(Abstract()), e)
    {
      hide CrashReply, DoByz, CancelPending, DueProbes;
      match e {
        case CancelAll(order) =>
          RefusePending(order);
          replyMap := map[];
          mustCancel := true;
        case Crash(h, ack) =>
          if h in replyMap {
            var chans := replyMap[h];
            replyMap := replyMap - {h};
            DoCrashCommitReply(chans, h, ack);
          } else {
            crashBuf := crashBuf[h := ack];
          }
        case Byz(h, ack) =>
          if h in byzReplyMap {
            var chans := byzReplyMap[h];
            byzReplyMap := byzReplyMap - {h};
            DoByzCommitReply(chans, ack);
          } else {
            byzBuf := byzBuf[h := ack];
          }
        case StopCancelling =>
          mustCancel := false;
        case Unlogged(result, c) =>
          out := out + [UnloggedReceipt(result, c)];
        case Probe(n, c) =>
          if n in probes {
            probes := probes[n := probes[n] + [c]];
          } else {
            assert [] + [c] == [c];
            probes := probes[n := [c]];
          }
          MaybeClearProbeBuf();
      }
    }

    /** The worker loop: a fresh handler fed any run ends in that run's state. */
    method Serve(es: seq<Event>)
      requires LegalRun(es) && Abstract() == EMPTY
      modifies this
      ensures Abstract() == Run(es)
    {
      hide Step, Legal;
      for i := 0 to |es|
        invariant LegalRun(es[..i]) && Abstract() == Run(es[..i])
      {
        LegalPrefix(es, i + 1);
        assert es[..i + 1][..i] == es[..i];
        if es[i].Batch? {
          HandleBatch(es[i].batchHash, es[i].chans);
        } else {
          HandleReplyCommand(es[i]);
        }
      }
      assert es[..|es|] == es;
    }
  }

  lemma {:induction false} LegalPrefix(es: seq<Event>, i: nat)
    requires LegalRun(es) && i <= |es|
    ensures LegalRun(es[..i])
    decreases |es| - i
  {
    if i < |es| {
      LegalPrefix(es, i + 1);
      assert es[..i + 1][..i] == es[..i];
    } else {
      assert es[..i] == es;
    }
  }
}
