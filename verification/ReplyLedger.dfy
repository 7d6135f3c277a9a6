/**
 * Byzantine responses are kept per client until a receipt takes them along: none is lost, doubled or reordered.
 * Probes wait exactly until their block is acknowledged.
 */
module ReplyLedger {
  import opened Basics
  import opened Chain
  import opened ReplyHandlers
  import ReplyAccounting

  /** The responses for client x that receipts have carried, in order. */
  function Delivered(out: seq<Out>, x: Sender): seq<ByzResponse> {
    if out == [] then []
    else
      var o := out[|out| - 1];
      Delivered(out[..|out| - 1], x) + if o.Receipt? && o.chan.sender == x then o.byz else []
  }

  /** The responses among the first i that belong to client x, under the client's own tags. */
  function OwnResponses(ack: ByzAck, chans: seq<Chan>, i: nat, x: Sender): seq<ByzResponse>
    requires i <= |chans| == |ack.responses|
  {
    if i == 0 then []
    else OwnResponses(ack, chans, i - 1, x) + if chans[i - 1].sender == x then [ack.responses[i - 1].(tag := chans[i - 1].tag)] else []
  }

  /** What an event makes available to client x: the batch and its acknowledgement have met. */
  function NewResponses(s: State, e: Event, x: Sender): seq<ByzResponse>
    requires Legal(s, e)
  {
    match e
    case Batch(Some(h), chans) =>
      if !s.mustCancel && h in s.byzBuf then OwnResponses(s.byzBuf[h], chans, |chans|, x) else []
    case Byz(h, ack) =>
      if h in s.byzReplyMap then OwnResponses(ack, s.byzReplyMap[h], |s.byzReplyMap[h]|, x) else []
    case _ => []
  }

  function Ledger(s: State, x: Sender): seq<ByzResponse> {
    Delivered(s.out, x) + Stored(s, x)
  }

  lemma {:induction false} NothingDelivered(out: seq<Out>, more: seq<Out>, x: Sender)
    requires forall o :: o in more ==> !o.Receipt?
    ensures Delivered(out + more, x) == Delivered(out, x)
  {
    if more == [] {
      assert out + more == out;
    } else {
      NothingDelivered(out, more[..|more| - 1], x);
      assert (out + more)[..|out + more| - 1] == out + more[..|more| - 1];
      assert more[|more| - 1] in more;
    }
  }

  lemma {:induction false} TryAgainsOnly(chans: seq<Chan>)
    ensures forall o :: o in TryAgains(chans) ==> o.TryAgain?
  {
    if chans != [] {
      TryAgainsOnly(chans[1..]);
    }
  }

  lemma {:induction false} CancelPendingOnly(m: map<Digest, seq<Chan>>, order: seq<Digest>)
    ensures forall o :: o in CancelPending(m, order) ==> o.TryAgain?
  {
    if order != [] {
      CancelPendingOnly(m, order[1..]);
      if order[0] in m {
        TryAgainsOnly(m[order[0]]);
      }
    }
  }

  lemma {:induction false} CrashReplyLedger(s: State, h: Digest, ack: CrashAck, chans: seq<Chan>, i: nat, x: Sender)
    requires i <= |chans| == |ack.results|
    ensures Ledger(CrashReply(s, h, ack, chans, i), x) == Ledger(s, x)
    decreases i
  {
    if i > 0 {
      CrashReplyLedger(s, h, ack, chans, i - 1, x);
      var t, c := CrashReply(s, h, ack, chans, i - 1), chans[i - 1];
      var o := Receipt(ack.n, i - 1, h, ack.results[i - 1], c, Stored(t, c.sender));
      assert (t.out + [o])[..|t.out|] == t.out;
    }
  }

  lemma {:induction false} KeepResponsesStores(s: State, ack: ByzAck, chans: seq<Chan>, i: nat, x: Sender)
    requires i <= |chans| == |ack.responses|
    ensures Stored(KeepResponses(s, ack, chans, i), x) == Stored(s, x) + OwnResponses(ack, chans, i, x)
    decreases i
  {
    if i > 0 {
      KeepResponsesStores(s, ack, chans, i - 1, x);
    }
  }

  lemma {:induction false} ClearProbesLedger(s: State, x: Sender)
    ensures Ledger(ClearProbes(s), x) == Ledger(s, x)
  {
    forall o | o in DueProbes(s.probes, s.ackedBci) ensures !o.Receipt? {
      ReplyAccounting.DueProbesExact(s.probes, s.ackedBci, o);
    }
    NothingDelivered(s.out, DueProbes(s.probes, s.ackedBci), x);
  }

  lemma SameStored(s: State, t: State, x: Sender)
    requires s.byzStore == t.byzStore
    ensures Stored(s, x) == Stored(t, x)
  {
  }

  lemma {:induction false} DoByzLedger(s: State, ack: ByzAck, chans: seq<Chan>, x: Sender)
    requires |chans| == |ack.responses|
    ensures Ledger(DoByz(s, ack, chans), x) == Ledger(s, x) + OwnResponses(ack, chans, |chans|, x)
  {
    hide ClearProbes, KeepResponses, OwnResponses, Delivered, Stored;
    var t, more := KeepResponses(s, ack, chans, |chans|), OwnResponses(ack, chans, |chans|, x);
    KeepResponsesStores(s, ack, chans, |chans|, x);
    assert Delivered(s.out, x) + (Stored(s, x) + more) == Delivered(s.out, x) + Stored(s, x) + more;
    var t' := t.(ackedBci := if ack.n > t.ackedBci then ack.n else t.ackedBci);
    SameStored(t, t', x);
    ClearProbesLedger(t', x);
  }

  lemma {:induction false} AcceptLedger(s: State, h: Digest, chans: seq<Chan>, x: Sender)
    requires Legal(s, Batch(Some(h), chans)) && !s.mustCancel
    ensures Ledger(AcceptBatch(s, h, chans), x) == Ledger(s, x) + NewResponses(s, Batch(Some(h), chans), x)
  {
    hide CrashReply, DoByz, OwnResponses, Delivered;
    var s0 := s.(byzReplyMap := s.byzReplyMap[h := chans], replyMap := s.replyMap[h := chans]);
    var s1 := ClearByzBuf(s0, h, chans);
    if h in s0.byzBuf {
      DoByzLedger(s0.(byzBuf := s0.byzBuf - {h}, byzReplyMap := s0.byzReplyMap - {h}), s.byzBuf[h], chans, x);
    }
    assert Ledger(s1, x) == Ledger(s, x) + NewResponses(s, Batch(Some(h), chans), x);
    if h in s1.crashBuf {
      CrashReplyLedger(s1.(crashBuf := s1.crashBuf - {h}, replyMap := s1.replyMap - {h}), h, s1.crashBuf[h], chans, |chans|, x);
    }
  }

  lemma {:induction false} CrashReplyEmpties(s: State, h: Digest, ack: CrashAck, chans: seq<Chan>, i: nat, j: nat)
    requires j < i <= |chans| == |ack.results|
    ensures Stored(CrashReply(s, h, ack, chans, i), chans[j].sender) == []
    decreases i
  {
    if j < i - 1 {
      CrashReplyEmpties(s, h, ack, chans, i - 1, j);
    }
  }

  /**
   * When both acknowledgements came before the batch, the receipts of its clients take everything along that is
   * available to them, this block's byzantine responses included.
   */
  lemma {:induction false} EarlyResponsesRideAlong(s: State, h: Digest, chans: seq<Chan>, j: nat)
    requires Legal(s, Batch(Some(h), chans)) && !s.mustCancel && h in s.crashBuf && j < |chans|
    ensures var t, x := AcceptBatch(s, h, chans), chans[j].sender;
            Stored(t, x) == [] && Delivered(t.out, x) == Ledger(s, x) + NewResponses(s, Batch(Some(h), chans), x)
  {
    AcceptLedger(s, h, chans, chans[j].sender);
    hide CrashReply, DoByz, OwnResponses, Delivered;
    var s1 := ClearByzBuf(s.(byzReplyMap := s.byzReplyMap[h := chans], replyMap := s.replyMap[h := chans]), h, chans);
    CrashReplyEmpties(s1.(crashBuf := s1.crashBuf - {h}, replyMap := s1.replyMap - {h}), h, s1.crashBuf[h], chans, |chans|, j);
  }

  /** Delivered and stored together grow by exactly what an event makes available. */
  lemma {:induction false} StepLedger(s: State, e: Event, x: Sender)
    requires Legal(s, e)
    ensures Ledger(Step(s, e), x) == Ledger(s, x) + NewResponses(s, e, x)
  {
    hide CrashReply, DoByz, OwnResponses, AcceptBatch, ClearProbes, TryAgains, CancelPending, Delivered;
    match e {
      case Batch(hash, chans) =>
        if hash == None || s.mustCancel {
          TryAgainsOnly(chans);
          NothingDelivered(s.out, TryAgains(chans), x);
        } else {
          AcceptLedger(s, hash.value, chans, x);
        }
      case Crash(h, ack) =>
        if h in s.replyMap {
          CrashReplyLedger(s.(replyMap := s.replyMap - {h}), h, ack, s.replyMap[h], |s.replyMap[h]|, x);
        }
      case Byz(h, ack) =>
        if h in s.byzReplyMap {
          DoByzLedger(s.(byzReplyMap := s.byzReplyMap - {h}), ack, s.byzReplyMap[h], x);
        }
      case CancelAll(order) =>
        CancelPendingOnly(s.replyMap, order);
        NothingDelivered(s.out, CancelPending(s.replyMap, order), x);
      case Unlogged(result, c) =>
        NothingDelivered(s.out, [UnloggedReceipt(result, c)], x);
      case Probe(n, c) =>
        ClearProbesLedger(s.(probes := s.probes[n := (if n in s.probes then s.probes[n] else []) + [c]]), x);
      case StopCancelling =>
    }
  }

  /** Everything ever made available to client x over a run, in order. */
  ghost function Available(es: seq<Event>, x: Sender): seq<ByzResponse>
    requires LegalRun(es)
  {
    if es == [] then []
    else Available(es[..|es| - 1], x) + NewResponses(Run(es[..|es| - 1]), es[|es| - 1], x)
  }

  /** Over every run a client has received a prefix of its byzantine responses, and the rest waits for it. */
  lemma {:induction false} ResponsesConserved(es: seq<Event>, x: Sender)
    requires LegalRun(es)
    ensures Delivered(Run(es).out, x) + Stored(Run(es), x) == Available(es, x)
  {
    hide Step, Legal, NewResponses;
    if es != [] {
      ResponsesConserved(es[..|es| - 1], x);
      StepLedger(Run(es[..|es| - 1]), es[|es| - 1], x);
    }
  }

  // ---------------------------------------------------------------- probes, and the two early-acknowledgement maps

  ghost predicate Tidy(s: State) {
    && (forall n :: n in s.probes ==> n > s.ackedBci)
    && s.byzReplyMap.Keys !! s.byzBuf.Keys
    && s.replyMap.Keys !! s.crashBuf.Keys
  }

  /** An acknowledgement moves the mark up to its block at least, and releases exactly the probes at or below the mark. */
  lemma DoByzTidy(s: State, ack: ByzAck, chans: seq<Chan>)
    requires |chans| == |ack.responses|
    ensures var t := DoByz(s, ack, chans);
            && (forall n :: n in t.probes <==> n in s.probes && n > t.ackedBci)
            && (forall n :: n in t.probes ==> t.probes[n] == s.probes[n])
            && t.ackedBci == if ack.n > s.ackedBci then ack.n else s.ackedBci
  {
  }

  lemma {:induction false} AcceptTidy(s: State, h: Digest, chans: seq<Chan>)
    requires Tidy(s) && Legal(s, Batch(Some(h), chans)) && !s.mustCancel
    ensures Tidy(AcceptBatch(s, h, chans)) && AcceptBatch(s, h, chans).ackedBci >= s.ackedBci
  {
    hide DoByz, CrashReply;
    var s0 := s.(byzReplyMap := s.byzReplyMap[h := chans], replyMap := s.replyMap[h := chans]);
    var s1 := ClearByzBuf(s0, h, chans);
    if h in s.byzBuf {
      DoByzTidy(s0.(byzBuf := s0.byzBuf - {h}, byzReplyMap := s0.byzReplyMap - {h}), s.byzBuf[h], chans);
    }
    assert (forall n :: n in s1.probes ==> n > s1.ackedBci) && s1.ackedBci >= s.ackedBci && s1.byzReplyMap.Keys !! s1.byzBuf.Keys;
  }

  lemma {:induction false} ByzTidy(s: State, h: Digest, ack: ByzAck)
    requires Tidy(s) && Legal(s, Byz(h, ack))
    ensures Tidy(Step(s, Byz(h, ack))) && Step(s, Byz(h, ack)).ackedBci >= s.ackedBci
  {
    hide DoByz;
    if h in s.byzReplyMap {
      DoByzTidy(s.(byzReplyMap := s.byzReplyMap - {h}), ack, s.byzReplyMap[h]);
    }
  }

  lemma {:induction false} ProbeTidy(s: State, n: nat, c: Chan)
    requires Tidy(s)
    ensures Tidy(Step(s, Probe(n, c))) && Step(s, Probe(n, c)).ackedBci >= s.ackedBci
  {
    hide DueProbes;
  }

  lemma {:induction false} CrashTidy(s: State, h: Digest, ack: CrashAck)
    requires Tidy(s) && Legal(s, Crash(h, ack))
    ensures Tidy(Step(s, Crash(h, ack))) && Step(s, Crash(h, ack)).ackedBci >= s.ackedBci
  {
    hide CrashReply;
  }

  lemma {:induction false} StepTidy(s: State, e: Event)
    requires Tidy(s) && Legal(s, e)
    ensures Tidy(Step(s, e)) && Step(s, e).ackedBci >= s.ackedBci
  {
    hide DoByz, AcceptBatch, CrashReply, ClearProbes, TryAgains, CancelPending;
    match e {
      case Batch(hash, chans) =>
        if hash != None && !s.mustCancel {
          AcceptTidy(s, hash.value, chans);
        }
      case Byz(h, ack) =>
        ByzTidy(s, h, ack);
      case Crash(h, ack) =>
        CrashTidy(s, h, ack);
      case Probe(n, c) =>
        ProbeTidy(s, n, c);
      case _ =>
    }
  }

  /** In every reachable state buffered probes are past the acknowledged block, and no hash waits on both sides. */
  lemma {:induction false} RunTidy(es: seq<Event>)
    requires LegalRun(es)
    ensures Tidy(Run(es))
  {
    hide Step, Legal;
    if es != [] {
      RunTidy(es[..|es| - 1]);
      StepTidy(Run(es[..|es| - 1]), es[|es| - 1]);
    }
  }
}
