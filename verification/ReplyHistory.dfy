/**
 * The reply handler against the history of its run: probes, unlogged replies, and byzantine acknowledgements that come
 * before their batch.
 */
module ReplyHistory {
  import opened Basics
  import opened Chain
  import opened ReplyHandlers
  import ReplyAccounting
  import ReplyLedger

  // ---------------------------------------------------------------- probes

  /** The channels that asked for block n, in order. */
  function Asked(es: seq<Event>, n: nat): seq<Chan> {
    if es == [] then []
    else
      var e := es[|es| - 1];
      Asked(es[..|es| - 1], n) + if e.Probe? && e.n == n then [e.chan] else []
  }

  /** The channels that have been told of block n, in order. */
  function Told(out: seq<Out>, n: nat): seq<Chan> {
    if out == [] then []
    else
      var o := out[|out| - 1];
      Told(out[..|out| - 1], n) + if o.ProbeReceipt? && o.n == n then o.chans else []
  }

  function Waiting(s: State, n: nat): seq<Chan> {
    if n in s.probes then s.probes[n] else []
  }

  function Account(s: State, n: nat): seq<Chan> {
    Told(s.out, n) + Waiting(s, n)
  }

  lemma {:induction false} ToldConcat(a: seq<Out>, b: seq<Out>, n: nat)
    ensures Told(a + b, n) == Told(a, n) + Told(b, n)
  {
    if b == [] {
      assert a + b == a;
    } else {
      ToldConcat(a, b[..|b| - 1], n);
      assert (a + b)[..|a + b| - 1] == a + b[..|b| - 1];
    }
  }

  lemma {:induction false} NoneTold(out: seq<Out>, n: nat)
    requires forall o :: o in out ==> !o.ProbeReceipt?
    ensures Told(out, n) == []
  {
    if out != [] {
      assert out[|out| - 1] in out;
      NoneTold(out[..|out| - 1], n);
    }
  }

  lemma {:induction false} OthersTold(a: seq<Out>, b: seq<Out>, n: nat)
    requires forall o :: o in b ==> !o.ProbeReceipt?
    ensures Told(a + b, n) == Told(a, n)
  {
    ToldConcat(a, b, n);
    NoneTold(b, n);
  }

  lemma {:induction false} DueTold(probes: map<nat, seq<Chan>>, bci: nat, n: nat)
    ensures Told(DueProbes(probes, bci), n) == if n in probes && n <= bci then probes[n] else []
    decreases probes.Keys
  {
    if Due(probes, bci) == {} {
      NothingDue(probes, bci);
    } else {
      FirstDue(probes, bci);
      var k := Least(Due(probes, bci));
      var head, rest := [ProbeReceipt(k, probes[k])], DueProbes(probes - {k}, bci);
      DueTold(probes - {k}, bci, n);
      ToldConcat(head, rest, n);
      assert head[..0] == [];
    }
  }

  lemma {:induction false} ClearTold(s: State, n: nat)
    ensures Account(ClearProbes(s), n) == Account(s, n)
  {
    hide DueProbes, Told;
    ToldConcat(s.out, DueProbes(s.probes, s.ackedBci), n);
    DueTold(s.probes, s.ackedBci, n);
  }

  lemma {:induction false} CrashTold(s: State, h: Digest, ack: CrashAck, chans: seq<Chan>, i: nat, n: nat)
    requires i <= |chans| == |ack.results|
    ensures Account(CrashReply(s, h, ack, chans, i), n) == Account(s, n)
    decreases i
  {
    if i > 0 {
      hide Told;
      CrashTold(s, h, ack, chans, i - 1, n);
      var t, c := CrashReply(s, h, ack, chans, i - 1), chans[i - 1];
      OthersTold(t.out, [Receipt(ack.n, i - 1, h, ack.results[i - 1], c, Stored(t, c.sender))], n);
    }
  }

  lemma {:induction false} ByzTold(s: State, ack: ByzAck, chans: seq<Chan>, n: nat)
    requires |chans| == |ack.responses|
    ensures Account(DoByz(s, ack, chans), n) == Account(s, n)
  {
    hide ClearProbes, KeepResponses, Told;
    var t := KeepResponses(s, ack, chans, |chans|);
    ClearTold(t.(ackedBci := if ack.n > t.ackedBci then ack.n else t.ackedBci), n);
  }

  lemma {:induction false} AcceptTold(s: State, h: Digest, chans: seq<Chan>, n: nat)
    requires Legal(s, Batch(Some(h), chans)) && !s.mustCancel
    ensures Account(AcceptBatch(s, h, chans), n) == Account(s, n)
  {
    hide DoByz, CrashReply, Told;
    var s0 := s.(byzReplyMap := s.byzReplyMap[h := chans], replyMap := s.replyMap[h := chans]);
    if h in s.byzBuf {
      ByzTold(s0.(byzBuf := s0.byzBuf - {h}, byzReplyMap := s0.byzReplyMap - {h}), s.byzBuf[h], chans, n);
    }
    var s1 := ClearByzBuf(s0, h, chans);
    if h in s1.crashBuf {
      CrashTold(s1.(crashBuf := s1.crashBuf - {h}, replyMap := s1.replyMap - {h}), h, s1.crashBuf[h], chans, |chans|, n);
    }
  }

  lemma {:induction false} ProbeTold(s: State, m: nat, c: Chan, n: nat)
    ensures Account(Step(s, Probe(m, c)), n) == Account(s, n) + if m == n then [c] else []
  {
    hide ClearProbes, Told;
    ClearTold(s.(probes := s.probes[m := (if m in s.probes then s.probes[m] else []) + [c]]), n);
    assert Told(s.out, n) + (Waiting(s, n) + [c]) == Told(s.out, n) + Waiting(s, n) + [c];
  }

  lemma {:induction false} StepTold(s: State, e: Event, n: nat)
    requires Legal(s, e)
    ensures Account(Step(s, e), n) == Account(s, n) + if e.Probe? && e.n == n then [e.chan] else []
  {
    hide DoByz, CrashReply, AcceptBatch, ClearProbes, TryAgains, CancelPending, Told;
    match e {
      case Batch(hash, chans) =>
        if hash == None || s.mustCancel {
          ReplyLedger.TryAgainsOnly(chans);
          OthersTold(s.out, TryAgains(chans), n);
        } else {
          AcceptTold(s, hash.value, chans, n);
        }
      case Crash(h, ack) =>
        if h in s.replyMap {
          CrashTold(s.(replyMap := s.replyMap - {h}), h, ack, s.replyMap[h], |s.replyMap[h]|, n);
        }
      case Byz(h, ack) =>
        if h in s.byzReplyMap {
          ByzTold(s.(byzReplyMap := s.byzReplyMap - {h}), ack, s.byzReplyMap[h], n);
        }
      case CancelAll(order) =>
        ReplyLedger.CancelPendingOnly(s.replyMap, order);
        OthersTold(s.out, CancelPending(s.replyMap, order), n);
      case Unlogged(result, c) => OthersTold(s.out, [UnloggedReceipt(result, c)], n);
      case Probe(m, c) => ProbeTold(s, m, c, n);
      case StopCancelling =>
    }
  }

  /**
   * Over every run, whoever asked for block n has been told or still waits, in the order of asking, and waits exactly while
   * the block is past the mark.
   */
  lemma {:induction false} ProbesConserved(es: seq<Event>, n: nat)
    requires LegalRun(es)
    ensures Told(Run(es).out, n) + Waiting(Run(es), n) == Asked(es, n)
    ensures n <= Run(es).ackedBci ==> Told(Run(es).out, n) == Asked(es, n)
  {
    hide Step, Legal;
    ReplyLedger.RunTidy(es);
    if es != [] {
      ProbesConserved(es[..|es| - 1], n);
      StepTold(Run(es[..|es| - 1]), es[|es| - 1], n);
    }
  }

  /** Probes that fall due together are answered in block order. */
  lemma {:induction false} DueInOrder(probes: map<nat, seq<Chan>>, bci: nat, i: nat, j: nat)
    requires i < j < |DueProbes(probes, bci)|
    ensures var due := DueProbes(probes, bci); due[i].ProbeReceipt? && due[j].ProbeReceipt? && due[i].n < due[j].n
    decreases probes.Keys
  {
    FirstDue(probes, bci);
    var k := Least(Due(probes, bci));
    var due, rest := DueProbes(probes, bci), DueProbes(probes - {k}, bci);
    if i > 0 {
      DueInOrder(probes - {k}, bci, i - 1, j - 1);
    } else {
      assert due[j] == rest[j - 1] && rest[j - 1] in rest;
      ReplyAccounting.DueProbesExact(probes - {k}, bci, due[j]);
      assert due[j].n in Due(probes, bci);
    }
  }

  // ---------------------------------------------------------------- the mark

  /** The byzantine acknowledgement that an event brings together with its batch, if it does. */
  function MetAck(s: State, e: Event): Option<ByzAck> {
    match e
    case Batch(Some(h), _) => if !s.mustCancel && h in s.byzBuf then Some(s.byzBuf[h]) else None
    case Byz(h, ack) => if h in s.byzReplyMap then Some(ack) else None
    case _ => None
  }

  ghost function HighestMet(es: seq<Event>): nat
    requires LegalRun(es)
  {
    if es == [] then 0
    else
      var before := es[..|es| - 1];
      var m, met := HighestMet(before), MetAck(Run(before), es[|es| - 1]);
      if met.Some? && met.value.n > m then met.value.n else m
  }

  lemma {:induction false} StepMark(s: State, e: Event)
    requires Legal(s, e)
    ensures var met := MetAck(s, e);
            Step(s, e).ackedBci == if met.Some? && met.value.n > s.ackedBci then met.value.n else s.ackedBci
  {
    hide CrashReply, DueProbes, TryAgains, CancelPending, KeepResponses;
  }

  /** The mark is the highest block whose byzantine acknowledgement has met its batch. */
  lemma {:induction false} MarkFromHistory(es: seq<Event>)
    requires LegalRun(es)
    ensures Run(es).ackedBci == HighestMet(es)
  {
    hide Step, Legal, MetAck;
    if es != [] {
      MarkFromHistory(es[..|es| - 1]);
      StepMark(Run(es[..|es| - 1]), es[|es| - 1]);
    }
  }

  // ---------------------------------------------------------------- acknowledgements before their batch

  /** A batch for block h came while nothing was being cancelled. */
  predicate Accepted(es: seq<Event>, h: Digest) {
    es != [] && var before, e := es[..|es| - 1], es[|es| - 1];
                Accepted(before, h) || (e.Batch? && e.batchHash == Some(h) && !ReplyAccounting.Cancelling(before))
  }

  predicate ByzAcked(es: seq<Event>, h: Digest) {
    es != [] && (ByzAcked(es[..|es| - 1], h) || (es[|es| - 1].Byz? && es[|es| - 1].hash == h))
  }

  ghost predicate Kept(s: State, h: Digest, accepted: bool, acked: bool) {
    && (acked && !accepted ==> h in s.byzBuf)
    && (accepted && !acked ==> h in s.byzReplyMap)
    && (!accepted ==> h !in s.byzReplyMap) && (!acked ==> h !in s.byzBuf)
  }

  lemma {:induction false} StepKept(s: State, e: Event, h: Digest, accepted: bool, acked: bool)
    requires Legal(s, e) && Kept(s, h, accepted, acked)
    ensures Kept(Step(s, e), h, accepted || (e.Batch? && e.batchHash == Some(h) && !s.mustCancel), acked || (e.Byz? && e.hash == h))
  {
    hide CrashReply, DoByz, DueProbes, TryAgains, CancelPending, AcceptBatch;
    if e.Batch? && e.batchHash.Some? && !s.mustCancel {
      AcceptKept(s, e.batchHash.value, e.chans, h, accepted, acked);
    } else if e.Byz? {
      ByzKept(s, e.hash, e.byzAck, h, accepted, acked);
    }
  }

  lemma {:induction false} ByzKept(s: State, b: Digest, ack: ByzAck, h: Digest, accepted: bool, acked: bool)
    requires Legal(s, Byz(b, ack)) && Kept(s, h, accepted, acked)
    ensures Kept(Step(s, Byz(b, ack)), h, accepted, acked || b == h)
  {
    hide DoByz;
  }

  lemma {:induction false} AcceptKept(s: State, b: Digest, chans: seq<Chan>, h: Digest, accepted: bool, acked: bool)
    requires Legal(s, Batch(Some(b), chans)) && !s.mustCancel && Kept(s, h, accepted, acked)
    ensures Kept(AcceptBatch(s, b, chans), h, accepted || b == h, acked)
  {
    hide CrashReply, DoByz;
  }

  /**
   * Over every run, neither side of the byzantine rendezvous is lost: an acknowledgement that came first is kept until its
   * batch is accepted, and an accepted batch until it is acknowledged.
   */
  lemma {:induction false} RendezvousKept(es: seq<Event>, h: Digest)
    requires LegalRun(es)
    ensures Kept(Run(es), h, Accepted(es, h), ByzAcked(es, h))
  {
    hide Step, Legal, Kept;
    if es == [] {
      NothingKept(h);
    } else {
      RendezvousKept(es[..|es| - 1], h);
      ReplyAccounting.CancellingFromHistory(es[..|es| - 1]);
      StepKept(Run(es[..|es| - 1]), es[|es| - 1], h, Accepted(es[..|es| - 1], h), ByzAcked(es[..|es| - 1], h));
    }
  }

  lemma NothingKept(h: Digest)
    ensures Kept(EMPTY, h, false, false)
  {
  }

  // ---------------------------------------------------------------- unlogged replies

  function UnloggedAsked(es: seq<Event>): seq<(Result, Chan)> {
    if es == [] then []
    else
      var e := es[|es| - 1];
      UnloggedAsked(es[..|es| - 1]) + if e.Unlogged? then [(e.result, e.chan)] else []
  }

  function UnloggedSent(out: seq<Out>): seq<(Result, Chan)> {
    if out == [] then []
    else
      var o := out[|out| - 1];
      UnloggedSent(out[..|out| - 1]) + if o.UnloggedReceipt? then [(o.result, o.chan)] else []
  }

  lemma {:induction false} NoneUnlogged(a: seq<Out>, b: seq<Out>)
    requires forall o :: o in b ==> !o.UnloggedReceipt?
    ensures UnloggedSent(a + b) == UnloggedSent(a)
  {
    if b == [] {
      assert a + b == a;
    } else {
      NoneUnlogged(a, b[..|b| - 1]);
      assert (a + b)[..|a + b| - 1] == a + b[..|b| - 1];
      assert b[|b| - 1] in b;
    }
  }

  lemma {:induction false} ClearUnlogged(s: State)
    ensures UnloggedSent(ClearProbes(s).out) == UnloggedSent(s.out)
  {
    hide DueProbes, UnloggedSent;
    var due := DueProbes(s.probes, s.ackedBci);
    forall o | o in due ensures !o.UnloggedReceipt? {
      ReplyAccounting.DueProbesExact(s.probes, s.ackedBci, o);
    }
    NoneUnlogged(s.out, due);
  }

  lemma {:induction false} CrashUnlogged(s: State, h: Digest, ack: CrashAck, chans: seq<Chan>, i: nat)
    requires i <= |chans| == |ack.results|
    ensures UnloggedSent(CrashReply(s, h, ack, chans, i).out) == UnloggedSent(s.out)
    decreases i
  {
    if i > 0 {
      hide UnloggedSent;
      CrashUnlogged(s, h, ack, chans, i - 1);
      var t, c := CrashReply(s, h, ack, chans, i - 1), chans[i - 1];
      NoneUnlogged(t.out, [Receipt(ack.n, i - 1, h, ack.results[i - 1], c, Stored(t, c.sender))]);
    }
  }

  lemma {:induction false} ByzUnlogged(s: State, ack: ByzAck, chans: seq<Chan>)
    requires |chans| == |ack.responses|
    ensures UnloggedSent(DoByz(s, ack, chans).out) == UnloggedSent(s.out)
  {
    hide ClearProbes, KeepResponses, UnloggedSent;
    var t := KeepResponses(s, ack, chans, |chans|);
    ClearUnlogged(t.(ackedBci := if ack.n > t.ackedBci then ack.n else t.ackedBci));
  }

  lemma {:induction false} AcceptUnlogged(s: State, h: Digest, chans: seq<Chan>)
    requires Legal(s, Batch(Some(h), chans)) && !s.mustCancel
    ensures UnloggedSent(AcceptBatch(s, h, chans).out) == UnloggedSent(s.out)
  {
    hide DoByz, CrashReply, UnloggedSent;
    var s0 := s.(byzReplyMap := s.byzReplyMap[h := chans], replyMap := s.replyMap[h := chans]);
    if h in s.byzBuf {
      ByzUnlogged(s0.(byzBuf := s0.byzBuf - {h}, byzReplyMap := s0.byzReplyMap - {h}), s.byzBuf[h], chans);
    }
    var s1 := ClearByzBuf(s0, h, chans);
    if h in s1.crashBuf {
      CrashUnlogged(s1.(crashBuf := s1.crashBuf - {h}, replyMap := s1.replyMap - {h}), h, s1.crashBuf[h], chans, |chans|);
    }
  }

  lemma {:induction false} StepUnlogged(s: State, e: Event)
    requires Legal(s, e)
    ensures UnloggedSent(Step(s, e).out) == UnloggedSent(s.out) + if e.Unlogged? then [(e.result, e.chan)] else []
  {
    hide DoByz, CrashReply, AcceptBatch, ClearProbes, TryAgains, CancelPending, UnloggedSent;
    match e {
      case Batch(hash, chans) =>
        if hash == None || s.mustCancel {
          ReplyLedger.TryAgainsOnly(chans);
          NoneUnlogged(s.out, TryAgains(chans));
        } else {
          AcceptUnlogged(s, hash.value, chans);
        }
      case Crash(h, ack) =>
        if h in s.replyMap {
          CrashUnlogged(s.(replyMap := s.replyMap - {h}), h, ack, s.replyMap[h], |s.replyMap[h]|);
        }
      case Byz(h, ack) =>
        if h in s.byzReplyMap {
          ByzUnlogged(s.(byzReplyMap := s.byzReplyMap - {h}), ack, s.byzReplyMap[h]);
        }
      case CancelAll(order) =>
        ReplyLedger.CancelPendingOnly(s.replyMap, order);
        NoneUnlogged(s.out, CancelPending(s.replyMap, order));
      case Unlogged(result, c) => OneUnlogged(s.out, result, c);
      case Probe(m, c) => ClearUnlogged(s.(probes := s.probes[m := (if m in s.probes then s.probes[m] else []) + [c]]));
      case StopCancelling =>
    }
  }

  lemma {:induction false} OneUnlogged(out: seq<Out>, result: Result, c: Chan)
    ensures UnloggedSent(out + [UnloggedReceipt(result, c)]) == UnloggedSent(out) + [(result, c)]
  {
    assert (out + [UnloggedReceipt(result, c)])[..|out|] == out;
  }

  /** Over every run, every unlogged request is answered, once, with its own result, in order. */
  lemma {:induction false} UnloggedAnswered(es: seq<Event>)
    requires LegalRun(es)
    ensures UnloggedSent(Run(es).out) == UnloggedAsked(es)
  {
    hide Step, Legal;
    if es != [] {
      UnloggedAnswered(es[..|es| - 1]);
      StepUnlogged(Run(es[..|es| - 1]), es[|es| - 1]);
    }
  }
}
