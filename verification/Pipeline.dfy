/**
 * Proposer, sequencer and reply handler in a row, joined by first-in first-out channels: a receipt for transaction i of a
 * block reaches the channel that submitted transaction i.
 */
module Pipeline {
  import opened Basics
  import opened Chain
  import P = BatchProposers
  import S = Sequencers
  import R = ReplyHandlers
  import ReplyAccounting
  import ReplyLedger

  // ---------------------------------------------------------------- block hashes are never reused

  predicate Before(a: Block, b: Block) {
    a.view < b.view || (a.view == b.view && a.n < b.n)
  }

  ghost predicate Increasing(blocks: seq<Block>) {
    forall i, j :: 0 <= i < j < |blocks| ==> Before(blocks[i], blocks[j])
  }

  /** Views do not go back, and a view is opened once. */
  ghost predicate OpensFresh(cfg: S.Config, s: S.State, e: S.Event)
    requires S.ValidConfig(cfg)
  {
    && (S.Changes(e) ==> e.v >= s.view)
    && (e.NewViewMessage? && S.Leads(cfg, e.v) ==> forall b :: b in s.blocks ==> b.view < e.v)
  }

  ghost predicate FreshRun(cfg: S.Config, ss: seq<S.Event>)
    requires S.ValidConfig(cfg)
  {
    ss == [] || (FreshRun(cfg, ss[..|ss| - 1]) && OpensFresh(cfg, S.Run(cfg, ss[..|ss| - 1]), ss[|ss| - 1]))
  }

  ghost predicate Ordered(s: S.State) {
    && Increasing(s.blocks)
    && (forall b :: b in s.blocks ==> b.view <= s.view)
    && (s.blocks != [] ==> s.blocks[|s.blocks| - 1].n == s.seqNum)
    && (forall r :: r in s.replies && r.hash.Some? ==> exists b :: b in s.blocks && r.hash == Some(Sha(b)))
    && ReplyAccounting.HashesDiffer(s.replies)
  }

  lemma {:induction false} EmitOrdered(cfg: S.Config, s: S.State, txs: seq<Tx>, chans: seq<R.Chan>)
    requires S.ValidConfig(cfg) && Increasing(s.blocks) && ReplyAccounting.HashesDiffer(s.replies)
    requires forall r :: r in s.replies && r.hash.Some? ==> exists b :: b in s.blocks && r.hash == Some(Sha(b))
    requires forall b :: b in s.blocks ==> Before(b, S.NextBlock(cfg, s, txs))
    ensures Ordered(S.Emit(cfg, s, txs, chans))
  {
    hide S.MustSign;
    var t, b := S.Emit(cfg, s, txs, chans), S.NextBlock(cfg, s, txs);
    var r := R.BatchRecord(Some(Sha(b)), chans);
    assert b in t.blocks;
    forall q | q in t.replies && q.hash.Some? ensures exists c :: c in t.blocks && q.hash == Some(Sha(c)) {
      if q in s.replies {
        var c :| c in s.blocks && q.hash == Some(Sha(c));
        assert c in t.blocks;
      }
    }
    forall i, j | 0 <= i < j < |t.replies| && t.replies[i].hash.Some? ensures t.replies[i].hash != t.replies[j].hash {
      assert t.replies[i] in s.replies;
      var c :| c in s.blocks && t.replies[i].hash == Some(Sha(c));
      assert Before(c, b);
    }
  }

  lemma {:induction false} LatestIsGreatest(s: S.State, b: Block)
    requires Ordered(s) && b in s.blocks
    ensures b.view == s.view ==> b.n <= s.seqNum
  {
    var i :| 0 <= i < |s.blocks| && s.blocks[i] == b;
    var last := s.blocks[|s.blocks| - 1];
    assert last in s.blocks;
    if i < |s.blocks| - 1 {
      assert Before(b, last);
    }
  }

  lemma {:induction false} StepOrdered(cfg: S.Config, s: S.State, e: S.Event)
    requires S.ValidConfig(cfg) && Ordered(s) && OpensFresh(cfg, s, e)
    ensures Ordered(S.Step(cfg, s, e))
  {
    hide S.MustSign, S.Leads;
    match e {
      case NewBatch(txs, chans) =>
        if S.Listening(cfg, s) {
          forall b | b in s.blocks ensures Before(b, S.NextBlock(cfg, s, txs)) {
            LatestIsGreatest(s, b);
          }
          EmitOrdered(cfg, s, txs, chans);
        }
      case NewViewMessage(v, c, parent, n) =>
        if S.Leads(cfg, v) {
          var t := s.(view := v, configNum := c, viewIsStable := false, qcs := S.OfView(s.qcs, v));
          EmitOrdered(cfg, t.(seqNum := n, parent := Some(parent)), [], []);
        }
      case _ =>
    }
  }

  /** No two reply batches of a run wait under the same block hash. */
  lemma {:induction false} HashesNeverReused(cfg: S.Config, ss: seq<S.Event>)
    requires S.ValidConfig(cfg) && FreshRun(cfg, ss)
    ensures Ordered(S.Run(cfg, ss))
  {
    hide S.Step, OpensFresh;
    if ss != [] {
      HashesNeverReused(cfg, ss[..|ss| - 1]);
      StepOrdered(cfg, S.Run(cfg, ss[..|ss| - 1]), ss[|ss| - 1]);
    }
  }

  // ---------------------------------------------------------------- blocks and their reply channels

  function Fed(ss: seq<S.Event>): seq<P.RawBatch> {
    if ss == [] then []
    else
      var e := ss[|ss| - 1];
      Fed(ss[..|ss| - 1]) + if e.NewBatch? then [P.RawBatch(e.txs, e.chans)] else []
  }

  /** A batch record names the block that holds its transactions: one fed in, or the empty opening block of a view. */
  ghost predicate Backs(blocks: seq<Block>, fed: seq<P.RawBatch>, r: R.BatchRecord, b: Block) {
    b in blocks && r.hash == Some(Sha(b)) && (P.RawBatch(b.txs, r.chans) in fed || (b.txs == [] && r.chans == []))
  }

  ghost predicate AllBacked(s: S.State, fed: seq<P.RawBatch>) {
    forall r :: r in s.replies && r.hash.Some? ==> exists b :: Backs(s.blocks, fed, r, b)
  }

  lemma {:induction false} BackedGrows(s: S.State, t: S.State, fed: seq<P.RawBatch>, fed': seq<P.RawBatch>, b: Block, chans: seq<R.Chan>)
    requires AllBacked(s, fed) && t.blocks == s.blocks + [b] && t.replies == s.replies + [R.BatchRecord(Some(Sha(b)), chans)]
    requires fed <= fed' && (P.RawBatch(b.txs, chans) in fed' || (b.txs == [] && chans == []))
    ensures AllBacked(t, fed')
  {
    forall r | r in t.replies && r.hash.Some? ensures exists c :: Backs(t.blocks, fed', r, c) {
      if r in s.replies {
        var c :| Backs(s.blocks, fed, r, c);
        assert Backs(t.blocks, fed', r, c);
      } else {
        assert b in t.blocks;
        assert Backs(t.blocks, fed', r, b);
      }
    }
  }

  lemma {:induction false} BackedStays(s: S.State, t: S.State, fed: seq<P.RawBatch>, fed': seq<P.RawBatch>)
    requires AllBacked(s, fed) && t.blocks == s.blocks && fed <= fed'
    requires forall r :: r in t.replies && r.hash.Some? ==> r in s.replies
    ensures AllBacked(t, fed')
  {
    forall r | r in t.replies && r.hash.Some? ensures exists c :: Backs(t.blocks, fed', r, c) {
      var c :| Backs(s.blocks, fed, r, c);
      assert Backs(t.blocks, fed', r, c);
    }
  }

  lemma {:induction false} RunBacked(cfg: S.Config, ss: seq<S.Event>)
    requires S.ValidConfig(cfg)
    ensures AllBacked(S.Run(cfg, ss), Fed(ss))
  {
    if ss != [] {
      hide S.MustSign, AllBacked, S.Leads;
      var before, e := ss[..|ss| - 1], ss[|ss| - 1];
      var s, fed := S.Run(cfg, before), Fed(before);
      RunBacked(cfg, before);
      match e {
        case NewBatch(txs, chans) =>
          if S.Listening(cfg, s) {
            assert Fed(ss)[|fed|] == P.RawBatch(txs, chans);
            BackedGrows(s, S.Run(cfg, ss), fed, Fed(ss), S.NextBlock(cfg, s, txs), chans);
          } else {
            BackedStays(s, S.Run(cfg, ss), fed, Fed(ss));
          }
        case NewViewMessage(v, c, parent, n) =>
          if S.Leads(cfg, v) {
            var t := s.(view := v, configNum := c, viewIsStable := false, qcs := S.OfView(s.qcs, v));
            BackedGrows(s, S.Run(cfg, ss), fed, Fed(ss), S.NextBlock(cfg, t.(seqNum := n, parent := Some(parent)), []), []);
          } else {
            BackedStays(s, S.Run(cfg, ss), fed, Fed(ss));
          }
        case _ => BackedStays(s, S.Run(cfg, ss), fed, Fed(ss));
      }
    } else {
      assert S.Run(cfg, ss).replies == [];
    }
  }

  // ---------------------------------------------------------------- receipts and their batches

  /** Receipt o answers request `txN` of batch b with the result that acknowledgement ack has for it. */
  predicate Answers(o: R.Out, b: R.BatchRecord, ack: R.CrashAck) {
    && o.Receipt? && b.hash == Some(o.hash) && o.n == ack.n
    && o.txN < |b.chans| == |ack.results| && o.chan == b.chans[o.txN] && o.result == ack.results[o.txN]
  }

  ghost predicate Grounded(o: R.Out, bs: seq<R.BatchRecord>, acks: set<(Digest, R.CrashAck)>) {
    o.Receipt? ==> exists b, ack :: b in bs && (o.hash, ack) in acks && Answers(o, b, ack)
  }

  ghost predicate Sound(s: R.State, bs: seq<R.BatchRecord>, acks: set<(Digest, R.CrashAck)>) {
    && (forall h :: h in s.replyMap ==> R.BatchRecord(Some(h), s.replyMap[h]) in bs)
    && (forall h :: h in s.crashBuf ==> (h, s.crashBuf[h]) in acks)
    && (forall o :: o in s.out ==> Grounded(o, bs, acks))
  }

  lemma {:induction false} GroundedGrows(o: R.Out, bs: seq<R.BatchRecord>, acks: set<(Digest, R.CrashAck)>, bs': seq<R.BatchRecord>, acks': set<(Digest, R.CrashAck)>)
    requires Grounded(o, bs, acks) && bs <= bs' && acks <= acks'
    ensures Grounded(o, bs', acks')
  {
    if o.Receipt? {
      var b, ack :| b in bs && (o.hash, ack) in acks && Answers(o, b, ack);
      assert b in bs' && (o.hash, ack) in acks';
    }
  }

  lemma {:induction false} CrashReplyGrounded(s: R.State, h: Digest, ack: R.CrashAck, chans: seq<R.Chan>, i: nat,
                                              bs: seq<R.BatchRecord>, acks: set<(Digest, R.CrashAck)>)
    requires i <= |chans| == |ack.results| && R.BatchRecord(Some(h), chans) in bs && (h, ack) in acks
    requires forall o :: o in s.out ==> Grounded(o, bs, acks)
    ensures forall o :: o in R.CrashReply(s, h, ack, chans, i).out ==> Grounded(o, bs, acks)
    decreases i
  {
    if i > 0 {
      CrashReplyGrounded(s, h, ack, chans, i - 1, bs, acks);
      var t, c := R.CrashReply(s, h, ack, chans, i - 1), chans[i - 1];
      var o := R.Receipt(ack.n, i - 1, h, ack.results[i - 1], c, R.Stored(t, c.sender));
      assert Answers(o, R.BatchRecord(Some(h), chans), ack);
    }
  }

  lemma {:induction false} ClearProbesAddsNoReceipt(s: R.State)
    ensures forall o :: o in R.ClearProbes(s).out ==> o in s.out || !o.Receipt?
  {
    forall o | o in R.DueProbes(s.probes, s.ackedBci) ensures !o.Receipt? {
      ReplyAccounting.DueProbesExact(s.probes, s.ackedBci, o);
    }
  }

  lemma {:induction false} DoByzAddsNoReceipt(s: R.State, ack: R.ByzAck, chans: seq<R.Chan>)
    requires |chans| == |ack.responses|
    ensures forall o :: o in R.DoByz(s, ack, chans).out ==> o in s.out || !o.Receipt?
  {
    hide R.ClearProbes, R.KeepResponses;
    var t := R.KeepResponses(s, ack, chans, |chans|);
    ClearProbesAddsNoReceipt(t.(ackedBci := if ack.n > t.ackedBci then ack.n else t.ackedBci));
  }

  /** A step that adds no receipt and at most forgets waiting batches. */
  ghost predicate Quiet(s: R.State, t: R.State) {
    && t.crashBuf == s.crashBuf && (t.replyMap == s.replyMap || t.replyMap == map[])
    && forall o :: o in t.out ==> o in s.out || !o.Receipt?
  }

  lemma {:induction false} RefusedBatchQuiet(s: R.State, hash: Option<Digest>, chans: seq<R.Chan>)
    requires hash == None || s.mustCancel
    ensures Quiet(s, R.Step(s, R.Batch(hash, chans)))
  {
    hide R.TryAgains, R.AcceptBatch;
    ReplyLedger.TryAgainsOnly(chans);
  }

  lemma {:induction false} CancelQuiet(s: R.State, order: seq<Digest>)
    requires R.Legal(s, R.CancelAll(order))
    ensures Quiet(s, R.Step(s, R.CancelAll(order)))
  {
    hide R.CancelPending;
    ReplyLedger.CancelPendingOnly(s.replyMap, order);
  }

  lemma {:induction false} ByzQuiet(s: R.State, h: Digest, ack: R.ByzAck)
    requires R.Legal(s, R.Byz(h, ack))
    ensures Quiet(s, R.Step(s, R.Byz(h, ack)))
  {
    hide R.DoByz;
    if h in s.byzReplyMap {
      DoByzAddsNoReceipt(s.(byzReplyMap := s.byzReplyMap - {h}), ack, s.byzReplyMap[h]);
    }
  }

  lemma {:induction false} ProbeQuiet(s: R.State, n: nat, c: R.Chan)
    ensures Quiet(s, R.Step(s, R.Probe(n, c)))
  {
    hide R.ClearProbes;
    var t := s.(probes := s.probes[n := (if n in s.probes then s.probes[n] else []) + [c]]);
    ClearProbesFrame(t);
    ClearProbesAddsNoReceipt(t);
  }

  lemma {:induction false} QuietSound(s: R.State, t: R.State, bs: seq<R.BatchRecord>, bs': seq<R.BatchRecord>, acks: set<(Digest, R.CrashAck)>)
    requires Sound(s, bs, acks) && Quiet(s, t) && bs <= bs'
    ensures Sound(t, bs', acks)
  {
    hide Grounded;
    forall o | o in t.out ensures Grounded(o, bs', acks) {
      if o in s.out {
        GroundedGrows(o, bs, acks, bs', acks);
      } else {
        NotAReceipt(o, bs', acks);
      }
    }
  }

  /** Steps without a crash acknowledgement or an accepted batch add no receipt. */
  lemma {:induction false} OtherStepSound(s: R.State, e: R.Event, bs: seq<R.BatchRecord>, bs': seq<R.BatchRecord>, acks: set<(Digest, R.CrashAck)>)
    requires Sound(s, bs, acks) && R.Legal(s, e) && bs <= bs' && !e.Crash?
    requires e.Batch? ==> e.batchHash == None || s.mustCancel
    ensures Sound(R.Step(s, e), bs', acks)
  {
    hide Sound, R.ClearProbes, R.DoByz, R.TryAgains, R.CancelPending, R.AcceptBatch;
    match e {
      case Batch(hash, chans) => RefusedBatchQuiet(s, hash, chans);
      case CancelAll(order) => CancelQuiet(s, order);
      case Byz(h, ack) => ByzQuiet(s, h, ack);
      case Probe(n, c) => ProbeQuiet(s, n, c);
      case StopCancelling =>
      case Unlogged(_, _) =>
      case Crash(_, _) =>
    }
    QuietSound(s, R.Step(s, e), bs, bs', acks);
  }

  lemma ClearProbesFrame(s: R.State)
    ensures R.ClearProbes(s).replyMap == s.replyMap && R.ClearProbes(s).crashBuf == s.crashBuf
  {
  }

  lemma NotAReceipt(o: R.Out, bs: seq<R.BatchRecord>, acks: set<(Digest, R.CrashAck)>)
    requires !o.Receipt?
    ensures Grounded(o, bs, acks)
  {
  }

  lemma {:induction false} AcceptSound(s: R.State, h: Digest, chans: seq<R.Chan>, bs: seq<R.BatchRecord>, acks: set<(Digest, R.CrashAck)>)
    requires Sound(s, bs, acks) && R.Legal(s, R.Batch(Some(h), chans)) && !s.mustCancel
    ensures Sound(R.AcceptBatch(s, h, chans), bs + [R.BatchRecord(Some(h), chans)], acks)
  {
    hide R.DoByz, R.CrashReply, Grounded;
    var bs' := bs + [R.BatchRecord(Some(h), chans)];
    assert R.BatchRecord(Some(h), chans) in bs' && forall b :: b in bs ==> b in bs';
    var s0 := s.(byzReplyMap := s.byzReplyMap[h := chans], replyMap := s.replyMap[h := chans]);
    var s1 := R.ClearByzBuf(s0, h, chans);
    if h in s.byzBuf {
      DoByzAddsNoReceipt(s0.(byzBuf := s0.byzBuf - {h}, byzReplyMap := s0.byzReplyMap - {h}), s.byzBuf[h], chans);
    }
    forall o | o in s1.out ensures Grounded(o, bs', acks) {
      if o in s.out {
        GroundedGrows(o, bs, acks, bs', acks);
      } else {
        NotAReceipt(o, bs', acks);
      }
    }
    if h in s1.crashBuf {
      CrashReplyGrounded(s1.(crashBuf := s1.crashBuf - {h}, replyMap := s1.replyMap - {h}), h, s1.crashBuf[h], chans, |chans|, bs', acks);
    }
  }

  lemma {:induction false} CrashSound(s: R.State, h: Digest, ack: R.CrashAck, bs: seq<R.BatchRecord>, acks: set<(Digest, R.CrashAck)>)
    requires Sound(s, bs, acks) && R.Legal(s, R.Crash(h, ack))
    ensures Sound(R.Step(s, R.Crash(h, ack)), bs, acks + {(h, ack)})
  {
    hide R.CrashReply, Grounded;
    forall o | o in s.out ensures Grounded(o, bs, acks + {(h, ack)}) {
      GroundedGrows(o, bs, acks, bs, acks + {(h, ack)});
    }
    if h in s.replyMap {
      CrashReplyGrounded(s.(replyMap := s.replyMap - {h}), h, ack, s.replyMap[h], |s.replyMap[h]|, bs, acks + {(h, ack)});
    }
  }

  lemma {:induction false} RunSound(es: seq<R.Event>)
    requires R.LegalRun(es)
    ensures Sound(R.Run(es), R.Batches(es), R.Acks(es))
  {
    if es != [] {
      hide R.AcceptBatch, Sound, R.Legal;
      var before, e := es[..|es| - 1], es[|es| - 1];
      var s, bs, acks := R.Run(before), R.Batches(before), R.Acks(before);
      RunSound(before);
      assert !e.Crash? ==> R.Acks(es) == acks;
      assert !e.Batch? ==> R.Batches(es) == bs;
      match e {
        case Batch(hash, chans) =>
          if hash == None || s.mustCancel {
            OtherStepSound(s, e, bs, R.Batches(es), acks);
          } else {
            AcceptSound(s, hash.value, chans, bs, acks);
          }
        case Crash(h, ack) => CrashSound(s, h, ack, bs, acks);
        case _ => OtherStepSound(s, e, bs, R.Batches(es), acks);
      }
    }
  }

  // ---------------------------------------------------------------- end to end

  /** Acknowledgements name the block they are for. */
  ghost predicate Truthful(acks: set<(Digest, R.CrashAck)>, blocks: seq<Block>) {
    forall b, ack :: b in blocks && (Sha(b), ack) in acks ==> ack.n == b.n
  }

  /**
   * Any receipt sent, at the end of any run of the three components, goes to the channel that submitted the very
   * transaction it names: transaction `txN` of the block with the receipt's number and hash.
   */
  lemma {:induction false} ReceiptReachesSubmitter(pcfg: P.Config, ps: seq<P.Event>, cfg: S.Config, ss: seq<S.Event>, es: seq<R.Event>, o: R.Out)
    returns (b: Block, k: nat)
    requires S.ValidConfig(cfg) && R.LegalRun(es)
    requires Fed(ss) <= P.Run(pcfg, ps).proposed && R.Batches(es) <= S.Run(cfg, ss).replies
    requires Truthful(R.Acks(es), S.Run(cfg, ss).blocks)
    requires o in R.Run(es).out && o.Receipt?
    ensures b in S.Run(cfg, ss).blocks && o.hash == Sha(b) && o.n == b.n && o.txN < |b.txs|
    ensures k < |P.TakenIn(pcfg, ps)| && P.TakenIn(pcfg, ps)[k] == (b.txs[o.txN], o.chan)
  {
    RunSound(es);
    RunBacked(cfg, ss);
    var s := S.Run(cfg, ss);
    assert Grounded(o, R.Batches(es), R.Acks(es));
    var r, ack :| r in R.Batches(es) && (o.hash, ack) in R.Acks(es) && Answers(o, r, ack);
    assert r in s.replies;
    b :| Backs(s.blocks, Fed(ss), r, b);
    k := SubmittedAt(pcfg, ps, P.RawBatch(b.txs, r.chans), o.txN);
  }

  lemma {:induction false} SubmittedAt(pcfg: P.Config, ps: seq<P.Event>, raw: P.RawBatch, i: nat) returns (k: nat)
    requires raw in P.Run(pcfg, ps).proposed && i < |raw.chans|
    ensures i < |raw.txs| && k < |P.TakenIn(pcfg, ps)| && P.TakenIn(pcfg, ps)[k] == (raw.txs[i], raw.chans[i])
  {
    P.EachRequestInOneBatch(pcfg, ps);
    var bs := P.Run(pcfg, ps).proposed;
    var j :| 0 <= j < |bs| && bs[j] == raw;
    P.FlattenAt(bs, j, i);
    k := P.Offset(bs, j) + i;
  }
}
