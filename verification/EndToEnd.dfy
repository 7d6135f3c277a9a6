/**
 * The whole path of a request, with the application behind it: what each component asks of the one before it is what
 * that one delivers, and so every request is answered at most once and by the right receipt.
 */
module EndToEnd {
  import opened Basics
  import opened Chain
  import A = Applications
  import P = BatchProposers
  import S = Sequencers
  import R = ReplyHandlers
  import opened Pipeline
  import opened ReplyAccounting

  // ---------------------------------------------------------------- lengths fit, so the handler's assertions hold

  /** The record of a block has one channel per transaction. */
  predicate FitsBatch(r: R.BatchRecord) {
    r.hash.Some? ==> r.hash.value.Sha? && |r.chans| == |r.hash.value.of.txs|
  }

  predicate FitsEvent(e: R.Event) {
    match e
    case Batch(hash, chans) => FitsBatch(R.BatchRecord(hash, chans))
    case Crash(h, ack) => h.Sha? && |ack.results| == |h.of.txs|
    case Byz(h, ack) => h.Sha? && |ack.responses| == |h.of.txs|
    case _ => true
  }

  ghost predicate FitsChans(m: map<Digest, seq<R.Chan>>) {
    forall h :: h in m ==> h.Sha? && |m[h]| == |h.of.txs|
  }

  ghost predicate FitsCrash(m: map<Digest, R.CrashAck>) {
    forall h :: h in m ==> h.Sha? && |m[h].results| == |h.of.txs|
  }

  ghost predicate FitsByz(m: map<Digest, R.ByzAck>) {
    forall h :: h in m ==> h.Sha? && |m[h].responses| == |h.of.txs|
  }

  /** Everything the handler keeps under a block's hash has as many entries as the block has transactions. */
  ghost predicate FitsState(s: R.State) {
    FitsChans(s.replyMap) && FitsChans(s.byzReplyMap) && FitsCrash(s.crashBuf) && FitsByz(s.byzBuf)
  }

  lemma ChansFit(m: map<Digest, seq<R.Chan>>, h: Digest, chans: seq<R.Chan>)
    requires FitsChans(m)
    ensures FitsChans(m - {h}) && (h in m ==> h.Sha? && |m[h]| == |h.of.txs|)
    ensures h.Sha? && |chans| == |h.of.txs| ==> FitsChans(m[h := chans])
  {
  }

  lemma CrashFits(m: map<Digest, R.CrashAck>, h: Digest, ack: R.CrashAck)
    requires FitsCrash(m)
    ensures FitsCrash(m - {h}) && (h in m ==> h.Sha? && |m[h].results| == |h.of.txs|)
    ensures h.Sha? && |ack.results| == |h.of.txs| ==> FitsCrash(m[h := ack])
  {
  }

  lemma ByzFits(m: map<Digest, R.ByzAck>, h: Digest, ack: R.ByzAck)
    requires FitsByz(m)
    ensures FitsByz(m - {h}) && (h in m ==> h.Sha? && |m[h].responses| == |h.of.txs|)
    ensures h.Sha? && |ack.responses| == |h.of.txs| ==> FitsByz(m[h := ack])
  {
  }

  lemma {:induction false} AcceptFits(s: R.State, h: Digest, chans: seq<R.Chan>)
    requires FitsState(s) && h.Sha? && |chans| == |h.of.txs|
    ensures R.Legal(s, R.Batch(Some(h), chans)) && FitsState(R.AcceptBatch(s, h, chans))
  {
    hide R.DoByz, R.CrashReply, FitsChans, FitsCrash, FitsByz;
    ChansFit(s.replyMap, h, chans);
    ChansFit(s.replyMap[h := chans], h, chans);
    ChansFit(s.byzReplyMap, h, chans);
    ChansFit(s.byzReplyMap[h := chans], h, chans);
    CrashFits(s.crashBuf, h, R.CrashAck(0, []));
    ByzFits(s.byzBuf, h, R.ByzAck(0, []));
  }

  lemma {:induction false} CommitFits(s: R.State, e: R.Event)
    requires FitsState(s) && FitsEvent(e) && (e.Crash? || e.Byz?)
    ensures R.Legal(s, e) && FitsState(R.Step(s, e))
  {
    hide R.DoByz, R.CrashReply, FitsChans, FitsCrash, FitsByz;
    ChansFit(s.replyMap, e.hash, []);
    ChansFit(s.byzReplyMap, e.hash, []);
    if e.Crash? {
      CrashFits(s.crashBuf, e.hash, e.ack);
    } else {
      ByzFits(s.byzBuf, e.hash, e.byzAck);
    }
  }

  lemma {:induction false} StepFits(s: R.State, e: R.Event)
    requires FitsState(s) && FitsEvent(e) && (e.CancelAll? ==> R.Legal(s, e))
    ensures R.Legal(s, e) && FitsState(R.Step(s, e))
  {
    hide R.DoByz, R.CrashReply, R.AcceptBatch, R.TryAgains, R.CancelPending, R.DueProbes, FitsCrash, FitsByz;
    if e.Crash? || e.Byz? {
      CommitFits(s, e);
    } else if e.Batch? && e.batchHash.Some? {
      AcceptFits(s, e.batchHash.value, e.chans);
    }
  }

  /** A drained map gives each of its keys once. */
  ghost predicate DrainsMaps(es: seq<R.Event>) {
    forall i :: 0 <= i < |es| && es[i].CancelAll? && R.LegalRun(es[..i]) ==> R.Legal(R.Run(es[..i]), es[i])
  }

  lemma {:induction false} FittingRunIsLegal(es: seq<R.Event>)
    requires DrainsMaps(es) && forall i :: 0 <= i < |es| ==> FitsEvent(es[i])
    ensures R.LegalRun(es) && FitsState(R.Run(es))
  {
    hide R.Step, R.Legal, FitsState, FitsEvent;
    if es != [] {
      var before, e := es[..|es| - 1], es[|es| - 1];
      forall i | 0 <= i < |before| && before[i].CancelAll? && R.LegalRun(before[..i]) ensures R.Legal(R.Run(before[..i]), before[i]) {
        assert before[..i] == es[..i];
      }
      FittingRunIsLegal(before);
      assert FitsEvent(e);
      StepFits(R.Run(before), e);
    } else {
      EmptyFits();
    }
  }

  lemma EmptyFits()
    ensures FitsState(R.EMPTY)
  {
  }

  // ---------------------------------------------------------------- the records of the sequencer

  /** Each record of a block has the channels that were proposed with its transactions. */
  lemma {:induction false} RecordsFit(pcfg: P.Config, ps: seq<P.Event>, cfg: S.Config, ss: seq<S.Event>, r: R.BatchRecord)
    requires S.ValidConfig(cfg) && Fed(ss) <= P.Run(pcfg, ps).proposed && r in S.Run(cfg, ss).replies
    ensures FitsBatch(r)
  {
    RunBacked(cfg, ss);
    P.EachRequestInOneBatch(pcfg, ps);
    if r.hash.Some? {
      var b :| Backs(S.Run(cfg, ss).blocks, Fed(ss), r, b);
      if P.RawBatch(b.txs, r.chans) in Fed(ss) {
        assert P.RawBatch(b.txs, r.chans) in P.Run(pcfg, ps).proposed;
      }
    }
  }

  /** All channels of a list of records, in order. */
  function Flat(bs: seq<R.BatchRecord>): seq<R.Chan> {
    if bs == [] then [] else Flat(bs[..|bs| - 1]) + bs[|bs| - 1].chans
  }

  function FlatRaw(bs: seq<P.RawBatch>): seq<R.Chan> {
    if bs == [] then [] else FlatRaw(bs[..|bs| - 1]) + bs[|bs| - 1].chans
  }

  lemma {:induction false} FlatSnoc(bs: seq<R.BatchRecord>, r: R.BatchRecord)
    ensures Flat(bs + [r]) == Flat(bs) + r.chans
  {
    assert (bs + [r])[..|bs|] == bs;
  }

  /** A step hands on the channels of the batch it was fed, and no others. */
  lemma {:induction false} StepKeepsChannels(cfg: S.Config, s: S.State, e: S.Event)
    requires S.ValidConfig(cfg)
    ensures Flat(S.Step(cfg, s, e).replies) == Flat(s.replies) + if e.NewBatch? then e.chans else []
  {
    hide S.MustSign, S.Leads, S.NextBlock, S.OfView, S.FromView, Flat;
    var replies := S.Step(cfg, s, e).replies;
    if |replies| > |s.replies| {
      assert replies == s.replies + [replies[|s.replies|]];
      FlatSnoc(s.replies, replies[|s.replies|]);
    }
  }

  /** Accepted or refused, every batch fed to the sequencer is handed on once, in order. */
  lemma {:induction false} RecordsKeepChannels(cfg: S.Config, ss: seq<S.Event>)
    requires S.ValidConfig(cfg)
    ensures Flat(S.Run(cfg, ss).replies) == FlatRaw(Fed(ss))
  {
    if ss != [] {
      hide S.Step, Flat;
      var before, e := ss[..|ss| - 1], ss[|ss| - 1];
      RecordsKeepChannels(cfg, before);
      StepKeepsChannels(cfg, S.Run(cfg, before), e);
      if e.NewBatch? {
        assert Fed(ss)[..|Fed(ss)| - 1] == Fed(before);
      } else {
        assert Fed(ss) == Fed(before);
      }
    }
  }

  lemma {:induction false} FlatPrefix(bs: seq<R.BatchRecord>, cs: seq<R.BatchRecord>)
    requires bs <= cs
    ensures Flat(bs) <= Flat(cs)
  {
    if bs != cs {
      FlatPrefix(bs, cs[..|cs| - 1]);
    }
  }

  lemma {:induction false} FlatRawPrefix(bs: seq<P.RawBatch>, cs: seq<P.RawBatch>)
    requires bs <= cs
    ensures FlatRaw(bs) <= FlatRaw(cs)
  {
    if bs != cs {
      FlatRawPrefix(bs, cs[..|cs| - 1]);
    }
  }

  /** The proposed channels are those of the requests taken in, in order. */
  lemma {:induction false} FlatRawIsFlatten(bs: seq<P.RawBatch>)
    requires P.Aligned(bs)
    ensures |FlatRaw(bs)| == |P.Flatten(bs)| && forall i :: 0 <= i < |FlatRaw(bs)| ==> FlatRaw(bs)[i] == P.Flatten(bs)[i].1
  {
    if bs != [] {
      var front, last := bs[..|bs| - 1], bs[|bs| - 1];
      assert last in bs && forall b :: b in front ==> b in bs;
      FlatRawIsFlatten(front);
    }
  }

  // ---------------------------------------------------------------- channels differ

  function Start(bs: seq<R.BatchRecord>, k: nat): nat
    requires k <= |bs|
  {
    if k == 0 then 0 else Start(bs, k - 1) + |bs[k - 1].chans|
  }

  lemma {:induction false} StartsGrow(bs: seq<R.BatchRecord>, k: nat, l: nat)
    requires k < l <= |bs|
    ensures Start(bs, k) + |bs[k].chans| <= Start(bs, l)
    decreases l
  {
    if k < l - 1 {
      StartsGrow(bs, k, l - 1);
    }
  }

  lemma {:induction false} FlatUpTo(bs: seq<R.BatchRecord>, k: nat)
    requires k < |bs|
    ensures |Flat(bs[..k])| == Start(bs, k) && Flat(bs[..k]) + bs[k].chans <= Flat(bs)
  {
    assert bs[..k + 1][..k] == bs[..k] && bs[..k + 1][k] == bs[k];
    FlatPrefix(bs[..k + 1], bs);
    FlatLength(bs, k);
  }

  lemma {:induction false} FlatLength(bs: seq<R.BatchRecord>, k: nat)
    requires k <= |bs|
    ensures |Flat(bs[..k])| == Start(bs, k)
  {
    if k > 0 {
      FlatLength(bs, k - 1);
      assert bs[..k][..k - 1] == bs[..k - 1];
    }
  }

  lemma {:induction false} FlatAt(bs: seq<R.BatchRecord>, k: nat, i: nat)
    requires k < |bs| && i < |bs[k].chans|
    ensures Start(bs, k) + i < |Flat(bs)| && Flat(bs)[Start(bs, k) + i] == bs[k].chans[i]
  {
    FlatUpTo(bs, k);
    var head := Flat(bs[..k]) + bs[k].chans;
    assert head[Start(bs, k) + i] == bs[k].chans[i];
  }

  lemma {:induction false} FlatDiffers(bs: seq<R.BatchRecord>)
    requires NoRepeats(Flat(bs))
    ensures ChannelsDiffer(bs)
  {
    forall k, i, l, j | 0 <= k < |bs| && 0 <= i < |bs[k].chans| && 0 <= l < |bs| && 0 <= j < |bs[l].chans| && (k, i) != (l, j)
      ensures bs[k].chans[i] != bs[l].chans[j] {
      FlatAt(bs, k, i);
      FlatAt(bs, l, j);
      if k < l {
        StartsGrow(bs, k, l);
      } else if l < k {
        StartsGrow(bs, l, k);
      }
      assert Start(bs, k) + i != Start(bs, l) + j;
    }
  }

  /** Every request comes on a channel of its own. */
  ghost predicate OwnChannels(taken: seq<(Tx, R.Chan)>) {
    forall i, j :: 0 <= i < j < |taken| ==> taken[i].1 != taken[j].1
  }

  lemma {:induction false} RecordChannelsDiffer(pcfg: P.Config, ps: seq<P.Event>, cfg: S.Config, ss: seq<S.Event>, bs: seq<R.BatchRecord>)
    requires S.ValidConfig(cfg) && Fed(ss) <= P.Run(pcfg, ps).proposed && bs <= S.Run(cfg, ss).replies
    requires OwnChannels(P.TakenIn(pcfg, ps))
    ensures ChannelsDiffer(bs)
  {
    var proposed := P.Run(pcfg, ps).proposed;
    P.EachRequestInOneBatch(pcfg, ps);
    FlatRawIsFlatten(proposed);
    FlatPrefix(bs, S.Run(cfg, ss).replies);
    RecordsKeepChannels(cfg, ss);
    FlatRawPrefix(Fed(ss), proposed);
    var flat := Flat(bs);
    assert flat <= FlatRaw(proposed);
    forall i | 0 <= i < |flat| ensures flat[i] == P.TakenIn(pcfg, ps)[i].1 {
      assert flat[i] == FlatRaw(proposed)[i] == P.Flatten(proposed)[i].1;
    }
    FlatDiffers(bs);
  }

  // ---------------------------------------------------------------- all together

  /** What the reply handler hears of commits is what the application says. */
  ghost predicate FromApplication(es: seq<R.Event>, app: A.State) {
    forall i :: 0 <= i < |es| ==>
      && (es[i].Crash? ==> (es[i].hash, es[i].ack) in app.acks)
      && (es[i].Byz? ==> (es[i].hash, es[i].byzAck) in app.byzAcks)
  }

  /** What each component went through. */
  datatype Histories = Histories(
    pcfg: P.Config, ps: seq<P.Event>, cfg: S.Config, ss: seq<S.Event>, commits: seq<A.Event>, es: seq<R.Event>)

  /**
   * Proposer, sequencer, application and reply handler, joined by first-in first-out channels. Views do not go back and
   * each is opened once; every request has its own channel; the application's commits may be of any blocks at all.
   */
  ghost predicate Wired(x: Histories) {
    && S.ValidConfig(x.cfg) && FreshRun(x.cfg, x.ss) && A.LegalRun(x.commits)
    && OwnChannels(P.TakenIn(x.pcfg, x.ps))
    && Fed(x.ss) <= P.Run(x.pcfg, x.ps).proposed && R.Batches(x.es) <= S.Run(x.cfg, x.ss).replies
    && FromApplication(x.es, A.Run(x.commits)) && DrainsMaps(x.es)
  }

  lemma {:induction false} BatchEvents(es: seq<R.Event>, i: nat)
    requires i < |es| && es[i].Batch?
    ensures R.BatchRecord(es[i].batchHash, es[i].chans) in R.Batches(es)
    decreases |es|
  {
    if i < |es| - 1 {
      BatchEvents(es[..|es| - 1], i);
    }
  }

  /** The reply handler never trips its assertions, and its batches have channels and hashes of their own. */
  lemma {:induction false} WiredIsLegal(x: Histories)
    requires Wired(x)
    ensures R.LegalRun(x.es) && ChannelsDiffer(R.Batches(x.es)) && HashesDiffer(R.Batches(x.es))
  {
    A.AcksNameCommitted(x.commits);
    forall i | 0 <= i < |x.es| ensures FitsEvent(x.es[i]) {
      if x.es[i].Batch? {
        BatchEvents(x.es, i);
        RecordsFit(x.pcfg, x.ps, x.cfg, x.ss, R.BatchRecord(x.es[i].batchHash, x.es[i].chans));
      }
    }
    FittingRunIsLegal(x.es);
    RecordChannelsDiffer(x.pcfg, x.ps, x.cfg, x.ss, R.Batches(x.es));
    HashesNeverReused(x.cfg, x.ss);
  }

  /** Over all runs of the four components: a request is answered at most once, and exactly once when its batch no longer waits. */
  lemma {:induction false} AtMostOneAnswer(x: Histories, q: nat)
    requires Wired(x) && q < |P.TakenIn(x.pcfg, x.ps)|
    ensures R.LegalRun(x.es) && Replies(R.Run(x.es).out, P.TakenIn(x.pcfg, x.ps)[q].1) <= 1
    ensures forall k, i :: 0 <= k < |R.Batches(x.es)| && 0 <= i < |R.Batches(x.es)[k].chans| ==>
              (Replies(R.Run(x.es).out, R.Batches(x.es)[k].chans[i]) == 1 <==> !WaitsFor(R.Run(x.es), R.Batches(x.es)[k].hash))
  {
    WiredIsLegal(x);
    hide Wired;
    var bs, c := R.Batches(x.es), P.TakenIn(x.pcfg, x.ps)[q].1;
    forall k, i | 0 <= k < |bs| && 0 <= i < |bs[k].chans|
      ensures Replies(R.Run(x.es).out, bs[k].chans[i]) <= 1
      ensures Replies(R.Run(x.es).out, bs[k].chans[i]) == 1 <==> !WaitsFor(R.Run(x.es), bs[k].hash) {
      AnsweredExactlyOnce(x.es, k, i);
    }
    if k :| 0 <= k < |bs| && c in bs[k].chans {
      var i :| 0 <= i < |bs[k].chans| && bs[k].chans[i] == c;
      assert Replies(R.Run(x.es).out, bs[k].chans[i]) <= 1;
    } else {
      StrangersGetNothing(x.es, c);
    }
  }

  /**
   * And a receipt that reaches it is for its own transaction, in a block that was committed, with the result that the
   * engine returned for that transaction when event k committed the block.
   */
  lemma {:induction false} ReceiptIsForCommittedRequest(x: Histories, o: R.Out) returns (b: Block, q: nat, k: nat, i: nat)
    requires Wired(x) && R.LegalRun(x.es) && o in R.Run(x.es).out && o.Receipt?
    ensures b in S.Run(x.cfg, x.ss).blocks && b in A.Committed(x.commits) && o.hash == Sha(b) && o.n == b.n && o.txN < |b.txs|
    ensures q < |P.TakenIn(x.pcfg, x.ps)| && P.TakenIn(x.pcfg, x.ps)[q] == (b.txs[o.txN], o.chan)
    ensures k < |x.commits| && x.commits[k].CrashCommit? && i < |x.commits[k].blocks| == |x.commits[k].results|
    ensures x.commits[k].blocks[i] == b && o.txN < |x.commits[k].results[i]| && o.result == x.commits[k].results[i][o.txN]
  {
    A.AcksNameCommitted(x.commits);
    AcksHeard(x.es, A.Run(x.commits));
    RunSound(x.es);
    assert Grounded(o, R.Batches(x.es), R.Acks(x.es));
    var r, ack :| r in R.Batches(x.es) && (o.hash, ack) in R.Acks(x.es) && Answers(o, r, ack);
    assert (o.hash, ack) in A.Run(x.commits).acks;
    b, q := ReceiptReachesSubmitter(x.pcfg, x.ps, x.cfg, x.ss, x.es, o);
    var c: Block;
    k, i, c := A.AckCarriesResults(x.commits, (o.hash, ack));
  }

  lemma {:induction false} AcksHeard(es: seq<R.Event>, app: A.State)
    requires FromApplication(es, app)
    ensures forall p :: p in R.Acks(es) ==> p in app.acks
  {
    if es != [] {
      var before := es[..|es| - 1];
      assert FromApplication(before, app) by {
        assert forall i :: 0 <= i < |before| ==> before[i] == es[i];
      }
      AcksHeard(before, app);
    }
  }
}
