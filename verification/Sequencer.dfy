/**
 * The block sequencer: it numbers and links blocks, decides which are signed, and attaches quorum certificates.
 */
module Sequencers {
  import opened Basics
  import opened Chain
  import opened Leaders
  import ReplyHandlers

  type Chan = ReplyHandlers.Chan

  datatype Config = Config(nodes: seq<Node>, me: Node, maxDelay: nat)

  predicate ValidConfig(cfg: Config) {
    0 < |cfg.nodes| < TWO_64 && cfg.maxDelay < TWO_64
  }

  predicate Leads(cfg: Config, view: nat)
    requires ValidConfig(cfg)
  {
    LeaderOf(cfg.nodes, view) == cfg.me
  }

  // ---------------------------------------------------------------- state and steps

  datatype State = State(
    seqNum: nat, view: nat, configNum: nat, viewIsStable: bool, forceSign: bool, lastSigned: nat,
    qcs: seq<Qc>, parent: Option<Digest>, blocks: seq<Block>, replies: seq<ReplyHandlers.BatchRecord>)

  const START := State(0, 0, 0, false, false, 0, [], None, [], [])

  datatype Event =
    | Qcs(qcs: seq<Qc>)
    | Tick
    | NewBatch(txs: seq<Tx>, chans: seq<Chan>)
    | NewUnstableView(v: nat, c: nat)
    | ViewStabilised(v: nat, c: nat)
    | NewViewMessage(v: nat, c: nat, parentHash: Digest, newSeq: nat)

  predicate Listening(cfg: Config, s: State)
    requires ValidConfig(cfg)
  {
    s.viewIsStable && Leads(cfg, s.view)
  }

  /** The message of a new leader is always signed. */
  predicate MustSign(cfg: Config, s: State)
    requires ValidConfig(cfg)
  {
    s.forceSign || WrapSub(s.seqNum + 1, s.lastSigned) >= cfg.maxDelay || (Leads(cfg, s.view) && !s.viewIsStable)
  }

  function NextBlock(cfg: Config, s: State, txs: seq<Tx>): Block
    requires ValidConfig(cfg)
  {
    var sign := MustSign(cfg, s);
    Block(s.seqNum + 1, if s.parent == None then ZERO_HASH else s.parent.value, s.view, s.viewIsStable, s.configNum,
          if sign then s.qcs else [], txs, sign)
  }

  function Emit(cfg: Config, s: State, txs: seq<Tx>, chans: seq<Chan>): State
    requires ValidConfig(cfg)
  {
    var sign, b := MustSign(cfg, s), NextBlock(cfg, s, txs);
    s.(seqNum := b.n,
       lastSigned := if sign then b.n else s.lastSigned,
       forceSign := !sign && s.forceSign,
       qcs := if sign then [] else s.qcs,
       parent := Some(Sha(b)),
       blocks := s.blocks + [b],
       replies := s.replies + [ReplyHandlers.BatchRecord(Some(Sha(b)), chans)])
  }

  /** Certificates of the current view, in order. */
  function OfView(qcs: seq<Qc>, view: nat): seq<Qc> {
    if qcs == [] then []
    else OfView(qcs[..|qcs| - 1], view) + if qcs[|qcs| - 1].view == view then [qcs[|qcs| - 1]] else []
  }

  function FromView(qcs: seq<Qc>, view: nat): seq<Qc> {
    if qcs == [] then []
    else FromView(qcs[..|qcs| - 1], view) + if qcs[|qcs| - 1].view >= view then [qcs[|qcs| - 1]] else []
  }

  function Step(cfg: Config, s: State, e: Event): State
    requires ValidConfig(cfg)
  {
    match e
    case Qcs(qcs) => s.(qcs := s.qcs + OfView(qcs, s.view))
    case Tick => if Listening(cfg, s) then s.(forceSign := true) else s
    case NewBatch(txs, chans) =>
      if Listening(cfg, s) then Emit(cfg, s, txs, chans)
      else s.(replies := s.replies + [ReplyHandlers.BatchRecord(None, chans)])
    case NewUnstableView(v, c) => s.(view := v, configNum := c, viewIsStable := false, qcs := FromView(s.qcs, v))
    case ViewStabilised(v, c) => s.(view := v, configNum := c, viewIsStable := true, qcs := FromView(s.qcs, v))
    case NewViewMessage(v, c, parentHash, newSeq) =>
      var t := s.(view := v, configNum := c, viewIsStable := false, qcs := OfView(s.qcs, v));
      if Leads(cfg, v) then Emit(cfg, t.(seqNum := newSeq, parent := Some(parentHash)), [], []) else t
  }

  function Run(cfg: Config, es: seq<Event>): State
    requires ValidConfig(cfg)
  {
    if es == [] then START else Step(cfg, Run(cfg, es[..|es| - 1]), es[|es| - 1])
  }

  // ---------------------------------------------------------------- signatures come often enough

  function Trailing(blocks: seq<Block>): nat {
    if blocks == [] || blocks[|blocks| - 1].signed then 0 else 1 + Trailing(blocks[..|blocks| - 1])
  }

  /** The distance to the last signature is the number of blocks emitted since, at every point of the stream short of the bound. */
  ghost predicate Paced(cfg: Config, s: State) {
    && s.lastSigned <= s.seqNum && s.seqNum - s.lastSigned == Trailing(s.blocks)
    && (forall k :: 0 <= k <= |s.blocks| ==> Trailing(s.blocks[..k]) < AtLeastOne(cfg.maxDelay))
    && (forall b :: b in s.blocks && !b.viewIsStable ==> b.signed)
  }

  lemma {:induction false} EmitPaced(cfg: Config, s: State, txs: seq<Tx>, chans: seq<Chan>)
    requires ValidConfig(cfg) && Leads(cfg, s.view)
    requires forall k :: 0 <= k <= |s.blocks| ==> Trailing(s.blocks[..k]) < AtLeastOne(cfg.maxDelay)
    requires forall b :: b in s.blocks && !b.viewIsStable ==> b.signed
    requires s.viewIsStable ==> s.lastSigned <= s.seqNum && s.seqNum - s.lastSigned == Trailing(s.blocks)
    ensures Paced(cfg, Emit(cfg, s, txs, chans))
  {
    var t, b := Emit(cfg, s, txs, chans), NextBlock(cfg, s, txs);
    assert t.blocks[..|s.blocks|] == s.blocks && s.blocks[..|s.blocks|] == s.blocks && t.blocks[..|t.blocks|] == t.blocks;
    forall k | 0 <= k <= |t.blocks| ensures Trailing(t.blocks[..k]) < AtLeastOne(cfg.maxDelay) {
      if k <= |s.blocks| {
        assert t.blocks[..k] == s.blocks[..k];
      }
    }
  }

  lemma {:induction false} StepPaced(cfg: Config, s: State, e: Event)
    requires ValidConfig(cfg) && Paced(cfg, s)
    ensures Paced(cfg, Step(cfg, s, e))
  {
    hide MustSign, Trailing;
    match e {
      case NewBatch(txs, chans) =>
        if Listening(cfg, s) {
          EmitPaced(cfg, s, txs, chans);
        }
      case NewViewMessage(v, c, parentHash, newSeq) =>
        if Leads(cfg, v) {
          var t := s.(view := v, configNum := c, viewIsStable := false, qcs := OfView(s.qcs, v));
          EmitPaced(cfg, t.(seqNum := newSeq, parent := Some(parentHash)), [], []);
        }
      case _ =>
    }
  }

  lemma {:induction false} RunPaced(cfg: Config, es: seq<Event>)
    requires ValidConfig(cfg)
    ensures Paced(cfg, Run(cfg, es))
  {
    if es != [] {
      RunPaced(cfg, es[..|es| - 1]);
      StepPaced(cfg, Run(cfg, es[..|es| - 1]), es[|es| - 1]);
    }
  }

  /** After every command fewer than `signature_max_delay_blocks` numbers have passed since the last signed block. */
  lemma {:induction false} SignatureDelayBounded(cfg: Config, es: seq<Event>)
    requires ValidConfig(cfg) && cfg.maxDelay >= 1
    ensures var s := Run(cfg, es); s.lastSigned <= s.seqNum && s.seqNum - s.lastSigned < cfg.maxDelay
  {
    RunPaced(cfg, es);
    var s := Run(cfg, es);
    assert s.blocks[..|s.blocks|] == s.blocks;
  }

  /** The subtraction that could wrap never decides: while batches are taken in it is exact, and a new view signs anyway. */
  lemma {:induction false} WrapNeverDecides(cfg: Config, es: seq<Event>)
    requires ValidConfig(cfg) && Listening(cfg, Run(cfg, es))
    ensures var s := Run(cfg, es); WrapSub(s.seqNum + 1, s.lastSigned) == s.seqNum + 1 - s.lastSigned
  {
    RunPaced(cfg, es);
    var s := Run(cfg, es);
    assert s.blocks[..|s.blocks|] == s.blocks;
  }

  lemma {:induction false} TrailingReaches(blocks: seq<Block>, d: nat)
    requires d <= |blocks| && forall j :: |blocks| - d <= j < |blocks| ==> !blocks[j].signed
    ensures Trailing(blocks) >= d
  {
    if d > 0 {
      TrailingReaches(blocks[..|blocks| - 1], d - 1);
    }
  }

  /** Any `signature_max_delay_blocks` consecutive blocks of the emitted stream include a signed one. */
  lemma {:induction false} EveryWindowHasSignature(cfg: Config, es: seq<Event>, i: nat)
    requires ValidConfig(cfg) && cfg.maxDelay >= 1 && i + cfg.maxDelay <= |Run(cfg, es).blocks|
    ensures exists j :: i <= j < i + cfg.maxDelay && Run(cfg, es).blocks[j].signed
  {
    RunPaced(cfg, es);
    var blocks := Run(cfg, es).blocks;
    var prefix := blocks[..i + cfg.maxDelay];
    if forall j :: i <= j < i + cfg.maxDelay ==> !blocks[j].signed {
      TrailingReaches(prefix, cfg.maxDelay);
    }
  }

  /** A tick of the signature timer forces the next block to be signed, once; a signed block takes all listed certificates along. */
  lemma TickForcesSignature(cfg: Config, s: State, txs: seq<Tx>, chans: seq<Chan>, more: seq<Tx>)
    requires ValidConfig(cfg) && Listening(cfg, s)
    ensures var t := Step(cfg, Step(cfg, s, Tick), NewBatch(txs, chans));
            && |t.blocks| == |s.blocks| + 1 && t.blocks[|s.blocks|].signed && t.blocks[|s.blocks|].txs == txs
            && t.blocks[|s.blocks|].qcs == s.qcs && t.qcs == []
            && (cfg.maxDelay > 1 ==> !NextBlock(cfg, t, more).signed)
  {
    hide Leads;
  }

  // ---------------------------------------------------------------- which batches become blocks

  predicate Changes(e: Event) {
    e.NewUnstableView? || e.ViewStabilised? || e.NewViewMessage?
  }

  /** The last command of a run that was about the view. */
  function LastViewCommand(es: seq<Event>): (last: Option<Event>)
    ensures last.Some? ==> Changes(last.value)
  {
    if es == [] then None
    else if Changes(es[|es| - 1]) then Some(es[|es| - 1])
    else LastViewCommand(es[..|es| - 1])
  }

  /** View and configuration are those of the last command about them, and the view is stable exactly if it said so. */
  lemma {:induction false} ViewFromHistory(cfg: Config, es: seq<Event>)
    requires ValidConfig(cfg)
    ensures var s, last := Run(cfg, es), LastViewCommand(es);
            if last.Some? then s.view == last.value.v && s.configNum == last.value.c && s.viewIsStable == last.value.ViewStabilised?
            else s.view == 0 && s.configNum == 0 && !s.viewIsStable
  {
    hide MustSign, OfView, FromView, Leads;
    if es != [] {
      ViewFromHistory(cfg, es[..|es| - 1]);
    }
  }

  /** The last command about the view stabilised one that this node leads. */
  predicate TakesBatches(cfg: Config, es: seq<Event>)
    requires ValidConfig(cfg)
  {
    var last := LastViewCommand(es);
    last.Some? && last.value.ViewStabilised? && LeaderOf(cfg.nodes, last.value.v) == cfg.me
  }

  /** A block for these transactions, in this view and configuration, and a record that waits for it. */
  ghost predicate Sequenced(s: State, t: State, b: Block, view: nat, config: nat, txs: seq<Tx>, chans: seq<Chan>) {
    && b.txs == txs && b.view == view && b.configNum == config && b.viewIsStable
    && t.blocks == s.blocks + [b] && t.replies == s.replies + [ReplyHandlers.BatchRecord(Some(Sha(b)), chans)]
  }

  /**
   * A batch is sequenced if and only if the last command about the view stabilised one that this node leads; otherwise its
   * channels are handed on without a block.
   */
  lemma {:induction false} BatchSequencedIff(cfg: Config, es: seq<Event>, txs: seq<Tx>, chans: seq<Chan>)
    requires ValidConfig(cfg)
    ensures var s, t, last := Run(cfg, es), Run(cfg, es + [NewBatch(txs, chans)]), LastViewCommand(es);
            if TakesBatches(cfg, es)
            then exists b :: Sequenced(s, t, b, last.value.v, last.value.c, txs, chans)
            else t.blocks == s.blocks && t.replies == s.replies + [ReplyHandlers.BatchRecord(None, chans)]
  {
    hide MustSign, LeaderOf, Run;
    var s, t := Run(cfg, es), Run(cfg, es + [NewBatch(txs, chans)]);
    ViewFromHistory(cfg, es);
    RunSnoc(cfg, es, NewBatch(txs, chans));
    if s.viewIsStable && Leads(cfg, s.view) {
      assert Sequenced(s, t, NextBlock(cfg, s, txs), s.view, s.configNum, txs, chans);
    }
  }

  /** The signature timer has gone off, while batches were taken in, since the last signed block. */
  predicate Overdue(cfg: Config, es: seq<Event>)
    requires ValidConfig(cfg)
  {
    if es == [] then false
    else
      var before := es[..|es| - 1];
      var s, t := Run(cfg, before), Run(cfg, es);
      if es[|es| - 1].Tick? then TakesBatches(cfg, before) || Overdue(cfg, before)
      else Overdue(cfg, before) && !(|t.blocks| > |s.blocks| && t.blocks[|t.blocks| - 1].signed)
  }

  lemma {:induction false} ForceFromHistory(cfg: Config, es: seq<Event>)
    requires ValidConfig(cfg)
    ensures Run(cfg, es).forceSign == Overdue(cfg, es)
  {
    hide LeaderOf, OfView, FromView, LastViewCommand;
    if es != [] {
      ForceFromHistory(cfg, es[..|es| - 1]);
      ViewFromHistory(cfg, es[..|es| - 1]);
    }
  }

  /** A batch's block is signed if and only if the timer has gone off, or enough blocks have gone out unsigned before it. */
  lemma {:induction false} BatchSignedIff(cfg: Config, es: seq<Event>, txs: seq<Tx>, chans: seq<Chan>)
    requires ValidConfig(cfg) && TakesBatches(cfg, es)
    ensures var s, t := Run(cfg, es), Run(cfg, es + [NewBatch(txs, chans)]);
            && |t.blocks| == |s.blocks| + 1
            && var b := t.blocks[|s.blocks|];
               && (b.signed <==> Overdue(cfg, es) || Trailing(s.blocks) + 1 >= cfg.maxDelay)
               && b.n == s.seqNum + 1 && b.qcs == if b.signed then s.qcs else []
  {
    hide LeaderOf, Run, Overdue, LastViewCommand, Trailing;
    RunSnoc(cfg, es, NewBatch(txs, chans));
    ViewFromHistory(cfg, es);
    ForceFromHistory(cfg, es);
    RunPaced(cfg, es);
    WrapNeverDecides(cfg, es);
  }

  /** A new view led by this node opens with one signed, empty block on the given parent; no other opens with a block. */
  lemma {:induction false} OpeningBlock(cfg: Config, es: seq<Event>, v: nat, c: nat, parent: Digest, n: nat)
    requires ValidConfig(cfg)
    ensures var s, t := Run(cfg, es), Run(cfg, es + [NewViewMessage(v, c, parent, n)]);
            if LeaderOf(cfg.nodes, v) == cfg.me
            then t.blocks == s.blocks + [Block(n + 1, parent, v, false, c, OfView(s.qcs, v), [], true)]
            else t.blocks == s.blocks && t.replies == s.replies
  {
    hide LeaderOf, Run, OfView;
    RunSnoc(cfg, es, NewViewMessage(v, c, parent, n));
  }

  // ---------------------------------------------------------------- quorum certificates

  /** Views never go back. */
  ghost predicate Monotone(cfg: Config, es: seq<Event>)
    requires ValidConfig(cfg)
  {
    es == [] || (Monotone(cfg, es[..|es| - 1]) && (Changes(es[|es| - 1]) ==> es[|es| - 1].v >= Run(cfg, es[..|es| - 1]).view))
  }

  ghost predicate AllOfView(qcs: seq<Qc>, view: nat) {
    forall q :: q in qcs ==> q.view == view
  }

  lemma {:induction false} OfViewExact(qcs: seq<Qc>, view: nat)
    ensures AllOfView(OfView(qcs, view), view)
    ensures AllOfView(qcs, view) ==> OfView(qcs, view) == qcs
    ensures forall q :: q in OfView(qcs, view) <==> q in qcs && q.view == view
  {
    if qcs != [] {
      OfViewExact(qcs[..|qcs| - 1], view);
      assert qcs == qcs[..|qcs| - 1] + [qcs[|qcs| - 1]];
    }
  }

  lemma {:induction false} FromViewExact(qcs: seq<Qc>, view: nat)
    ensures forall q :: q in FromView(qcs, view) <==> q in qcs && q.view >= view
    ensures (forall q :: q in qcs ==> q.view >= view) ==> FromView(qcs, view) == qcs
    ensures (forall q :: q in qcs ==> q.view < view) ==> FromView(qcs, view) == []
  {
    if qcs != [] {
      FromViewExact(qcs[..|qcs| - 1], view);
      assert qcs == qcs[..|qcs| - 1] + [qcs[|qcs| - 1]];
      assert qcs[|qcs| - 1] in qcs;
    }
  }

  /** A change of view keeps "every listed certificate has the current view" exactly when the view does not go back or nothing is listed. */
  lemma {:induction false} ViewChangeExact(cfg: Config, s: State, e: Event)
    requires ValidConfig(cfg) && AllOfView(s.qcs, s.view) && (e.NewUnstableView? || e.ViewStabilised?)
    ensures AllOfView(Step(cfg, s, e).qcs, e.v) <==> e.v >= s.view || s.qcs == []
    ensures Step(cfg, s, e).qcs == if e.v > s.view then [] else s.qcs
  {
    FromViewExact(s.qcs, e.v);
    if s.qcs != [] {
      assert s.qcs[0] in s.qcs;
    }
  }

  lemma {:induction false} RunSnoc(cfg: Config, es: seq<Event>, e: Event)
    requires ValidConfig(cfg)
    ensures Run(cfg, es + [e]) == Step(cfg, Run(cfg, es), e)
  {
    hide Step;
    assert (es + [e])[..|es|] == es;
  }

  lemma {:induction false} RunThree(cfg: Config, e1: Event, e2: Event, e3: Event)
    requires ValidConfig(cfg)
    ensures Run(cfg, [e1, e2, e3]) == Step(cfg, Step(cfg, Step(cfg, START, e1), e2), e3)
  {
    hide Step;
    RunSnoc(cfg, [], e1);
    RunSnoc(cfg, [e1], e2);
    RunSnoc(cfg, [e1, e2], e3);
    assert [] + [e1] == [e1] && [e1] + [e2] == [e1, e2] && [e1, e2] + [e3] == [e1, e2, e3];
  }

  /** A run that goes back a view and keeps a certificate of the abandoned view listed. */
  lemma {:induction false} GoingBackKeepsStaleCertificate(cfg: Config)
    requires ValidConfig(cfg)
    ensures var s := Run(cfg, [NewUnstableView(5, 0), Qcs([Qc(1, 5, 0)]), NewUnstableView(3, 0)]);
            s.view == 3 && s.qcs == [Qc(1, 5, 0)] && !AllOfView(s.qcs, s.view)
  {
    var qc := Qc(1, 5, 0);
    RunThree(cfg, NewUnstableView(5, 0), Qcs([qc]), NewUnstableView(3, 0));
    OneCertificate(qc);
    hide *;
    var s1 := UnstableStep(cfg, START, 5);
    var s2 := Step(cfg, s1, Qcs([qc]));
    QcsStep(cfg, s1, [qc]);
    assert [] + [qc] == [qc];
    var s3 := UnstableStep(cfg, s2, 3);
    NotOfView(qc, 3);
  }

  lemma {:induction false} OneCertificate(qc: Qc)
    ensures FromView([], 5) == [] && OfView([qc], qc.view) == [qc] && (qc.view >= 3 ==> FromView([qc], 3) == [qc])
  {
    OfViewExact([qc], qc.view);
    FromViewExact([qc], 3);
  }

  lemma UnstableStep(cfg: Config, s: State, v: nat) returns (t: State)
    requires ValidConfig(cfg)
    ensures t == Step(cfg, s, NewUnstableView(v, 0)) && t.view == v && t.qcs == FromView(s.qcs, v)
  {
    t := Step(cfg, s, NewUnstableView(v, 0));
  }

  lemma QcsStep(cfg: Config, s: State, qcs: seq<Qc>)
    requires ValidConfig(cfg)
    ensures Step(cfg, s, Qcs(qcs)).qcs == s.qcs + OfView(qcs, s.view)
  {
  }

  lemma NotOfView(qc: Qc, v: nat)
    requires qc.view != v
    ensures !AllOfView([qc], v)
  {
    assert qc in [qc];
  }

  ghost predicate QcsInPlace(s: State) {
    && AllOfView(s.qcs, s.view)
    && (forall b :: b in s.blocks ==> (b.qcs != [] ==> b.signed) && AllOfView(b.qcs, b.view))
  }

  lemma {:induction false} StepQcsInPlace(cfg: Config, s: State, e: Event)
    requires ValidConfig(cfg) && QcsInPlace(s) && (Changes(e) ==> e.v >= s.view)
    ensures QcsInPlace(Step(cfg, s, e))
  {
    hide MustSign, OfView, FromView, Leads;
    match e {
      case Qcs(qcs) => OfViewExact(qcs, s.view);
      case NewUnstableView(v, c) => ViewChangeExact(cfg, s, e);
      case ViewStabilised(v, c) => ViewChangeExact(cfg, s, e);
      case NewViewMessage(v, c, parentHash, newSeq) => OfViewExact(s.qcs, v);
      case _ =>
    }
  }

  /** In every run with non-decreasing views: listed certificates have the current view, and only signed blocks carry any. */
  lemma {:induction false} CertificatesInPlace(cfg: Config, es: seq<Event>)
    requires ValidConfig(cfg) && Monotone(cfg, es)
    ensures QcsInPlace(Run(cfg, es))
  {
    if es != [] {
      CertificatesInPlace(cfg, es[..|es| - 1]);
      StepQcsInPlace(cfg, Run(cfg, es[..|es| - 1]), es[|es| - 1]);
    }
  }

  function InBlocks(blocks: seq<Block>): multiset<Qc> {
    if blocks == [] then multiset{} else InBlocks(blocks[..|blocks| - 1]) + multiset(blocks[|blocks| - 1].qcs)
  }

  function Admitted(s: State, e: Event): multiset<Qc> {
    if e.Qcs? then multiset(OfView(e.qcs, s.view)) else multiset{}
  }

  /** Certificates a change of view throws away: all of those listed when the view moves on, none when it stays. */
  function Dropped(s: State, e: Event): multiset<Qc> {
    if Changes(e) && e.v > s.view then multiset(s.qcs) else multiset{}
  }

  lemma {:induction false} EmitConserves(cfg: Config, s: State, txs: seq<Tx>, chans: seq<Chan>)
    requires ValidConfig(cfg)
    ensures var t := Emit(cfg, s, txs, chans); multiset(t.qcs) + InBlocks(t.blocks) == multiset(s.qcs) + InBlocks(s.blocks)
  {
    var b := NextBlock(cfg, s, txs);
    assert (s.blocks + [b])[..|s.blocks|] == s.blocks;
  }

  lemma {:induction false} NoneOfView(qcs: seq<Qc>, was: nat, view: nat)
    requires AllOfView(qcs, was) && was != view
    ensures OfView(qcs, view) == []
  {
    if qcs != [] {
      assert qcs[|qcs| - 1] in qcs;
      NoneOfView(qcs[..|qcs| - 1], was, view);
    }
  }

  ghost predicate Conserves(cfg: Config, s: State, e: Event)
    requires ValidConfig(cfg)
  {
    var t := Step(cfg, s, e);
    multiset(t.qcs) + InBlocks(t.blocks) + Dropped(s, e) == multiset(s.qcs) + InBlocks(s.blocks) + Admitted(s, e)
  }

  lemma {:induction false} QcsConserve(cfg: Config, s: State, qcs: seq<Qc>)
    requires ValidConfig(cfg)
    ensures Conserves(cfg, s, Qcs(qcs))
  {
    hide Emit, InBlocks, OfView, FromView;
  }

  lemma {:induction false} TickConserves(cfg: Config, s: State)
    requires ValidConfig(cfg)
    ensures Conserves(cfg, s, Tick)
  {
    hide Emit, InBlocks, OfView, FromView, Leads;
  }

  lemma {:induction false} NewBatchConserves(cfg: Config, s: State, txs: seq<Tx>, chans: seq<Chan>)
    requires ValidConfig(cfg)
    ensures Conserves(cfg, s, NewBatch(txs, chans))
  {
    hide Emit, InBlocks, OfView, FromView, Leads;
    EmitConserves(cfg, s, txs, chans);
  }

  lemma {:induction false} ViewChangeConserves(cfg: Config, s: State, e: Event)
    requires ValidConfig(cfg) && QcsInPlace(s) && (e.NewUnstableView? || e.ViewStabilised?) && e.v >= s.view
    ensures Conserves(cfg, s, e)
  {
    hide Emit, InBlocks, OfView, FromView, Leads;
    ViewChangeExact(cfg, s, e);
  }

  lemma {:induction false} NewViewConserves(cfg: Config, s: State, v: nat, c: nat, parentHash: Digest, newSeq: nat)
    requires ValidConfig(cfg) && QcsInPlace(s) && v >= s.view
    ensures Conserves(cfg, s, NewViewMessage(v, c, parentHash, newSeq))
  {
    hide Emit, InBlocks, OfView, FromView, Leads;
    var t := s.(view := v, configNum := c, viewIsStable := false, qcs := OfView(s.qcs, v));
    EmitConserves(cfg, t.(seqNum := newSeq, parent := Some(parentHash)), [], []);
    if v > s.view {
      NoneOfView(s.qcs, s.view, v);
    } else {
      OfViewExact(s.qcs, v);
    }
  }

  lemma {:induction false} StepConserves(cfg: Config, s: State, e: Event)
    requires ValidConfig(cfg) && QcsInPlace(s) && (Changes(e) ==> e.v >= s.view)
    ensures Conserves(cfg, s, e)
  {
    hide Conserves, QcsInPlace;
    match e {
      case Qcs(qcs) => QcsConserve(cfg, s, qcs);
      case Tick => TickConserves(cfg, s);
      case NewBatch(txs, chans) => NewBatchConserves(cfg, s, txs, chans);
      case NewUnstableView(_, _) => ViewChangeConserves(cfg, s, e);
      case ViewStabilised(_, _) => ViewChangeConserves(cfg, s, e);
      case NewViewMessage(v, c, parentHash, newSeq) => NewViewConserves(cfg, s, v, c, parentHash, newSeq);
    }
  }

  function AllAdmitted(cfg: Config, es: seq<Event>): multiset<Qc>
    requires ValidConfig(cfg)
  {
    if es == [] then multiset{} else AllAdmitted(cfg, es[..|es| - 1]) + Admitted(Run(cfg, es[..|es| - 1]), es[|es| - 1])
  }

  function AllDropped(cfg: Config, es: seq<Event>): multiset<Qc>
    requires ValidConfig(cfg)
  {
    if es == [] then multiset{} else AllDropped(cfg, es[..|es| - 1]) + Dropped(Run(cfg, es[..|es| - 1]), es[|es| - 1])
  }

  /** Every admitted certificate is still listed, in exactly one block, or was dropped by a change of view. */
  lemma {:induction false} CertificatesConserved(cfg: Config, es: seq<Event>)
    requires ValidConfig(cfg) && Monotone(cfg, es)
    ensures multiset(Run(cfg, es).qcs) + InBlocks(Run(cfg, es).blocks) + AllDropped(cfg, es) == AllAdmitted(cfg, es)
  {
    if es != [] {
      hide Step, InBlocks, Dropped, Admitted, QcsInPlace;
      var before, e := es[..|es| - 1], es[|es| - 1];
      var s, t := Run(cfg, before), Run(cfg, es);
      CertificatesConserved(cfg, before);
      CertificatesInPlace(cfg, before);
      StepConserves(cfg, s, e);
      Telescope(multiset(s.qcs), InBlocks(s.blocks), AllDropped(cfg, before), AllAdmitted(cfg, before),
                multiset(t.qcs), InBlocks(t.blocks), Dropped(s, e), Admitted(s, e));
    }
  }

  lemma {:induction false} Telescope(l: multiset<Qc>, b: multiset<Qc>, d: multiset<Qc>, a: multiset<Qc>,
                  l': multiset<Qc>, b': multiset<Qc>, dropped: multiset<Qc>, admitted: multiset<Qc>)
    requires l + b + d == a && l' + b' + dropped == l + b + admitted
    ensures l' + b' + (d + dropped) == a + admitted
  {
    calc {
      l' + b' + (d + dropped);
      l' + b' + dropped + d;
      l + b + admitted + d;
      l + b + d + admitted;
    }
  }

  // ---------------------------------------------------------------- the sequencer itself

  class BlockSequencer {
    const cfg: Config
    var seqNum: nat
    var view: nat
    var configNum: nat
    var viewIsStable: bool
    var forceSign: bool
    var lastSigned: nat
    var qcs: seq<Qc>
    var parent: Option<Digest>
    var blocks: seq<Block>
    var replies: seq<ReplyHandlers.BatchRecord>

    ghost function Abstract(): State
      reads this
    {
      State(seqNum, view, configNum, viewIsStable, forceSign, lastSigned, qcs, parent, blocks, replies)
    }

    constructor (cfg: Config)
      ensures this.cfg == cfg && Abstract() == START
    {
      this.cfg := cfg;
      seqNum, view, configNum, viewIsStable, forceSign, lastSigned := 0, 0, 0, false, false, 0;
      qcs, parent, blocks, replies := [], None, [], [];
    }

    method HandleNewBatch(txs: seq<Tx>, chans: seq<Chan>)
      requires ValidConfig(cfg)
      modifies this
      ensures Abstract() == Emit(cfg, old(Abstract()), txs, chans)
    {
      seqNum := seqNum + 1;
      var n := seqNum;
      var mustSign := forceSign || WrapSub(n, lastSigned) >= cfg.maxDelay || (Leads(cfg, view) && !viewIsStable);
      var qcList := [];
      if mustSign {
        lastSigned := n;
        forceSign := false;
        qcList := qcs;
        qcs := [];
      }
      var parentHash := if parent == None then ZERO_HASH else parent.value;
      var block := Block(n, parentHash, view, viewIsStable, configNum, qcList, txs, mustSign);
      parent := Some(Sha(block));
      replies := replies + [ReplyHandlers.BatchRecord(Some(Sha(block)), chans)];
      blocks := blocks + [block];
    }

    method AddQcs(more: seq<Qc>)
      modifies this`qcs
      ensures qcs == old(qcs) + OfView(more, view)
    {
      for i := 0 to |more|
        invariant qcs == old(qcs) + OfView(more[..i], view)
      {
        assert more[..i + 1][..i] == more[..i];
        if more[i].view == view {
          qcs := qcs + [more[i]];
        }
      }
      assert more[..|more|] == more;
    }

    method HandleControlCommand(e: Event)
      requires ValidConfig(cfg) && Changes(e)
      modifies this
      ensures Abstract() == Step(cfg, old(Abstract()), e)
    {
      view, configNum := e.v, e.c;
      match e {
        case NewUnstableView(_, _) =>
          viewIsStable := false;
          qcs := FromView(qcs, view);
        case ViewStabilised(_, _) =>
          viewIsStable := true;
          qcs := FromView(qcs, view);
        case NewViewMessage(_, _, parentHash, newSeq) =>
          viewIsStable := false;
          qcs := OfView(qcs, view);
          if !Leads(cfg, view) {
            return;
          }
          seqNum := newSeq;
          parent := Some(parentHash);
          HandleNewBatch([], []);
      }
    }

    /** One pass of the worker. */
    method Handle(e: Event)
      requires ValidConfig(cfg)
      modifies this
      ensures Abstract() == Step(cfg, old(Abstract()), e)
    {
      match e {
        case Qcs(more) => AddQcs(more);
        case Tick =>
          if viewIsStable && Leads(cfg, view) {
            forceSign := true;
          }
        case NewBatch(txs, chans) =>
          if viewIsStable && Leads(cfg, view) {
            HandleNewBatch(txs, chans);
          } else {
            replies := replies + [ReplyHandlers.BatchRecord(None, chans)];
          }
        case _ => HandleControlCommand(e);
      }
    }

    /** A fresh sequencer fed any run ends in that run's state. */
    method Serve(es: seq<Event>)
      requires ValidConfig(cfg) && Abstract() == START
      modifies this
      ensures Abstract() == Run(cfg, es)
    {
      for i := 0 to |es|
        invariant Abstract() == Run(cfg, es[..i])
      {
        assert es[..i + 1][..i] == es[..i];
        Handle(es[i]);
      }
      assert es[..|es|] == es;
    }
  }
}
