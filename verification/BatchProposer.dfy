/** The batch proposer: requests in, batches with their reply channels out. */
module BatchProposers {
  import opened Basics
  import opened Chain
  import ReplyHandlers

  type Chan = ReplyHandlers.Chan

  /** A request with `on_receive` is served unlogged; a probe asks for a block to be acknowledged. */
  datatype Request = Logged(tx: Tx) | Unlogged(tx: Tx) | Probe(n: nat)

  datatype RawBatch = RawBatch(txs: seq<Tx>, chans: seq<Chan>)

  datatype Direct = ToExecution(tx: Tx, chan: Chan) | ProbeAck(n: nat, chan: Chan) | LeaderHint(leader: Option<Node>, chan: Chan)

  datatype State = State(txs: seq<Tx>, chans: seq<Chan>, makeNew: bool, leader: Option<Node>, proposed: seq<RawBatch>, direct: seq<Direct>)

  /** `late` says that the batch delay has passed since the last proposal. */
  datatype Event = Arrive(req: Request, chan: Chan, late: bool) | Timer | Command(makeNew: bool, leader: Node)

  datatype Config = Config(me: Node, maxBatch: nat)

  /** No leader is known until a command names one. */
  const START := State([], [], false, None, [], [])

  function MaybePropose(cfg: Config, s: State, tick: bool): State {
    if |s.txs| >= cfg.maxBatch || (s.makeNew && tick)
    then s.(txs := [], chans := [], proposed := s.proposed + [RawBatch(s.txs, s.chans)])
    else s
  }

  /** A logged request is taken in by the leader only; others point the client to the leader. */
  predicate Taken(cfg: Config, s: State, e: Event) {
    e.Arrive? && e.req.Logged? && s.leader == Some(cfg.me)
  }

  function Step(cfg: Config, s: State, e: Event): State {
    match e
    case Command(makeNew, leader) => s.(makeNew := makeNew, leader := Some(leader))
    case Timer => MaybePropose(cfg, s, true)
    case Arrive(Unlogged(tx), c, late) => MaybePropose(cfg, s.(direct := s.direct + [ToExecution(tx, c)]), late)
    case Arrive(Probe(n), c, late) => MaybePropose(cfg, s.(direct := s.direct + [ProbeAck(n, c)]), late)
    case Arrive(Logged(tx), c, late) =>
      if s.leader != Some(cfg.me) then s.(direct := s.direct + [LeaderHint(s.leader, c)])
      else MaybePropose(cfg, s.(txs := s.txs + [tx], chans := s.chans + [c]), late)
  }

  function Run(cfg: Config, es: seq<Event>): State {
    if es == [] then START else Step(cfg, Run(cfg, es[..|es| - 1]), es[|es| - 1])
  }

  // ---------------------------------------------------------------- every logged request is in exactly one batch

  /** The logged requests taken in over a run, in order of arrival. */
  function TakenIn(cfg: Config, es: seq<Event>): seq<(Tx, Chan)> {
    if es == [] then []
    else
      var before, e := es[..|es| - 1], es[|es| - 1];
      TakenIn(cfg, before) + if Taken(cfg, Run(cfg, before), e) then [(e.req.tx, e.chan)] else []
  }

  function Zip(txs: seq<Tx>, chans: seq<Chan>): seq<(Tx, Chan)>
    requires |txs| == |chans|
  {
    seq(|txs|, i requires 0 <= i < |txs| => (txs[i], chans[i]))
  }

  ghost predicate Aligned(bs: seq<RawBatch>) {
    forall b :: b in bs ==> |b.txs| == |b.chans|
  }

  /** All requests of a list of batches, in order. */
  ghost function Flatten(bs: seq<RawBatch>): seq<(Tx, Chan)>
    requires Aligned(bs)
  {
    if bs == [] then []
    else
      assert forall b :: b in bs[..|bs| - 1] ==> b in bs;
      assert bs[|bs| - 1] in bs;
      Flatten(bs[..|bs| - 1]) + Zip(bs[|bs| - 1].txs, bs[|bs| - 1].chans)
  }

  ghost predicate Inv(cfg: Config, s: State, taken: seq<(Tx, Chan)>) {
    && |s.txs| == |s.chans| < AtLeastOne(cfg.maxBatch)
    && Aligned(s.proposed)
    && (forall b :: b in s.proposed ==> |b.txs| <= AtLeastOne(cfg.maxBatch))
    && Flatten(s.proposed) + Zip(s.txs, s.chans) == taken
  }

  lemma {:induction false} FlattenSnoc(bs: seq<RawBatch>, b: RawBatch)
    requires Aligned(bs) && |b.txs| == |b.chans|
    ensures Aligned(bs + [b]) && Flatten(bs + [b]) == Flatten(bs) + Zip(b.txs, b.chans)
  {
    assert (bs + [b])[..|bs|] == bs;
  }

  /** Before the size check one more request than the invariant allows may have been taken in. */
  lemma {:induction false} ProposeKeeps(cfg: Config, s: State, tick: bool, taken: seq<(Tx, Chan)>)
    requires |s.txs| == |s.chans| <= AtLeastOne(cfg.maxBatch) && Aligned(s.proposed)
    requires (forall b :: b in s.proposed ==> |b.txs| <= AtLeastOne(cfg.maxBatch))
    requires Flatten(s.proposed) + Zip(s.txs, s.chans) == taken
    ensures Inv(cfg, MaybePropose(cfg, s, tick), taken)
  {
    hide Flatten, Aligned;
    FlattenSnoc(s.proposed, RawBatch(s.txs, s.chans));
    assert Zip([], []) == [];
  }

  lemma {:induction false} StepKeeps(cfg: Config, s: State, e: Event, taken: seq<(Tx, Chan)>)
    requires Inv(cfg, s, taken)
    ensures Inv(cfg, Step(cfg, s, e), taken + if Taken(cfg, s, e) then [(e.req.tx, e.chan)] else [])
  {
    hide MaybePropose, Flatten;
    assert taken + [] == taken;
    match e {
      case Timer => ProposeKeeps(cfg, s, true, taken);
      case Arrive(Unlogged(tx), c, late) => ProposeKeeps(cfg, s.(direct := s.direct + [ToExecution(tx, c)]), late, taken);
      case Arrive(Probe(n), c, late) => ProposeKeeps(cfg, s.(direct := s.direct + [ProbeAck(n, c)]), late, taken);
      case Arrive(Logged(tx), c, late) =>
        if s.leader == Some(cfg.me) {
          assert Zip(s.txs + [tx], s.chans + [c]) == Zip(s.txs, s.chans) + [(tx, c)];
          ProposeKeeps(cfg, s.(txs := s.txs + [tx], chans := s.chans + [c]), late, taken + [(tx, c)]);
        }
      case Command(_, _) =>
    }
  }

  /** Over every run the batches, then the one being filled, are exactly the requests taken in, in order, each with its own channel. */
  lemma {:induction false} EachRequestInOneBatch(cfg: Config, es: seq<Event>)
    ensures Inv(cfg, Run(cfg, es), TakenIn(cfg, es))
  {
    if es == [] {
      assert Zip([], []) == [];
    } else {
      hide Step, Inv;
      EachRequestInOneBatch(cfg, es[..|es| - 1]);
      StepKeeps(cfg, Run(cfg, es[..|es| - 1]), es[|es| - 1], TakenIn(cfg, es[..|es| - 1]));
    }
  }

  /** No batch is larger than the configured size. */
  lemma {:induction false} BatchSizeBounded(cfg: Config, es: seq<Event>, b: RawBatch)
    requires cfg.maxBatch >= 1 && b in Run(cfg, es).proposed
    ensures |b.txs| == |b.chans| <= cfg.maxBatch
  {
    EachRequestInOneBatch(cfg, es);
  }

  // ---------------------------------------------------------------- when a batch goes out, and what goes out at once

  /** The last command of a run. */
  function LastCommand(es: seq<Event>): (last: Option<Event>)
    ensures last.Some? ==> last.value.Command?
  {
    if es == [] then None else if es[|es| - 1].Command? then Some(es[|es| - 1]) else LastCommand(es[..|es| - 1])
  }

  function LeaderNow(es: seq<Event>): Option<Node> {
    if LastCommand(es) == None then None else Some(LastCommand(es).value.leader)
  }

  predicate MayPropose(es: seq<Event>) {
    LastCommand(es).Some? && LastCommand(es).value.makeNew
  }

  /** Leader and leave to propose are those of the last command. */
  lemma {:induction false} CommandsFollowed(cfg: Config, es: seq<Event>)
    ensures Run(cfg, es).leader == LeaderNow(es) && Run(cfg, es).makeNew == MayPropose(es)
  {
    if es != [] {
      CommandsFollowed(cfg, es[..|es| - 1]);
    }
  }

  /** A logged request that comes while another node leads, or none is known. */
  predicate TurnedAway(cfg: Config, es: seq<Event>, e: Event) {
    e.Arrive? && e.req.Logged? && LeaderNow(es) != Some(cfg.me)
  }

  /** The open batch once the event's own request is in it. */
  function OpenWith(cfg: Config, es: seq<Event>, e: Event): RawBatch {
    var s := Run(cfg, es);
    if e.Arrive? && e.req.Logged? && !TurnedAway(cfg, es, e) then RawBatch(s.txs + [e.req.tx], s.chans + [e.chan]) else RawBatch(s.txs, s.chans)
  }

  /**
   * A batch goes out, whole, when it is full, and when the timer ticks or a request comes late while proposing is allowed;
   * it stays open otherwise.
   */
  lemma {:induction false} ProposesIff(cfg: Config, es: seq<Event>, e: Event)
    ensures var s, t, open := Run(cfg, es), Run(cfg, es + [e]), OpenWith(cfg, es, e);
            if !e.Command? && !TurnedAway(cfg, es, e)
               && (|open.txs| >= cfg.maxBatch || (MayPropose(es) && (e.Timer? || e.late)))
            then t.proposed == s.proposed + [open] && t.txs == [] && t.chans == []
            else t.proposed == s.proposed && RawBatch(t.txs, t.chans) == open
  {
    CommandsFollowed(cfg, es);
    assert (es + [e])[..|es|] == es;
  }

  /** Unlogged requests and probes go straight on, and a request turned away is pointed to the leader last named. */
  lemma {:induction false} SentAtOnce(cfg: Config, es: seq<Event>, e: Event)
    ensures var s, t := Run(cfg, es), Run(cfg, es + [e]);
            t.direct == s.direct + if TurnedAway(cfg, es, e) then [LeaderHint(LeaderNow(es), e.chan)]
                                   else if e.Arrive? && e.req.Unlogged? then [ToExecution(e.req.tx, e.chan)]
                                   else if e.Arrive? && e.req.Probe? then [ProbeAck(e.req.n, e.chan)]
                                   else []
  {
    CommandsFollowed(cfg, es);
    assert (es + [e])[..|es|] == es;
  }

  /** Where batch k starts in the order of arrival. */
  ghost function Offset(bs: seq<RawBatch>, k: nat): nat
    requires k <= |bs|
  {
    if k == 0 then 0 else Offset(bs, k - 1) + |bs[k - 1].txs|
  }

  lemma {:induction false} FlattenAt(bs: seq<RawBatch>, k: nat, i: nat)
    requires Aligned(bs) && k < |bs| && i < |bs[k].txs|
    ensures |Flatten(bs)| == Offset(bs, |bs|)
    ensures |bs[k].chans| == |bs[k].txs|
    ensures Offset(bs, k) + i < |Flatten(bs)|
    ensures Flatten(bs)[Offset(bs, k) + i] == (bs[k].txs[i], bs[k].chans[i])
  {
    var front, last := bs[..|bs| - 1], bs[|bs| - 1];
    assert last in bs && bs[k] in bs;
    assert Aligned(front) by {
      assert forall b :: b in front ==> b in bs;
    }
    FlattenSize(bs);
    FlattenSize(front);
    OffsetPrefix(bs, front, k);
    OffsetPrefix(bs, front, |front|);
    if k < |bs| - 1 {
      FlattenAt(front, k, i);
    }
  }

  lemma {:induction false} FlattenSize(bs: seq<RawBatch>)
    requires Aligned(bs)
    ensures |Flatten(bs)| == Offset(bs, |bs|)
  {
    if bs != [] {
      var front, last := bs[..|bs| - 1], bs[|bs| - 1];
      assert last in bs;
      assert Aligned(front) by {
        assert forall b :: b in front ==> b in bs;
      }
      FlattenSize(front);
      OffsetPrefix(bs, front, |front|);
    }
  }

  lemma {:induction false} OffsetPrefix(bs: seq<RawBatch>, front: seq<RawBatch>, k: nat)
    requires front <= bs && k <= |front|
    ensures Offset(bs, k) == Offset(front, k)
    decreases k
  {
    if k > 0 {
      OffsetPrefix(bs, front, k - 1);
    }
  }

  // ---------------------------------------------------------------- the proposer itself

  class BatchProposer {
    const cfg: Config
    var txs: seq<Tx>
    var chans: seq<Chan>
    var makeNew: bool
    var leader: Option<Node>
    var proposed: seq<RawBatch>
    var direct: seq<Direct>

    ghost function Abstract(): State
      reads this
    {
      State(txs, chans, makeNew, leader, proposed, direct)
    }

    constructor (cfg: Config)
      ensures this.cfg == cfg && Abstract() == START
    {
      this.cfg := cfg;
      txs, chans, makeNew, leader, proposed, direct := [], [], false, None, [], [];
    }

    method ProposeNewBatch()
      modifies this
      ensures Abstract() == old(Abstract()).(txs := [], chans := [], proposed := old(proposed) + [RawBatch(old(txs), old(chans))])
    {
      var batch, replies := txs, chans;
      txs, chans := [], [];
      proposed := proposed + [RawBatch(batch, replies)];
    }

    /** `None` means the request needs no logging and has been passed on. */
    method FilterUnlogged(req: Request, c: Chan) returns (tx: Option<Tx>)
      modifies this`direct
      ensures tx == if req.Logged? then Some(req.tx) else None
      ensures direct == old(direct) + match req
                                      case Unlogged(t) => [ToExecution(t, c)]
                                      case Probe(n) => [ProbeAck(n, c)]
                                      case Logged(_) => []
    {
      match req {
        case Unlogged(t) =>
          direct := direct + [ToExecution(t, c)];
          return None;
        case Probe(n) =>
          direct := direct + [ProbeAck(n, c)];
          return None;
        case Logged(t) =>
          return Some(t);
      }
    }

    /** One pass of the worker. */
    method Work(e: Event)
      modifies this
      ensures Abstract() == Step(cfg, old(Abstract()), e)
    {
      var tick := false;
      match e {
        case Command(make, current) =>
          makeNew, leader := make, Some(current);
          return;
        case Timer => tick := true;
        case Arrive(req, c, late) =>
          tick := late;
          var tx := FilterUnlogged(req, c);
          if tx.Some? {
            if leader != Some(cfg.me) {
              direct := direct + [LeaderHint(leader, c)];
              return;
            }
            txs, chans := txs + [tx.value], chans + [c];
          }
      }
      if |txs| >= cfg.maxBatch || (makeNew && tick) {
        ProposeNewBatch();
      }
    }

    /** A fresh proposer fed any run ends in that run's state. */
    method Serve(es: seq<Event>)
      requires Abstract() == START
      modifies this
      ensures Abstract() == Run(cfg, es)
    {
      for i := 0 to |es|
        invariant Abstract() == Run(cfg, es[..i])
      {
        assert es[..i + 1][..i] == es[..i];
        Work(es[i]);
      }
      assert es[..|es|] == es;
    }
  }
}
