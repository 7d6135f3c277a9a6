/**
 * The sequencer's block stream meets the log server: nothing the sequencer emits is turned away, across changes of view.
 */
module ProducerConsumer {
  import opened Basics
  import opened Chain
  import L = LogServers
  import S = Sequencers

  /** `led` says that this node opened the current view itself, so that nobody else writes the log. */
  datatype System = System(sqr: S.State, log: seq<Block>, led: bool)

  const START := System(S.START, [], false)

  /** Own commands of the sequencer, and whatever other leaders and rollbacks do to the log meanwhile. */
  datatype Event = Own(e: S.Event) | Foreign(log: seq<Block>)

  predicate Restarts(log: seq<Block>, n: nat, parent: Digest) {
    |log| == n && (n > 0 ==> parent == Sha(log[n - 1]))
  }

  ghost predicate Legal(cfg: S.Config, x: System, e: Event)
    requires S.ValidConfig(cfg)
  {
    match e
    case Own(NewViewMessage(v, _, parent, n)) => S.Leads(cfg, v) ==> Restarts(x.log, n, parent)
    case Own(ViewStabilised(v, _)) => S.Leads(cfg, v) ==> x.led && v == x.sqr.view
    case Own(_) => true
    case Foreign(log) => Linked(log) && !x.led
  }

  function Feed(log: seq<Block>, blocks: seq<Block>): seq<Block> {
    if blocks == [] then log else Append(Feed(log, blocks[..|blocks| - 1]), blocks[|blocks| - 1])
  }

  /** The blocks one command adds to the stream. */
  function Emitted(cfg: S.Config, s: S.State, e: S.Event): seq<Block>
    requires S.ValidConfig(cfg)
  {
    S.Step(cfg, s, e).blocks[|s.blocks|..]
  }

  function Step(cfg: S.Config, x: System, e: Event): System
    requires S.ValidConfig(cfg)
  {
    match e
    case Foreign(log) => x.(log := log)
    case Own(f) =>
      var led := match f
                 case NewViewMessage(v, _, _, _) => S.Leads(cfg, v)
                 case ViewStabilised(v, _) => x.led && v == x.sqr.view
                 case NewUnstableView(v, _) => x.led && v == x.sqr.view
                 case _ => x.led;
      System(S.Step(cfg, x.sqr, f), Feed(x.log, Emitted(cfg, x.sqr, f)), led)
  }

  ghost predicate InSync(s: S.State, log: seq<Block>) {
    |log| == s.seqNum > 0 && s.parent == Some(Sha(log[|log| - 1]))
  }

  ghost predicate Inv(cfg: S.Config, x: System)
    requires S.ValidConfig(cfg)
  {
    && Linked(x.log)
    && (x.led ==> S.Leads(cfg, x.sqr.view) && InSync(x.sqr, x.log))
    && (S.Listening(cfg, x.sqr) ==> x.led)
  }

  /** A block emitted where the log stands is the log's next block. */
  lemma {:induction false} EmitFits(cfg: S.Config, s: S.State, log: seq<Block>, txs: seq<Tx>, chans: seq<S.Chan>)
    requires S.ValidConfig(cfg) && Linked(log) && s.parent.Some? && Restarts(log, s.seqNum, s.parent.value)
    ensures var b := S.NextBlock(cfg, s, txs);
            Append(log, b) == log + [b] && Linked(log + [b]) && InSync(S.Emit(cfg, s, txs, chans), log + [b])
  {
    var b := S.NextBlock(cfg, s, txs);
    forall i | 0 < i < |log + [b]| ensures NamesParent(log + [b], i) {
      if i < |log| {
        assert NamesParent(log, i);
      }
    }
  }

  lemma {:induction false} FeedOne(log: seq<Block>, b: Block)
    ensures Feed(log, [b]) == Append(log, b)
  {
    assert [b][..0] == [];
  }

  /** Every legal step keeps the pair in step, and the log takes in exactly what was emitted. */
  lemma {:induction false} StepAccepts(cfg: S.Config, x: System, e: Event)
    requires S.ValidConfig(cfg) && Inv(cfg, x) && Legal(cfg, x, e)
    ensures Inv(cfg, Step(cfg, x, e))
    ensures e.Own? ==> Step(cfg, x, e).log == x.log + Emitted(cfg, x.sqr, e.e)
  {
    hide S.MustSign, Linked, S.Leads;
    if e.Own? {
      match e.e {
        case NewBatch(txs, chans) =>
          if S.Listening(cfg, x.sqr) {
            EmitFits(cfg, x.sqr, x.log, txs, chans);
            assert Emitted(cfg, x.sqr, e.e) == [S.NextBlock(cfg, x.sqr, txs)];
            FeedOne(x.log, S.NextBlock(cfg, x.sqr, txs));
          }
        case NewViewMessage(v, c, parent, n) =>
          if S.Leads(cfg, v) {
            var t := x.sqr.(view := v, configNum := c, viewIsStable := false, qcs := S.OfView(x.sqr.qcs, v));
            var t' := t.(seqNum := n, parent := Some(parent));
            EmitFits(cfg, t', x.log, [], []);
            assert Emitted(cfg, x.sqr, e.e) == [S.NextBlock(cfg, t', [])];
            FeedOne(x.log, S.NextBlock(cfg, t', []));
          }
        case _ =>
      }
    }
  }

  ghost predicate LegalRun(cfg: S.Config, es: seq<Event>)
    requires S.ValidConfig(cfg)
    decreases |es|, 0
  {
    es == [] || (LegalRun(cfg, es[..|es| - 1]) && Legal(cfg, Run(cfg, es[..|es| - 1]), es[|es| - 1]))
  }

  ghost function Run(cfg: S.Config, es: seq<Event>): System
    requires S.ValidConfig(cfg) && LegalRun(cfg, es)
    decreases |es|, 1
  {
    if es == [] then START else Step(cfg, Run(cfg, es[..|es| - 1]), es[|es| - 1])
  }

  /** Over every run the log stays contiguous and hash-linked, and the last command's blocks are at its end. */
  lemma {:induction false} StreamAccepted(cfg: S.Config, es: seq<Event>)
    requires S.ValidConfig(cfg) && LegalRun(cfg, es)
    ensures Inv(cfg, Run(cfg, es))
    ensures es != [] && es[|es| - 1].Own?
            ==> var x := Run(cfg, es[..|es| - 1]); Run(cfg, es).log == x.log + Emitted(cfg, x.sqr, es[|es| - 1].e)
  {
    hide Step, Legal, Inv, Emitted;
    if es == [] {
      StartInv(cfg);
    } else {
      StreamAccepted(cfg, es[..|es| - 1]);
      StepAccepts(cfg, Run(cfg, es[..|es| - 1]), es[|es| - 1]);
    }
  }

  lemma StartInv(cfg: S.Config)
    requires S.ValidConfig(cfg)
    ensures Inv(cfg, START)
  {
  }

  /**
   * Rolling the log back to the new parent makes it ready for the restart exactly when the parent is past the
   * byzantine-committed blocks, or is the tip already: at or below them one block too many is kept.
   */
  lemma RollbackRestarts(log: seq<Block>, bci: nat, n: nat, parent: Digest)
    requires 1 <= n <= |log| && parent == Sha(log[n - 1])
    ensures Restarts(Truncate(log, Clamp(n, bci)), n, parent) <==> n > bci || n == |log|
  {
  }

  /** With blocks 1 and 2 in the log and 1 committed, a rollback to 1 keeps block 2. */
  lemma {:induction false} RollbackKeepsTooMuch(b1: Block, b2: Block)
    requires b2.parent == Sha(b1)
    ensures Truncate([b1, b2], Clamp(1, 1)) == [b1, b2] && !Restarts(Truncate([b1, b2], Clamp(1, 1)), 1, Sha(b1))
  {
    assert [b1, b2][..2] == [b1, b2];
  }

  /** A new leader's blocks: numbered from n + 1 on and linked. */
  ghost predicate ForkFrom(fork: seq<Block>, n: nat) {
    && (forall i :: 0 <= i < |fork| ==> fork[i].n == n + 1 + i)
    && (forall i :: 0 < i < |fork| ==> NamesParent(fork, i))
  }

  /** What is left of a new leader's fork when block b + 1 was kept: nothing, or what follows that very block. */
  function AfterRestart(chain: seq<Block>, b: nat, n: nat, fork: seq<Block>): seq<Block>
    requires n <= b < |chain|
  {
    if |fork| > b - n && fork[b - n] == chain[b] then chain[..b + 1] + fork[b - n + 1..] else chain[..b + 1]
  }

  lemma {:induction false} ForkFront(fork: seq<Block>, n: nat)
    requires ForkFrom(fork, n) && fork != []
    ensures ForkFrom(fork[..|fork| - 1], n)
  {
    var front := fork[..|fork| - 1];
    forall k | 0 < k < |front| ensures NamesParent(front, k) {
      assert NamesParent(fork, k);
    }
  }

  /** Block number n + 1 + i of the fork arrives. */
  lemma {:induction false} OneMoreAfterRestart(chain: seq<Block>, b: nat, n: nat, fork: seq<Block>)
    requires Linked(chain) && n <= b < |chain| && ForkFrom(fork, n) && fork != []
    ensures Append(AfterRestart(chain, b, n, fork[..|fork| - 1]), fork[|fork| - 1]) == AfterRestart(chain, b, n, fork)
  {
    var i, m := |fork| - 1, b - n;
    var front := fork[..i];
    hide Linked;
    if i > m {
      assert NamesParent(fork, i);
      assert front[m] == fork[m];
      if fork[m] == chain[b] {
        var before := AfterRestart(chain, b, n, front);
        assert before == chain[..b + 1] + front[m + 1..] && |before| == n + i;
        assert before[|before| - 1] == fork[i - 1];
        assert chain[..b + 1] + fork[m + 1..] == before + [fork[i]];
      }
    }
  }

  lemma {:induction false} FeedAfterRestart(chain: seq<Block>, b: nat, n: nat, fork: seq<Block>)
    requires Linked(chain) && n <= b < |chain| && ForkFrom(fork, n)
    ensures Feed(chain[..b + 1], fork) == AfterRestart(chain, b, n, fork)
  {
    if fork != [] {
      hide Linked, ForkFrom, AfterRestart, Append;
      ForkFront(fork, n);
      FeedAfterRestart(chain, b, n, fork[..|fork| - 1]);
      OneMoreAfterRestart(chain, b, n, fork);
    }
  }

  function NewBlocks(fork: seq<Block>): seq<L.Command> {
    if fork == [] then [] else NewBlocks(fork[..|fork| - 1]) + [L.NewBlock(fork[|fork| - 1])]
  }

  lemma {:induction false} ServerFeeds(s: L.State, cs: seq<L.Command>, fork: seq<Block>)
    ensures L.Run(s, cs + NewBlocks(fork)).0 == L.Run(s, cs).0.(chain := Feed(L.Run(s, cs).0.chain, fork))
  {
    if fork == [] {
      assert cs + NewBlocks(fork) == cs;
    } else {
      var front, b := fork[..|fork| - 1], fork[|fork| - 1];
      ServerFeeds(s, cs, front);
      var all := cs + NewBlocks(fork);
      assert all[..|all| - 1] == cs + NewBlocks(front) && all[|all| - 1] == L.NewBlock(b);
    }
  }

  /**
   * On the log server: after the byzantine commit index b and a rollback to n <= b below the tip, a new leader's blocks from
   * n + 1 on are refused and the chain stays as it was, unless the leader's block b + 1 is the one that was kept.
   */
  lemma {:induction false} RestartAtCommittedRefused(s: L.State, b: nat, n: nat, fork: seq<Block>)
    requires Linked(s.chain) && n <= b < |s.chain| && ForkFrom(fork, n)
    ensures L.Run(s, [L.UpdateBci(b), L.Rollback(n)] + NewBlocks(fork)).0.chain == AfterRestart(s.chain, b, n, fork)
  {
    var cs := [L.UpdateBci(b), L.Rollback(n)];
    ServerFeeds(s, cs, fork);
    assert cs[..1] == [L.UpdateBci(b)] && cs[..1][..0] == [];
    assert L.Run(s, cs[..1]).0 == s.(bci := b);
    assert L.Run(s, cs).0 == s.(bci := b, chain := s.chain[..b + 1]);
    FeedAfterRestart(s.chain, b, n, fork);
  }
}
