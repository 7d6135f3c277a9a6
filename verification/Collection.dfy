/**
 * Staging, the application and the log server, joined by first-in first-out channels. Garbage collection is decided by
 * the application from commits it was told of first, and reaches the log server on a channel of its own: here it is
 * shown never to overtake the commands it depends on, so that every command the log server takes is legal.
 */
module Collection {
  import opened Basics
  import opened Chain
  import A = Applications
  import L = LogServers
  import R = ReplyHandlers

  // ---------------------------------------------------------------- the joint system

  /**
   * `mine` is staging's chain: committed blocks, then pending ones. `owed` is the second half of a double send: the
   * application is told first.
   */
  datatype System = System(
    mine: seq<Block>, bci: nat, owed: Option<L.Command>,
    toApp: seq<A.Event>, app: A.State, gc: seq<nat>,
    toLog: seq<L.Command>, log: L.State, taken: seq<L.Command>)

  datatype Event =
    | Store(block: Block)
    | Accept(block: Block)
    | CrashCommit(blocks: seq<Block>, results: seq<seq<R.Result>>)
    | ByzCommit(m: nat, responses: seq<seq<R.ByzResponse>>)
    | RollBack(n: nat)
    | Trim(n: nat, tell: bool)
    | TellLog
    | AppTakes
    | Checkpoint
    | LogTakes
    | LogCollects
    | LogAnswers(query: L.Command)

  function Start(store: map<Digest, Block>): System {
    System([], 0, None, [], A.START, [], [], L.State([], 0, 0, store), [])
  }

  predicate IsQuery(c: L.Command) {
    c.GetBlock? || c.QueryHash? || c.QueryHints? || c.FillFork?
  }

  /** What staging keeps when told to go back to block n: it never gives up committed blocks. */
  function Kept(s: System, n: nat): seq<Block> {
    Truncate(s.mine, if n < s.bci then s.bci else n)
  }

  /**
   * Staging checks continuity, commits blocks it holds, and does one thing at a time. A change of view drops pending
   * blocks without a word to the log server; the application is told of it when it has committed any of them.
   */
  predicate Enabled(s: System, e: Event) {
    match e
    case Store(_) => true
    case Accept(b) =>
      && s.owed == None && b.n == |s.mine| + 1 && (s.mine == [] || b.parent == Sha(s.mine[|s.mine| - 1]))
      && L.StorageGet(s.log.store, Sha(b)) == Some(b)
    case CrashCommit(blocks, results) => s.owed == None && |blocks| == |results|
    case ByzCommit(m, responses) => s.owed == None && s.bci < m <= |s.mine| && |responses| == m - s.bci
    case RollBack(_) => s.owed == None
    case Trim(_, _) => s.owed == None
    case TellLog => s.owed != None
    case AppTakes => s.toApp != [] && A.AnswersAll(s.toApp[0])
    case Checkpoint => true
    case LogTakes => s.toLog != []
    case LogCollects => s.gc != []
    case LogAnswers(query) => IsQuery(query)
  }

  function LogDoes(s: System, c: L.Command): System {
    s.(log := L.Step(s.log, c).0, taken := s.taken + [c])
  }

  function Step(s: System, e: Event): System
    requires Enabled(s, e)
  {
    match e
    case Store(b) => LogDoes(s, L.StoreBlock(b))
    case Accept(b) => s.(mine := s.mine + [b], toLog := s.toLog + [L.NewBlock(b)])
    case CrashCommit(blocks, results) => s.(toApp := s.toApp + [A.CrashCommit(blocks, results)])
    case ByzCommit(m, responses) =>
      s.(bci := m, toApp := s.toApp + [A.ByzCommit(s.mine[s.bci..m], responses)], owed := Some(L.UpdateBci(m)))
    case RollBack(n) =>
      s.(mine := Kept(s, n), toApp := s.toApp + [A.Rollback(n)], owed := Some(L.Rollback(n)))
    case Trim(n, tell) => s.(mine := Kept(s, n), toApp := if tell then s.toApp + [A.Rollback(n)] else s.toApp)
    case TellLog => s.(toLog := s.toLog + [s.owed.value], owed := None)
    case AppTakes => s.(app := A.Step(s.app, s.toApp[0]), toApp := s.toApp[1..])
    case Checkpoint =>
      var app := A.Step(s.app, A.Checkpoint);
      s.(app := app, gc := s.gc + app.gcPoints[|s.app.gcPoints|..])
    case LogTakes => LogDoes(s.(toLog := s.toLog[1..]), s.toLog[0])
    case LogCollects => LogDoes(s.(gc := s.gc[1..]), L.Gc(s.gc[0]))
    case LogAnswers(query) => LogDoes(s, query)
  }

  /** The log server looks at its commands first: it collects when none waits, or when the first of them commits further. */
  predicate Timely(s: System)
    requires s.gc != []
  {
    s.toLog == [] || s.gc[0] < s.log.bci || (s.toLog[0].UpdateBci? && s.gc[0] < s.toLog[0].n)
  }

  // ---------------------------------------------------------------- commands on their way

  /** What the log server will be told, in order. */
  function Ahead(s: System): seq<L.Command> {
    s.toLog + if s.owed == None then [] else [s.owed.value]
  }

  /** The log server after the commands on their way. */
  function Outcome(l: L.State, cs: seq<L.Command>): L.State
    decreases cs
  {
    if cs == [] then l else Outcome(L.Step(l, cs[0]).0, cs[1..])
  }

  /** The chain that the log server is on its way to. */
  function Expected(s: System): seq<Block> {
    Outcome(s.log, Ahead(s)).chain
  }

  /**
   * After a rollback the log server may still have blocks that staging has dropped: it keeps one past the committed ones.
   * The next block staging accepts must then be the one that the log server has in its place.
   */
  predicate Meets(s: System, b: Block) {
    |Expected(s)| <= |s.mine| || Expected(s)[|s.mine|] == b
  }

  predicate Good(s: System, e: Event) {
    Enabled(s, e) && (e.Accept? ==> Meets(s, e.block)) && (e.LogCollects? ==> Timely(s))
  }

  ghost predicate GoodRun(store: map<Digest, Block>, es: seq<Event>)
    decreases |es|, 0
  {
    es == [] || (GoodRun(store, es[..|es| - 1]) && Good(Run(store, es[..|es| - 1]), es[|es| - 1]))
  }

  ghost function Run(store: map<Digest, Block>, es: seq<Event>): System
    requires GoodRun(store, es)
    decreases |es|, 1
  {
    if es == [] then Start(store) else Step(Run(store, es[..|es| - 1]), es[|es| - 1])
  }

  /** Stronger than legal: it holds however far collection has come below the commit index. */
  predicate Fits(l: L.State, c: L.Command) {
    match c
    case NewBlock(b) => L.StorageGet(l.store, Sha(b)) == Some(b)
    case Rollback(n) => true
    case UpdateBci(m) => l.bci <= m <= |l.chain|
    case _ => false
  }

  ghost predicate Fine(l: L.State, cs: seq<L.Command>)
    decreases cs
  {
    l.bci <= |l.chain| && (cs == [] || (Fits(l, cs[0]) && Fine(L.Step(l, cs[0]).0, cs[1..])))
  }

  lemma {:induction false} FineSnoc(l: L.State, cs: seq<L.Command>, c: L.Command)
    requires Fine(l, cs) && Fits(Outcome(l, cs), c)
    ensures Fine(l, cs + [c]) && Outcome(l, cs + [c]) == L.Step(Outcome(l, cs), c).0
    decreases cs
  {
    if cs == [] {
      assert (cs + [c])[1..] == [];
    } else {
      assert (cs + [c])[1..] == cs[1..] + [c];
      FineSnoc(L.Step(l, cs[0]).0, cs[1..], c);
    }
  }

  /** Commands on their way neither store nor collect, and commit no less than before. */
  lemma {:induction false} OutcomeKeeps(l: L.State, cs: seq<L.Command>)
    requires Fine(l, cs)
    ensures var t := Outcome(l, cs); t.store == l.store && t.gced == l.gced && t.bci <= |t.chain|
    decreases cs
  {
    if cs != [] {
      OutcomeKeeps(L.Step(l, cs[0]).0, cs[1..]);
    }
  }

  /** The same chain with more in store, whatever was collected. */
  ghost predicate Extends(l: L.State, k: L.State) {
    k.chain == l.chain && k.bci == l.bci && forall b :: L.InStore(l.store, b) ==> L.InStore(k.store, b)
  }

  lemma {:induction false} FineExtends(l: L.State, k: L.State, cs: seq<L.Command>)
    requires Fine(l, cs) && Extends(l, k)
    ensures Fine(k, cs) && Extends(Outcome(l, cs), Outcome(k, cs))
    decreases cs
  {
    if cs != [] {
      var c := cs[0];
      assert Fits(k, c) by {
        if c.NewBlock? {
          assert L.InStore(l.store, c.block);
        }
      }
      FineExtends(L.Step(l, c).0, L.Step(k, c).0, cs[1..]);
    }
  }

  // ---------------------------------------------------------------- the invariant

  /** The log server is to end up with all of staging's chain. */
  ghost predicate ChainInv(mine: seq<Block>, bci: nat, l: L.State, cs: seq<L.Command>) {
    && bci <= |mine| && Fine(l, cs) && Outcome(l, cs).bci == bci
    && Linked(Outcome(l, cs).chain) && mine <= Outcome(l, cs).chain
  }

  /** Collection is behind the commit index, the one the log server has or the one it is told next. */
  predicate GcInv(l: L.State, cs: seq<L.Command>) {
    l.gced <= l.bci || (cs != [] && cs[0].UpdateBci? && l.gced < cs[0].n)
  }

  ghost predicate UpTo(blocks: seq<Block>, bci: nat) {
    forall b :: b in blocks ==> b.n <= bci
  }

  /** The application never commits, nor collects, past staging. */
  ghost predicate AppInv(bci: nat, toApp: seq<A.Event>, app: A.State, gc: seq<nat>) {
    && app.bci <= bci && (forall e :: e in toApp && e.ByzCommit? ==> UpTo(e.blocks, bci)) && (forall g :: g in gc ==> g < bci)
  }

  ghost predicate TakenInv(start: L.State, l: L.State, taken: seq<L.Command>) {
    L.LegalRun(start, taken) && L.Run(start, taken).0 == l
  }

  ghost predicate Inv(store: map<Digest, Block>, s: System) {
    && ChainInv(s.mine, s.bci, s.log, Ahead(s)) && GcInv(s.log, Ahead(s))
    && AppInv(s.bci, s.toApp, s.app, s.gc) && TakenInv(L.State([], 0, 0, store), s.log, s.taken)
  }

  lemma {:induction false} TakenSnoc(start: L.State, l: L.State, taken: seq<L.Command>, c: L.Command)
    requires TakenInv(start, l, taken) && L.Legal(l, c)
    ensures TakenInv(start, L.Step(l, c).0, taken + [c])
  {
    var more := taken + [c];
    assert more[..|taken|] == taken;
    forall k | 0 <= k < |more| ensures L.Legal(L.Run(start, more[..k]).0, more[k]) {
      if k < |taken| {
        assert more[..k] == taken[..k];
      }
    }
  }

  // ---------------------------------------------------------------- staging's steps

  lemma {:induction false} LinkedSnoc(c: seq<Block>, b: Block)
    requires Linked(c)
    ensures Linked(Append(c, b))
  {
    var d := Append(c, b);
    forall i | 0 < i < |d| ensures NamesParent(d, i) {
      assert i < |c| ==> NamesParent(c, i);
    }
  }

  lemma {:induction false} LinkedPrefix(c: seq<Block>, n: nat)
    requires Linked(c)
    ensures Linked(Truncate(c, n))
  {
    forall i | 0 < i < |Truncate(c, n)| ensures NamesParent(Truncate(c, n), i) {
      assert NamesParent(c, i);
    }
  }

  /** A new block leaves staging's chain within the log server's exactly when it meets what the log server still has. */
  lemma {:induction false} AcceptAgreesIff(s: System, b: Block)
    requires ChainInv(s.mine, s.bci, s.log, Ahead(s)) && Enabled(s, Accept(b))
    ensures var t := Step(s, Accept(b));
            && Fine(t.log, Ahead(t)) && Outcome(t.log, Ahead(t)) == L.Step(Outcome(s.log, Ahead(s)), L.NewBlock(b)).0
            && (t.mine <= Expected(t) <==> Meets(s, b))
  {
    hide Linked, Fine;
    assert Ahead(Step(s, Accept(b))) == Ahead(s) + [L.NewBlock(b)];
    OutcomeKeeps(s.log, Ahead(s));
    FineSnoc(s.log, Ahead(s), L.NewBlock(b));
  }

  lemma {:induction false} AcceptKeeps(s: System, b: Block)
    requires ChainInv(s.mine, s.bci, s.log, Ahead(s)) && Good(s, Accept(b))
    ensures var t := Step(s, Accept(b)); ChainInv(t.mine, t.bci, t.log, Ahead(t))
  {
    hide Linked, Fine;
    AcceptAgreesIff(s, b);
    LinkedSnoc(Expected(s), b);
  }

  /** However far back: staging and log server both keep what is committed. */
  lemma {:induction false} RollBackKeeps(s: System, n: nat)
    requires ChainInv(s.mine, s.bci, s.log, Ahead(s)) && s.owed == None
    ensures var t := Step(s, RollBack(n));
            && ChainInv(t.mine, t.bci, t.log, Ahead(t)) && Expected(t) == Truncate(Expected(s), Clamp(n, s.bci))
  {
    hide Linked;
    assert Ahead(Step(s, RollBack(n))) == Ahead(s) + [L.Rollback(n)];
    FineSnoc(s.log, Ahead(s), L.Rollback(n));
    LinkedPrefix(Expected(s), Clamp(n, s.bci));
  }

  lemma {:induction false} ByzCommitKeeps(s: System, m: nat, responses: seq<seq<R.ByzResponse>>)
    requires ChainInv(s.mine, s.bci, s.log, Ahead(s)) && Enabled(s, ByzCommit(m, responses))
    requires AppInv(s.bci, s.toApp, s.app, s.gc)
    ensures var t := Step(s, ByzCommit(m, responses));
            ChainInv(t.mine, t.bci, t.log, Ahead(t)) && AppInv(t.bci, t.toApp, t.app, t.gc)
  {
    var t := Step(s, ByzCommit(m, responses));
    assert Ahead(t) == Ahead(s) + [L.UpdateBci(m)];
    FineSnoc(s.log, Ahead(s), L.UpdateBci(m));
    assert UpTo(s.mine[s.bci..m], m) by {
      forall b | b in s.mine[s.bci..m] ensures b.n <= m {
        var i :| s.bci <= i < m && s.mine[i] == b;
        assert Expected(s)[i] == b;
      }
    }
  }

  lemma {:induction false} TrimKeeps(s: System, n: nat, tell: bool)
    requires ChainInv(s.mine, s.bci, s.log, Ahead(s)) && s.owed == None
    ensures var t := Step(s, Trim(n, tell)); ChainInv(t.mine, t.bci, t.log, Ahead(t))
  {
    hide Linked, Fine;
  }

  // ---------------------------------------------------------------- the application's and the log server's steps

  lemma {:induction false} AppTakesKeeps(s: System)
    requires AppInv(s.bci, s.toApp, s.app, s.gc) && Enabled(s, AppTakes)
    ensures var t := Step(s, AppTakes); AppInv(t.bci, t.toApp, t.app, t.gc)
  {
    var e := s.toApp[0];
    if e.ByzCommit? {
      A.HighestExact(e.blocks, |e.blocks|, s.app.bci);
      assert e in s.toApp && UpTo(e.blocks, s.bci);
    }
  }

  lemma {:induction false} LogTakesKeeps(s: System)
    requires ChainInv(s.mine, s.bci, s.log, Ahead(s)) && GcInv(s.log, Ahead(s)) && s.toLog != []
    ensures var t := Step(s, LogTakes); ChainInv(t.mine, t.bci, t.log, Ahead(t)) && GcInv(t.log, Ahead(t))
    ensures L.Legal(s.log, s.toLog[0])
  {
    assert Ahead(Step(s, LogTakes)) == Ahead(s)[1..];
  }

  /** The heart of it: what the application lets go is below the log server's tip, and below anything it can be rolled back to. */
  lemma {:induction false} LogCollectsKeeps(s: System)
    requires ChainInv(s.mine, s.bci, s.log, Ahead(s)) && GcInv(s.log, Ahead(s))
    requires AppInv(s.bci, s.toApp, s.app, s.gc) && s.gc != [] && Timely(s)
    ensures var t := Step(s, LogCollects); ChainInv(t.mine, t.bci, t.log, Ahead(t)) && GcInv(t.log, Ahead(t))
    ensures L.Legal(s.log, L.Gc(s.gc[0]))
  {
    var g, t := s.gc[0], Step(s, LogCollects);
    assert g in s.gc && Ahead(t) == Ahead(s);
    if s.toLog == [] {
      NextCommit(s.log, Ahead(s));
    }
    FineExtends(s.log, t.log, Ahead(s));
  }

  /** With at most one command on its way, either it commits up to the index staging has, or the log server is already there. */
  lemma {:induction false} NextCommit(l: L.State, cs: seq<L.Command>)
    requires Fine(l, cs) && |cs| <= 1
    ensures Outcome(l, cs).bci == if cs != [] && cs[0].UpdateBci? then cs[0].n else l.bci
  {
    if cs != [] {
      assert cs[1..] == [];
    }
  }

  lemma {:induction false} StoreKeeps(s: System, b: Block)
    requires ChainInv(s.mine, s.bci, s.log, Ahead(s))
    ensures var t := Step(s, Store(b)); ChainInv(t.mine, t.bci, t.log, Ahead(t))
  {
    FineExtends(s.log, Step(s, Store(b)).log, Ahead(s));
  }

  // ---------------------------------------------------------------- every run

  lemma {:induction false} StartInv(store: map<Digest, Block>)
    ensures Inv(store, Start(store))
  {
  }

  lemma {:induction false} StagingKeeps(store: map<Digest, Block>, s: System, e: Event)
    requires Inv(store, s) && Good(s, e) && (e.Accept? || e.CrashCommit? || e.ByzCommit? || e.RollBack? || e.Trim? || e.TellLog?)
    ensures Inv(store, Step(s, e))
  {
    hide ChainInv, TakenInv;
    var t := Step(s, e);
    assert t.log == s.log && t.taken == s.taken;
    match e {
      case Accept(b) => AcceptKeeps(s, b);
      case ByzCommit(m, responses) => ByzCommitKeeps(s, m, responses);
      case RollBack(n) => RollBackKeeps(s, n);
      case Trim(n, tell) => TrimKeeps(s, n, tell);
      case CrashCommit(_, _) =>
      case TellLog => assert Ahead(t) == Ahead(s);
    }
  }

  lemma {:induction false} AppKeeps(store: map<Digest, Block>, s: System, e: Event)
    requires Inv(store, s) && Good(s, e) && (e.AppTakes? || e.Checkpoint?)
    ensures Inv(store, Step(s, e))
  {
    hide ChainInv, TakenInv;
    if e.AppTakes? {
      AppTakesKeeps(s);
    }
    assert Ahead(Step(s, e)) == Ahead(s);
  }

  lemma {:induction false} LogKeeps(store: map<Digest, Block>, s: System, e: Event)
    requires Inv(store, s) && Good(s, e) && (e.Store? || e.LogTakes? || e.LogCollects? || e.LogAnswers?)
    ensures Inv(store, Step(s, e))
  {
    hide ChainInv, TakenInv, AppInv;
    var start, t := L.State([], 0, 0, store), Step(s, e);
    match e {
      case Store(b) =>
        StoreKeeps(s, b);
        TakenSnoc(start, s.log, s.taken, L.StoreBlock(b));
      case LogTakes =>
        LogTakesKeeps(s);
        TakenSnoc(start, s.log, s.taken, s.toLog[0]);
      case LogCollects =>
        LogCollectsKeeps(s);
        FewerPoints(s.bci, s.toApp, s.app, s.gc);
        TakenSnoc(start, s.log, s.taken, L.Gc(s.gc[0]));
      case LogAnswers(query) =>
        TakenSnoc(start, s.log, s.taken, query);
    }
  }

  lemma FewerPoints(bci: nat, toApp: seq<A.Event>, app: A.State, gc: seq<nat>)
    requires AppInv(bci, toApp, app, gc) && gc != []
    ensures AppInv(bci, toApp, app, gc[1..])
  {
    assert forall g :: g in gc[1..] ==> g in gc;
  }

  /** Over every joint run: every command the log server takes is legal, and it is to end up with all of staging's chain. */
  lemma {:induction false} JointRunIsLegal(store: map<Digest, Block>, es: seq<Event>)
    requires GoodRun(store, es)
    ensures var s := Run(store, es);
            && L.LegalRun(L.State([], 0, 0, store), s.taken) && L.Run(L.State([], 0, 0, store), s.taken).0 == s.log
            && s.bci <= |s.mine| && s.mine <= Expected(s) && Outcome(s.log, Ahead(s)).bci == s.bci
    ensures Inv(store, Run(store, es))
  {
    if es != [] {
      hide Step, Good;
      var before, e := es[..|es| - 1], es[|es| - 1];
      var s := Run(store, before);
      JointRunIsLegal(store, before);
      if e.Store? || e.LogTakes? || e.LogCollects? || e.LogAnswers? {
        LogKeeps(store, s, e);
      } else if e.AppTakes? || e.Checkpoint? {
        AppKeeps(store, s, e);
      } else {
        StagingKeeps(store, s, e);
      }
    } else {
      StartInv(store);
    }
  }

  /** So the layered log server answers whatever a joint run puts to it as one plain chain would. */
  method ServeJointRun(store: map<Digest, Block>, cs: seq<L.Command>, ghost es: seq<Event>) returns (rs: seq<L.Response>)
    requires GoodRun(store, es) && cs == Run(store, es).taken
    ensures rs == L.Run(L.State([], 0, 0, store), cs).1
  {
    JointRunIsLegal(store, es);
    var server := new L.LogServer(store);
    rs := server.Serve(cs);
  }

  // ---------------------------------------------------------------- changes of view

  /** Going back and telling the log server. */
  function WentBack(s: System, n: nat): System
    requires s.owed == None
  {
    Step(Step(s, RollBack(n)), TellLog)
  }

  /**
   * In an unstable view staging goes back to just below every block it is sent. Whatever came before, that block is then
   * met exactly when it is past the first uncommitted one, or the log server has no such block, or has this very one.
   */
  lemma {:induction false} ResentBlockMeetsIff(s: System, b: Block)
    requires ChainInv(s.mine, s.bci, s.log, Ahead(s)) && s.owed == None && b.n >= 1
    requires Enabled(WentBack(s, b.n - 1), Accept(b))
    ensures Meets(WentBack(s, b.n - 1), b) <==> b.n > s.bci + 1 || |Expected(s)| == s.bci || Expected(s)[s.bci] == b
  {
    hide Linked, Fine, Outcome;
    var n := b.n - 1;
    var t := Step(s, RollBack(n));
    RollBackKeeps(s, n);
    assert Ahead(WentBack(s, n)) == Ahead(t);
  }

  /** A rollback leaves both with one chain exactly when it goes back to no committed block, or nothing is pending. */
  lemma {:induction false} CutsAgreeIff(s: System, n: nat)
    requires ChainInv(s.mine, s.bci, s.log, Ahead(s)) && s.owed == None && s.mine == Expected(s)
    ensures var t := Step(s, RollBack(n)); t.mine == Expected(t) <==> n > s.bci || |s.mine| <= s.bci
  {
    hide Linked, Fine, Outcome;
    RollBackKeeps(s, n);
  }

  // ---------------------------------------------------------------- where it fails

  ghost predicate CanReach(s: System, es: seq<Event>, t: System)
    decreases es
  {
    if es == [] then s == t else Enabled(s, es[0]) && CanReach(Step(s, es[0]), es[1..], t)
  }

  lemma ReachSelf(s: System)
    ensures CanReach(s, [], s)
  {
  }

  lemma {:induction false} ReachNext(s: System, es: seq<Event>, t: System, e: Event)
    requires CanReach(s, es, t) && Enabled(t, e)
    ensures CanReach(s, es + [e], Step(t, e))
    decreases es
  {
    if es == [] {
      assert (es + [e])[1..] == [];
    } else {
      assert (es + [e])[1..] == es[1..] + [e];
      ReachNext(Step(s, es[0]), es[1..], t, e);
    }
  }

  /** A fork that follows staging's chain. */
  ghost predicate Follows(s: System, fork: seq<Block>) {
    Linked(s.mine + fork) && forall i :: 0 <= i < |fork| ==> L.InStore(s.log.store, fork[i])
  }

  /** Staging has taken in the fork; the log server is to have what it had, and to have been told of the fork. */
  ghost predicate Parted(s: System, fork: seq<Block>, t: System) {
    && t == s.(mine := s.mine + fork, toLog := t.toLog)
    && Fine(t.log, Ahead(t)) && Outcome(t.log, Ahead(t)) == Outcome(s.log, Ahead(s))
  }

  /** On two branches the log server never finds its own tip as a parent. */
  lemma {:induction false} BranchesNeverJoin(mine: seq<Block>, fork: seq<Block>, kept: seq<Block>, k: nat)
    requires Linked(mine + fork) && Linked(kept) && mine < kept && 0 < k < |fork| && kept[|mine|] != fork[0]
    ensures Append(kept, fork[k]) == kept
  {
    var ours, n := mine + fork, |mine| + k;
    assert fork[k] == ours[n] && NamesParent(ours, n);
    if n == |kept| && ours[n - 1] == kept[n - 1] {
      AgreementIsPrefix(ours, kept, n);
      assert false;
    }
  }

  lemma {:induction false} FirstIsRefused(mine: seq<Block>, fork: seq<Block>, kept: seq<Block>)
    requires Linked(mine + fork) && fork != [] && mine < kept
    ensures Append(kept, fork[0]) == kept
  {
    assert (mine + fork)[|mine|] == fork[0];
  }

  lemma {:induction false} NextOfFork(mine: seq<Block>, fork: seq<Block>, k: nat)
    requires Linked(mine + fork) && k < |fork|
    ensures var m := mine + fork[..k]; fork[k].n == |m| + 1 && (m == [] || fork[k].parent == Sha(m[|m| - 1]))
  {
    var ours, n := mine + fork, |mine| + k;
    assert fork[k] == ours[n];
    if n > 0 {
      assert NamesParent(ours, n);
      assert (mine + fork[..k])[n - 1] == ours[n - 1];
    }
  }

  /** Once a block is accepted that does not meet the log server's, it refuses that block and all that follow it. */
  lemma {:induction false} ForkIsRefused(s: System, fork: seq<Block>, k: nat) returns (es: seq<Event>, t: System)
    requires ChainInv(s.mine, s.bci, s.log, Ahead(s)) && s.owed == None && Follows(s, fork)
    requires fork != [] && !Meets(s, fork[0]) && k <= |fork|
    ensures CanReach(s, es, t) && Parted(s, fork[..k], t)
    decreases k
  {
    hide CanReach, Linked, Outcome, Fine;
    if k == 0 {
      es, t := [], s;
      ReachSelf(s);
    } else {
      var u: System;
      es, u := ForkIsRefused(s, fork, k - 1);
      var b := fork[k - 1];
      NextOfFork(s.mine, fork, k - 1);
      assert L.InStore(s.log.store, b);
      ReachNext(s, es, u, Accept(b));
      es, t := es + [Accept(b)], Step(u, Accept(b));
      assert fork[..k] == fork[..k - 1] + [b];
      assert Ahead(t) == Ahead(u) + [L.NewBlock(b)];
      OutcomeKeeps(u.log, Ahead(u));
      FineSnoc(u.log, Ahead(u), L.NewBlock(b));
      if k == 1 {
        FirstIsRefused(s.mine, fork, Expected(s));
      } else {
        BranchesNeverJoin(s.mine, fork, Expected(s), k - 1);
      }
    }
  }

  /**
   * From any state in which a block does not meet the log server's: staging accepts it, and others after it until its chain
   * is the longer one, and commits them all. When the log server has caught up, it has none of them, and the
   * collection point that the application will announce takes its last block.
   */
  lemma {:induction false} StaleBlockStays(s: System, fork: seq<Block>) returns (es: seq<Event>, t: System)
    requires ChainInv(s.mine, s.bci, s.log, Ahead(s)) && s.owed == None && Follows(s, fork)
    requires fork != [] && !Meets(s, fork[0]) && |s.mine| + |fork| > |Expected(s)|
    ensures CanReach(s, es, t) && t.mine == s.mine + fork && t.bci == |t.mine|
    ensures Expected(t) == Expected(s) && !L.Legal(Outcome(t.log, Ahead(t)), L.Gc(t.bci - 1))
  {
    hide CanReach, Linked, Fine, Outcome;
    var u: System;
    es, u := ForkIsRefused(s, fork, |fork|);
    assert fork[..|fork|] == fork;
    var m := |u.mine|;
    var commit := ByzCommit(m, seq(m - u.bci, i => []));
    ReachNext(s, es, u, commit);
    es, t := es + [commit], Step(u, commit);
    assert Ahead(t) == Ahead(u) + [L.UpdateBci(m)];
    OutcomeSnoc(u.log, Ahead(u), L.UpdateBci(m));
  }

  lemma {:induction false} OutcomeSnoc(l: L.State, cs: seq<L.Command>, c: L.Command)
    ensures Outcome(l, cs + [c]) == L.Step(Outcome(l, cs), c).0
    decreases cs
  {
    if cs == [] {
      assert (cs + [c])[1..] == [];
    } else {
      assert (cs + [c])[1..] == cs[1..] + [c];
      OutcomeSnoc(L.Step(l, cs[0]).0, cs[1..], c);
    }
  }

  function Told(a: Block, b: Block): System {
    var store := map[Sha(a) := a, Sha(b) := b];
    Start(store).(mine := [a, b], log := L.State([a], 0, 0, store), taken := [L.NewBlock(a)], toLog := [L.NewBlock(b)])
  }

  lemma {:induction false} TellTwo(a: Block, b: Block) returns (es: seq<Event>)
    requires a.n == 1 && b.n == 2 && b.parent == Sha(a)
    ensures CanReach(Start(map[Sha(a) := a, Sha(b) := b]), es, Told(a, b))
  {
    hide CanReach;
    var s := Start(map[Sha(a) := a, Sha(b) := b]);
    ReachSelf(s);
    ReachNext(s, [], s, Accept(a));
    var s1 := Step(s, Accept(a));
    ReachNext(s, [] + [Accept(a)], s1, LogTakes);
    var s2 := Step(s1, LogTakes);
    assert s2 == s.(mine := [a], log := s.log.(chain := [a]), taken := [L.NewBlock(a)]);
    ReachNext(s, [] + [Accept(a)] + [LogTakes], s2, Accept(b));
    assert Step(s2, Accept(b)) == Told(a, b);
    es := [] + [Accept(a)] + [LogTakes] + [Accept(b)];
  }

  /**
   * Were the log server to collect before it looks at its commands, it could take away its own tip: staging tells it of a
   * second block and commits both, the application takes the commit and announces its collection point.
   */
  lemma {:induction false} HastyCollectionTakesTip(a: Block, b: Block) returns (es: seq<Event>, t: System)
    requires a.n == 1 && b.n == 2 && b.parent == Sha(a)
    ensures CanReach(Start(map[Sha(a) := a, Sha(b) := b]), es, t)
    ensures t.gc == [1] && !Timely(t) && !L.Legal(t.log, L.Gc(1))
  {
    hide CanReach;
    var s := Start(map[Sha(a) := a, Sha(b) := b]);
    var s3 := Told(a, b);
    es := TellTwo(a, b);
    var commit := ByzCommit(2, [[], []]);
    ReachNext(s, es, s3, commit);
    var s4 := Step(s3, commit);
    ReachNext(s, es + [commit], s4, AppTakes);
    assert s3.mine[0..2] == [a, b];
    A.HighestExact([a, b], 2, 0);
    var s5 := Step(s4, AppTakes);
    assert s5.app.bci == 2;
    ReachNext(s, es + [commit] + [AppTakes], s5, Checkpoint);
    t := Step(s5, Checkpoint);
    es := es + [commit] + [AppTakes] + [Checkpoint];
  }
}
