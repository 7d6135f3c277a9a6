/** The application's bookkeeping: commit indices, acknowledgements, and the point up to which blocks may be collected. */
module Applications {
  import opened Basics
  import opened Chain
  import R = ReplyHandlers

  datatype State = State(
    ci: nat, bci: nat, lastN: nat,
    acks: seq<(Digest, R.CrashAck)>, byzAcks: seq<(Digest, R.ByzAck)>, gcPoints: seq<nat>)

  const START := State(0, 0, 0, [], [], [])

  /** `results` and `responses` are what the engine returns: one list per block. */
  datatype Event =
    | NewRequestBatch(n: nat)
    | CrashCommit(blocks: seq<Block>, results: seq<seq<R.Result>>)
    | ByzCommit(blocks: seq<Block>, responses: seq<seq<R.ByzResponse>>)
    | Rollback(n: nat)
    | Checkpoint

  function Highest(blocks: seq<Block>, i: nat, start: nat): nat
    requires i <= |blocks|
  {
    if i == 0 then start
    else
      var m := Highest(blocks, i - 1, start);
      if m < blocks[i - 1].n then blocks[i - 1].n else m
  }

  function AcksFor(blocks: seq<Block>, results: seq<seq<R.Result>>): seq<(Digest, R.CrashAck)>
    requires |blocks| == |results|
  {
    seq(|blocks|, i requires 0 <= i < |blocks| => (Sha(blocks[i]), R.CrashAck(blocks[i].n, results[i])))
  }

  function ByzAcksFor(blocks: seq<Block>, responses: seq<seq<R.ByzResponse>>): seq<(Digest, R.ByzAck)>
    requires |blocks| == |responses|
  {
    seq(|blocks|, i requires 0 <= i < |blocks| => (Sha(blocks[i]), R.ByzAck(blocks[i].n, responses[i])))
  }

  ghost predicate OneEach<T>(blocks: seq<Block>, lists: seq<seq<T>>) {
    |blocks| == |lists| && forall i :: 0 <= i < |blocks| ==> |lists[i]| == |blocks[i].txs|
  }

  /** The engine answers for every transaction of every block. */
  ghost predicate Legal(s: State, e: Event) {
    match e
    case CrashCommit(blocks, results) => OneEach(blocks, results)
    case ByzCommit(blocks, responses) => OneEach(blocks, responses)
    case _ => true
  }

  predicate AnswersAll(e: Event) {
    (e.CrashCommit? ==> |e.blocks| == |e.results|) && (e.ByzCommit? ==> |e.blocks| == |e.responses|)
  }

  function Step(s: State, e: Event): State
    requires AnswersAll(e)
  {
    match e
    case NewRequestBatch(n) => s.(lastN := n)
    case CrashCommit(blocks, results) =>
      s.(ci := Highest(blocks, |blocks|, s.ci), acks := s.acks + AcksFor(blocks, results))
    case ByzCommit(blocks, responses) =>
      s.(bci := Highest(blocks, |blocks|, s.bci), byzAcks := s.byzAcks + ByzAcksFor(blocks, responses))
    case Rollback(n) =>
      var m := Clamp(n, s.bci);
      s.(ci := if s.ci > m then m else s.ci, lastN := m)
    case Checkpoint => if s.bci > 1 then s.(gcPoints := s.gcPoints + [s.bci - 1]) else s
  }

  ghost predicate LegalRun(es: seq<Event>)
    decreases |es|, 0
  {
    es == [] || (LegalRun(es[..|es| - 1]) && Legal(Run(es[..|es| - 1]), es[|es| - 1]))
  }

  ghost function Run(es: seq<Event>): State
    requires LegalRun(es)
    decreases |es|, 1
  {
    if es == [] then START else Step(Run(es[..|es| - 1]), es[|es| - 1])
  }

  /** All blocks crash-committed over a run, in order. */
  function Committed(es: seq<Event>): seq<Block> {
    if es == [] then []
    else Committed(es[..|es| - 1]) + if es[|es| - 1].CrashCommit? then es[|es| - 1].blocks else []
  }

  function ByzCommitted(es: seq<Event>): seq<Block> {
    if es == [] then []
    else ByzCommitted(es[..|es| - 1]) + if es[|es| - 1].ByzCommit? then es[|es| - 1].blocks else []
  }

  lemma {:induction false} HighestExact(blocks: seq<Block>, i: nat, start: nat)
    requires i <= |blocks|
    ensures var m := Highest(blocks, i, start);
            && m >= start && (forall k :: 0 <= k < i ==> blocks[k].n <= m)
            && (m == start || exists k :: 0 <= k < i && blocks[k].n == m)
    decreases i
  {
    if i > 0 {
      HighestExact(blocks, i - 1, start);
    }
  }

  /** An acknowledgement of block b: its hash, its number, one result per transaction. */
  predicate Acknowledges(p: (Digest, R.CrashAck), b: Block) {
    p.0 == Sha(b) && p.1.n == b.n && |p.1.results| == |b.txs|
  }

  predicate AcknowledgesByz(p: (Digest, R.ByzAck), b: Block) {
    p.0 == Sha(b) && p.1.n == b.n && |p.1.responses| == |b.txs|
  }

  /** The acknowledgements are those of the committed blocks, one by one; collection points are below the byzantine commit index. */
  ghost predicate Inv(s: State, committed: seq<Block>, byzCommitted: seq<Block>) {
    && |s.acks| == |committed| && (forall i :: 0 <= i < |committed| ==> Acknowledges(s.acks[i], committed[i]))
    && |s.byzAcks| == |byzCommitted| && (forall i :: 0 <= i < |byzCommitted| ==> AcknowledgesByz(s.byzAcks[i], byzCommitted[i]))
    && (forall g :: g in s.gcPoints ==> 1 <= g < s.bci)
  }

  /** The byzantine commit index only grows. */
  lemma {:induction false} StepKeeps(s: State, e: Event, committed: seq<Block>, byzCommitted: seq<Block>)
    requires Inv(s, committed, byzCommitted) && Legal(s, e)
    ensures Inv(Step(s, e), committed + (if e.CrashCommit? then e.blocks else []), byzCommitted + if e.ByzCommit? then e.blocks else [])
    ensures Step(s, e).bci >= s.bci
  {
    if e.CrashCommit? {
      HighestExact(e.blocks, |e.blocks|, s.ci);
    }
    if e.ByzCommit? {
      HighestExact(e.blocks, |e.blocks|, s.bci);
    }
  }

  /** After a rollback the last block and the commit index are where they were asked to be, or just past what is committed. */
  lemma RollbackExact(s: State, n: nat)
    ensures var t := Step(s, Rollback(n));
            && t.bci == s.bci < t.lastN && (t.lastN == n || n <= s.bci) && t.ci <= t.lastN && t.ci <= s.ci
            && (t.ci == s.ci || t.ci == t.lastN) && (s.bci <= s.ci ==> t.bci <= t.ci)
  {
  }

  /** Over every run. */
  lemma {:induction false} RunKeeps(es: seq<Event>)
    requires LegalRun(es)
    ensures Inv(Run(es), Committed(es), ByzCommitted(es))
  {
    hide Step, Legal, Inv;
    if es != [] {
      var before, e := es[..|es| - 1], es[|es| - 1];
      RunKeeps(before);
      StepKeeps(Run(before), e, Committed(before), ByzCommitted(before));
    } else {
      StartInv();
    }
  }

  // ---------------------------------------------------------------- indices from the history

  /** The last block is the one last announced, or where the last rollback left it. */
  ghost function LastBlock(es: seq<Event>): nat
    requires LegalRun(es)
    decreases |es|
  {
    if es == [] then 0
    else
      var before, e := es[..|es| - 1], es[|es| - 1];
      match e
      case NewRequestBatch(n) => n
      case Rollback(n) => if n > Run(before).bci then n else Run(before).bci + 1
      case _ => LastBlock(before)
  }

  /** The byzantine commit index is the highest number byzantine-committed so far; collection is announced one below it. */
  lemma {:induction false} IndicesFromHistory(es: seq<Event>)
    requires LegalRun(es)
    ensures Run(es).lastN == LastBlock(es)
    ensures forall b :: b in ByzCommitted(es) ==> b.n <= Run(es).bci
    ensures Run(es).bci == 0 || exists b :: b in ByzCommitted(es) && b.n == Run(es).bci
  {
    if es != [] {
      var before, e := es[..|es| - 1], es[|es| - 1];
      IndicesFromHistory(before);
      if e.ByzCommit? {
        HighestExact(e.blocks, |e.blocks|, Run(before).bci);
        if Run(es).bci != Run(before).bci {
          var k :| 0 <= k < |e.blocks| && e.blocks[k].n == Run(es).bci;
          assert e.blocks[k] in ByzCommitted(es);
        }
      }
      if Run(es).bci == Run(before).bci != 0 {
        var b :| b in ByzCommitted(before) && b.n == Run(before).bci;
        assert b in ByzCommitted(es);
      }
    }
  }

  ghost predicate Raised(before: nat, after: nat, blocks: seq<Block>) {
    && after >= before && (forall b :: b in blocks ==> b.n <= after)
    && (after == before || exists b :: b in blocks && b.n == after)
  }

  /** Each index is raised by commits of its own kind, to the highest number committed, and by nothing else. */
  lemma {:induction false} IndicesRaised(s: State, e: Event)
    requires Legal(s, e)
    ensures Raised(s.ci, Step(s, e).ci, if e.CrashCommit? then e.blocks else []) || e.Rollback?
    ensures Raised(s.bci, Step(s, e).bci, if e.ByzCommit? then e.blocks else [])
  {
    if e.CrashCommit? {
      HighestExact(e.blocks, |e.blocks|, s.ci);
    }
    if e.ByzCommit? {
      HighestExact(e.blocks, |e.blocks|, s.bci);
    }
  }

  // ---------------------------------------------------------------- the order of the two indices

  /** A byzantine commit of blocks that are crash-committed at that moment. */
  predicate Follows(s: State, e: Event) {
    e.ByzCommit? ==> forall b :: b in e.blocks ==> b.n <= s.ci
  }

  ghost predicate AllFollow(es: seq<Event>)
    requires LegalRun(es)
  {
    es == [] || (AllFollow(es[..|es| - 1]) && Follows(Run(es[..|es| - 1]), es[|es| - 1]))
  }

  /** At no time is the byzantine commit index past the commit index. */
  ghost predicate InOrder(es: seq<Event>)
    requires LegalRun(es)
  {
    Run(es).bci <= Run(es).ci && (es == [] || InOrder(es[..|es| - 1]))
  }

  lemma {:induction false} StepInOrderIff(s: State, e: Event)
    requires s.bci <= s.ci && Legal(s, e)
    ensures Step(s, e).bci <= Step(s, e).ci <==> Follows(s, e)
  {
    if e.CrashCommit? {
      HighestExact(e.blocks, |e.blocks|, s.ci);
    }
    if e.ByzCommit? {
      HighestExact(e.blocks, |e.blocks|, s.bci);
    }
  }

  /** The indices are in order throughout a run exactly when each byzantine commit is of crash-committed blocks. */
  lemma {:induction false} InOrderIff(es: seq<Event>)
    requires LegalRun(es)
    ensures InOrder(es) <==> AllFollow(es)
  {
    hide Step, Legal, Follows;
    if es != [] {
      var before := es[..|es| - 1];
      InOrderIff(before);
      if InOrder(before) {
        StepInOrderIff(Run(before), es[|es| - 1]);
      }
    }
  }

  /**
   * A follower gets a fork of several blocks whose later ones certify the first: that one is byzantine-committed before the
   * crash commit, which no longer finds it. Its commit index lags, and it is never acknowledged as committed.
   */
  lemma {:induction false} ForkOvertakesCommit(b: Block, later: seq<Block>, results: seq<seq<R.Result>>, responses: seq<R.ByzResponse>)
    requires b.n >= 1 && |responses| == |b.txs| && OneEach(later, results) && b !in later
    ensures var byz, crash := ByzCommit([b], [responses]), CrashCommit(later, results);
            && LegalRun([byz]) && Run([byz]).bci > Run([byz]).ci
            && LegalRun([byz, crash]) && b in ByzCommitted([byz, crash])
            && forall p :: p in Run([byz, crash]).acks ==> p.0 != Sha(b)
  {
    var byz, crash := ByzCommit([b], [responses]), CrashCommit(later, results);
    assert [byz, crash] == [byz] + [crash] && [byz] == [] + [byz];
    RunSnoc([], byz);
    HighestExact([b], 1, 0);
    RunSnoc([byz], crash);
  }

  lemma {:induction false} RunSnoc(es: seq<Event>, e: Event)
    requires LegalRun(es) && Legal(Run(es), e)
    ensures LegalRun(es + [e]) && Run(es + [e]) == Step(Run(es), e)
    ensures ByzCommitted(es + [e]) == ByzCommitted(es) + if e.ByzCommit? then e.blocks else []
  {
    assert (es + [e])[..|es|] == es;
  }

  lemma StartInv()
    ensures Inv(START, [], [])
  {
  }

  /** Only committed blocks are acknowledged, each with its number and one result per transaction. */
  lemma {:induction false} AcksNameCommitted(es: seq<Event>)
    requires LegalRun(es)
    ensures forall p :: p in Run(es).acks ==> p.0.Sha? && Acknowledges(p, p.0.of) && p.0.of in Committed(es)
    ensures forall p :: p in Run(es).byzAcks ==> p.0.Sha? && AcknowledgesByz(p, p.0.of) && p.0.of in ByzCommitted(es)
  {
    RunKeeps(es);
    var s := Run(es);
    forall p | p in s.acks ensures p.0.Sha? && Acknowledges(p, p.0.of) && p.0.of in Committed(es) {
      var i :| 0 <= i < |s.acks| && s.acks[i] == p;
      assert Acknowledges(s.acks[i], Committed(es)[i]);
    }
    forall p | p in s.byzAcks ensures p.0.Sha? && AcknowledgesByz(p, p.0.of) && p.0.of in ByzCommitted(es) {
      var i :| 0 <= i < |s.byzAcks| && s.byzAcks[i] == p;
      assert AcknowledgesByz(s.byzAcks[i], ByzCommitted(es)[i]);
    }
  }

  // ---------------------------------------------------------------- what the engine returned

  /** Event k committed b as its block i, and this is what the engine returned for it. */
  predicate Returned(es: seq<Event>, k: nat, i: nat, b: Block, results: seq<R.Result>) {
    k < |es| && es[k].CrashCommit? && i < |es[k].blocks| == |es[k].results| && es[k].blocks[i] == b && es[k].results[i] == results
  }

  predicate ByzReturned(es: seq<Event>, k: nat, i: nat, b: Block, responses: seq<R.ByzResponse>) {
    k < |es| && es[k].ByzCommit? && i < |es[k].blocks| == |es[k].responses| && es[k].blocks[i] == b && es[k].responses[i] == responses
  }

  /** An acknowledgement carries the list that the engine returned for its block, as it was. */
  lemma {:induction false} AckCarriesResults(es: seq<Event>, p: (Digest, R.CrashAck)) returns (k: nat, i: nat, b: Block)
    requires LegalRun(es) && p in Run(es).acks
    ensures Returned(es, k, i, b, p.1.results) && p.0 == Sha(b) && p.1.n == b.n
  {
    var before, e := es[..|es| - 1], es[|es| - 1];
    if p in Run(before).acks {
      k, i, b := AckCarriesResults(before, p);
    } else {
      k, i :| k == |es| - 1 && 0 <= i < |e.blocks| && AcksFor(e.blocks, e.results)[i] == p;
      b := e.blocks[i];
    }
  }

  lemma {:induction false} ByzAckCarriesResponses(es: seq<Event>, p: (Digest, R.ByzAck)) returns (k: nat, i: nat, b: Block)
    requires LegalRun(es) && p in Run(es).byzAcks
    ensures ByzReturned(es, k, i, b, p.1.responses) && p.0 == Sha(b) && p.1.n == b.n
  {
    var before, e := es[..|es| - 1], es[|es| - 1];
    if p in Run(before).byzAcks {
      k, i, b := ByzAckCarriesResponses(before, p);
    } else {
      k, i :| k == |es| - 1 && 0 <= i < |e.blocks| && ByzAcksFor(e.blocks, e.responses)[i] == p;
      b := e.blocks[i];
    }
  }

  /** And whatever the engine returned is acknowledged. */
  lemma {:induction false} ResultsAreAcked(es: seq<Event>, k: nat, i: nat)
    requires LegalRun(es) && k < |es|
    ensures es[k].CrashCommit? && i < |es[k].blocks| ==>
              |es[k].results| == |es[k].blocks|
              && (Sha(es[k].blocks[i]), R.CrashAck(es[k].blocks[i].n, es[k].results[i])) in Run(es).acks
    ensures es[k].ByzCommit? && i < |es[k].blocks| ==>
              |es[k].responses| == |es[k].blocks|
              && (Sha(es[k].blocks[i]), R.ByzAck(es[k].blocks[i].n, es[k].responses[i])) in Run(es).byzAcks
    decreases |es|
  {
    var before, e := es[..|es| - 1], es[|es| - 1];
    if k < |before| {
      ResultsAreAcked(before, k, i);
    } else {
      if e.CrashCommit? && i < |e.blocks| {
        assert AcksFor(e.blocks, e.results)[i] in Run(es).acks;
      }
      if e.ByzCommit? && i < |e.blocks| {
        assert ByzAcksFor(e.blocks, e.responses)[i] in Run(es).byzAcks;
      }
    }
  }

  /** And every committed block is. */
  lemma {:induction false} AcksAreExact(es: seq<Event>, b: Block)
    requires LegalRun(es)
    ensures b in Committed(es) <==> exists p :: p in Run(es).acks && Acknowledges(p, b)
    ensures b in ByzCommitted(es) <==> exists p :: p in Run(es).byzAcks && AcknowledgesByz(p, b)
  {
    AcksNameCommitted(es);
    RunKeeps(es);
    var s := Run(es);
    if b in Committed(es) {
      var i :| 0 <= i < |Committed(es)| && Committed(es)[i] == b;
      assert s.acks[i] in s.acks && Acknowledges(s.acks[i], b);
    }
    if b in ByzCommitted(es) {
      var i :| 0 <= i < |ByzCommitted(es)| && ByzCommitted(es)[i] == b;
      assert s.byzAcks[i] in s.byzAcks && AcknowledgesByz(s.byzAcks[i], b);
    }
  }

  class Application {
    var ci: nat
    var bci: nat
    var lastN: nat
    var acks: seq<(Digest, R.CrashAck)>
    var byzAcks: seq<(Digest, R.ByzAck)>
    var gcPoints: seq<nat>

    ghost function Abstract(): State
      reads this
    {
      State(ci, bci, lastN, acks, byzAcks, gcPoints)
    }

    constructor ()
      ensures Abstract() == START
    {
      ci, bci, lastN, acks, byzAcks, gcPoints := 0, 0, 0, [], [], [];
    }

    method RaiseTo(start: nat, blocks: seq<Block>) returns (m: nat)
      ensures m == Highest(blocks, |blocks|, start)
    {
      m := start;
      for i := 0 to |blocks|
        invariant m == Highest(blocks, i, start)
      {
        if m < blocks[i].n {
          m := blocks[i].n;
        }
      }
    }

    method Handle(e: Event)
      requires AnswersAll(e)
      modifies this
      ensures Abstract() == Step(old(Abstract()), e)
    {
      match e {
        case NewRequestBatch(n) => lastN := n;
        case CrashCommit(blocks, results) =>
          ci := RaiseTo(ci, blocks);
          var added: seq<(Digest, R.CrashAck)> := [];
          for i := 0 to |blocks|
            invariant |added| == i && added == AcksFor(blocks, results)[..i]
            invariant Abstract() == old(Abstract()).(ci := Highest(blocks, |blocks|, old(ci)))
          {
            added := added + [(Sha(blocks[i]), R.CrashAck(blocks[i].n, results[i]))];
          }
          acks := acks + added;
        case ByzCommit(blocks, responses) =>
          bci := RaiseTo(bci, blocks);
          var added: seq<(Digest, R.ByzAck)> := [];
          for i := 0 to |blocks|
            invariant |added| == i && added == ByzAcksFor(blocks, responses)[..i]
            invariant Abstract() == old(Abstract()).(bci := Highest(blocks, |blocks|, old(bci)))
          {
            added := added + [(Sha(blocks[i]), R.ByzAck(blocks[i].n, responses[i]))];
          }
          byzAcks := byzAcks + added;
        case Rollback(n) =>
          var last := n;
          if last <= bci {
            last := bci + 1;
          }
          if ci > last {
            ci := last;
          }
          lastN := last;
        case Checkpoint =>
          if bci > 1 {
            gcPoints := gcPoints + [bci - 1];
          }
      }
    }
  }
}
