/**
 * The exchange between a fork receiver and the log server of a leader: every nack is answered by a longer fork, until one
 * passes all of the receiver's tests, those on its prefix and those on the order of its views.
 */
module NackExchange {
  import opened Basics
  import opened Chain
  import opened Backfill
  import opened ForkReceivers
  import opened Leaders

  /** Views do not go down along the chain, and each opens with an unstable block. */
  ghost predicate ViewsOpenUnstable(c: seq<Block>) {
    && (forall i, j :: 0 <= i < j < |c| ==> c[i].view <= c[j].view)
    && (forall i :: 0 <= i < |c| ==> OpensView(c, i) ==> !c[i].viewIsStable)
  }

  predicate OpensView(c: seq<Block>, i: nat)
    requires i < |c|
  {
    i == 0 || c[i - 1].view < c[i].view
  }

  /** Whoever has a block in the log has reached its view. */
  ghost predicate NotAhead(log: seq<Block>, view: nat) {
    forall i :: 0 <= i < |log| ==> log[i].view <= view
  }

  predicate TestsPassed(s: State, ae: AppendEntries, log: seq<Block>) {
    CommonPrefix(s, ae.fork, log) && ViewsInOrder(s, ae)
  }

  /** What the leader's log server, with chain c, makes out for a nack. */
  function AnswerTo(nack: Out, c: seq<Block>, last: nat): seq<Block>
    requires nack.Nack?
  {
    FillDown(c, nack.needed, last, HintMap(nack.hints))
  }

  /**
   * As long as the receiver nacks, the leader sends the same message again with the fork that its log server makes out for
   * that nack. Returned are the receiver's state and the message when that ends.
   */
  function Exchange(nodes: seq<Node>, s: State, ae: AppendEntries, sender: Node, log: seq<Block>, c: seq<Block>, last: nat): (State, AppendEntries)
    requires nodes != [] && s.buffer == [] && ae.fork != [] && FromLeader(nodes, s, ae, sender)
    decreases ae.fork[0].n
  {
    if TestsPassed(s, ae, log) then (s, ae)
    else
      var t := Process(nodes, s, ae, sender, log, true);
      var answer := AnswerTo(t.out[|s.out|], c, last);
      if answer == [] || answer[0].n >= ae.fork[0].n then (s, ae)
      else Exchange(nodes, t, ae.(fork := answer), sender, log, c, last)
  }

  lemma {:induction false} OpeningsInFork(log: seq<Block>, c: seq<Block>, k: nat, last: nat, v: nat, j: nat)
    requires ViewsOpenUnstable(c) && NotAhead(log, v) && 1 <= k <= last <= |c| && AgreeAt(log, c, k - 1)
    requires j < last - k + 1 && RaisesView(c[k - 1..last], v, j)
    ensures !c[k - 1..last][j].viewIsStable
  {
    var fork, i := c[k - 1..last], k - 1 + j;
    assert fork[j] == c[i];
    if i > 0 {
      if j > 0 {
        assert fork[j - 1] == c[i - 1];
      } else {
        assert log[k - 2] == c[i - 1];
      }
    }
    assert OpensView(c, i);
  }

  /** A fork of the leader's chain has a common prefix exactly when the chains agree just below it, or nothing of it is remembered. */
  lemma {:induction false} SegmentFollowsIff(s: State, log: seq<Block>, c: seq<Block>, k: nat, last: nat)
    requires Linked(log) && Linked(c) && 1 <= k <= last <= |c| && last <= TWO_64
    ensures Follows(log, c[k - 1]) <==> AgreeAt(log, c, k - 1)
    ensures CommonPrefix(s, c[k - 1..last], log) <==> s.lastHash == Some(c[k - 1].parent) || AgreeAt(log, c, k - 1)
  {
    hide Linked;
    NumberAt(c, k - 1);
    ParentKnownIffAgree(log, c, k);
    CommonPrefixIff(s, c[k - 1..last], log);
  }

  /** A fork that starts where the two chains agree passes both tests, and with nothing remembered no other one does. */
  lemma {:induction false} AgreedForkPasses(s: State, ae: AppendEntries, log: seq<Block>, c: seq<Block>, k: nat, last: nat)
    requires Linked(log) && Linked(c) && ViewsOpenUnstable(c) && NotAhead(log, s.view)
    requires 1 <= k <= last <= |c| && last <= TWO_64 && ae.fork == c[k - 1..last]
    requires ae.view <= s.view || ae.view <= c[last - 1].view
    ensures AgreeAt(log, c, k - 1) ==> TestsPassed(s, ae, log)
    ensures TestsPassed(s, ae, log) && s.lastHash == None ==> AgreeAt(log, c, k - 1)
  {
    hide Linked, ViewsOpenUnstable, NotAhead, RaisesView, Follows;
    var fork := ae.fork;
    SegmentFollowsIff(s, log, c, k, last);
    if AgreeAt(log, c, k - 1) {
      forall j | 0 <= j < |fork| && RaisesView(fork, s.view, j) ensures !fork[j].viewIsStable {
        OpeningsInFork(log, c, k, last, s.view, j);
      }
      assert fork[|fork| - 1] == c[last - 1];
      WalkExact(fork, |fork|, s.view);
      assert WalkTo(fork, |fork|, s.view).value >= fork[|fork| - 1].view;
    }
  }

  lemma NumberAt(c: seq<Block>, i: nat)
    requires Linked(c) && i < |c|
    ensures c[i].n == i + 1
  {
  }

  ghost predicate OnlyNacks(out: seq<Out>) {
    forall i :: 0 <= i < |out| ==> out[i].Nack?
  }

  /** What the exchange leaves: a fork of the leader's chain that passes, after at most the given number of nacks. */
  ghost predicate Settled(s: State, t: State, ae: AppendEntries, msg: AppendEntries, log: seq<Block>, c: seq<Block>, f: nat, last: nat, nacks: nat) {
    && s.out <= t.out && |t.out| - |s.out| <= nacks && OnlyNacks(t.out[|s.out|..]) && t == s.(waiting := t.waiting, out := t.out)
    && msg.fork != [] && 1 <= msg.fork[0].n <= f <= last <= |c| && msg == ae.(fork := c[msg.fork[0].n - 1..last]) && TestsPassed(t, msg, log)
  }

  lemma {:induction false} OneNackMore(nodes: seq<Node>, s: State, ae: AppendEntries, sender: Node, log: seq<Block>, c: seq<Block>, last: nat)
    requires nodes != [] && s.buffer == [] && ae.fork != [] && FromLeader(nodes, s, ae, sender) && !TestsPassed(s, ae, log)
    ensures var u := Process(nodes, s, ae, sender, log, true);
            && u == s.(waiting := u.waiting, out := u.out) && |u.out| == |s.out| + 1 && s.out <= u.out
            && u.out[|s.out|].Nack? && u.out[|s.out|].to == sender
            && AnswerTo(u.out[|s.out|], c, last) == BackfillFork(log, c, NackNeeded(ae.fork[0].n), last)
  {
    hide WalkTo, Split, Hints, FillDown, HintMap, NackNeeded;
  }

  lemma {:induction false} SettledLater(s: State, u: State, t: State, ae: AppendEntries, msg: AppendEntries, log: seq<Block>, c: seq<Block>,
                                        k: nat, f: nat, last: nat, nacks: nat, answer: seq<Block>)
    requires u == s.(waiting := u.waiting, out := u.out) && |u.out| == |s.out| + 1 && s.out <= u.out && u.out[|s.out|].Nack?
    requires Settled(u, t, ae.(fork := answer), msg, log, c, k, last, nacks) && k <= f <= last
    ensures Settled(s, t, ae, msg, log, c, f, last, nacks + 1)
  {
    hide TestsPassed;
    forall i | 0 <= i < |t.out| - |s.out| ensures t.out[|s.out|..][i].Nack? {
      if i > 0 {
        assert t.out[|s.out|..][i] == t.out[|u.out|..][i - 1];
      } else {
        assert t.out[|s.out|] == u.out[|s.out|];
      }
    }
  }

  /**
   * From any message of the leader with blocks f..last of its chain: within f / 100 + 1 nacks the receiver holds a fork of
   * that chain, ending at the same block, which passes the tests on its prefix and on the order of its views.
   */
  lemma {:induction false} ExchangeSettles(nodes: seq<Node>, s: State, ae: AppendEntries, sender: Node, log: seq<Block>, c: seq<Block>, f: nat, last: nat)
    requires Linked(log) && Linked(c) && ViewsOpenUnstable(c) && NotAhead(log, s.view)
    requires nodes != [] && s.buffer == [] && FromLeader(nodes, s, ae, sender)
    requires 1 <= f <= last <= |c| && last <= TWO_64 && ae.fork == c[f - 1..last] && (ae.view <= s.view || ae.view <= c[last - 1].view)
    ensures var (t, msg) := Exchange(nodes, s, ae, sender, log, c, last); Settled(s, t, ae, msg, log, c, f, last, (f + 99) / 100)
    decreases f
  {
    hide Linked, ViewsOpenUnstable, NotAhead, BackfillFork, TestsPassed, Process, NackNeeded, CheckHash, LeaderOf, Settled, AnswerTo;
    assert ae.fork[0] == c[f - 1];
    NumberAt(c, f - 1);
    if AgreeAt(log, c, f - 1) {
      AgreedForkPasses(s, ae, log, c, f, last);
    }
    if TestsPassed(s, ae, log) {
      SettledAtOnce(s, ae, log, c, f, last, (f + 99) / 100);
    } else {
      var answer, u := BackfillFork(log, c, NackNeeded(f), last), Process(nodes, s, ae, sender, log, true);
      AnswerIsSegment(log, c, f, last);
      OneNackMore(nodes, s, ae, sender, log, c, last);
      var k, next := answer[0].n, ae.(fork := answer);
      var (t, msg) := Exchange(nodes, u, next, sender, log, c, last);
      if AgreeAt(log, c, k - 1) {
        AgreedForkPasses(u, next, log, c, k, last);
        SettledAtOnce(u, next, log, c, k, last, 0);
        SettledLater(s, u, t, ae, msg, log, c, k, f, last, 0, answer);
        SettledMore(s, t, ae, msg, log, c, f, last, 1, (f + 99) / 100);
      } else {
        ExchangeSettles(nodes, u, next, sender, log, c, k, last);
        SettledLater(s, u, t, ae, msg, log, c, k, f, last, (k + 99) / 100, answer);
      }
    }
  }

  lemma SettledAtOnce(s: State, ae: AppendEntries, log: seq<Block>, c: seq<Block>, f: nat, last: nat, nacks: nat)
    requires Linked(c) && 1 <= f <= last <= |c| && ae.fork == c[f - 1..last] && TestsPassed(s, ae, log)
    ensures Settled(s, s, ae, ae, log, c, f, last, nacks)
  {
  }

  lemma SettledMore(s: State, t: State, ae: AppendEntries, msg: AppendEntries, log: seq<Block>, c: seq<Block>, f: nat, last: nat, m: nat, n: nat)
    requires Settled(s, t, ae, msg, log, c, f, last, m) && m <= n
    ensures Settled(s, t, ae, msg, log, c, f, last, n)
  {
  }

  /** The answer to a nack is a longer fork of the leader's chain; it starts where the chains agree, or a hundred blocks earlier. */
  lemma {:induction false} AnswerIsSegment(log: seq<Block>, c: seq<Block>, f: nat, last: nat)
    requires Linked(log) && Linked(c) && 1 <= f <= last <= |c| && !AgreeAt(log, c, f - 1)
    ensures var answer := BackfillFork(log, c, NackNeeded(f), last);
            && answer != [] && 1 <= answer[0].n < f && answer == c[answer[0].n - 1..last]
            && (AgreeAt(log, c, answer[0].n - 1) || answer[0].n == f - 100)
  {
    hide BackfillFork, Linked;
    NackAnswer(log, c, f, last);
    BackfillExact(log, c, NackNeeded(f), last);
    ParentKnownIffAgree(log, c, BackfillFork(log, c, NackNeeded(f), last)[0].n);
  }

  /** What the exchange ends with is passed on, unless a stable block of it opens a configuration. */
  lemma {:induction false} ExchangePassedOn(nodes: seq<Node>, s: State, ae: AppendEntries, sender: Node, log: seq<Block>, c: seq<Block>, f: nat, last: nat, valid: bool)
    requires Linked(log) && Linked(c) && ViewsOpenUnstable(c) && NotAhead(log, s.view)
    requires nodes != [] && s.buffer == [] && FromLeader(nodes, s, ae, sender)
    requires 1 <= f <= last <= |c| && last <= TWO_64 && ae.fork == c[f - 1..last] && (ae.view <= s.view || ae.view <= c[last - 1].view)
    ensures var (t, msg) := Exchange(nodes, s, ae, sender, log, c, last);
            && t.buffer == [] && CanProcess(nodes, t, msg, sender, log)
            && ((exists part, k :: Process(nodes, t, msg, sender, log, valid).out == t.out + [Forward(part, k)])
                <==> forall i :: 0 <= i < |msg.fork| && OpensConfig(msg.fork, s.configNum, i) ==> !msg.fork[i].viewIsStable)
  {
    hide Exchange, Linked, ViewsOpenUnstable, NotAhead, Process, Split, CommonPrefix;
    var (t, msg) := Exchange(nodes, s, ae, sender, log, c, last);
    ExchangeSettles(nodes, s, ae, sender, log, c, f, last);
    WalkReaches(t, msg);
    CommonPrefixIff(t, msg.fork, log);
    PassedOnIffAcceptable(nodes, t, msg, sender, log, valid);
  }
}
