/** The pacemaker: view-change messages are collected per view until a quorum opens the view. */
module Pacemakers {
  import opened Basics
  import opened Chain
  import opened Leaders
  import opened Quorums

  /** `first` is the number and the parent hash of the first block of the fork that comes with the message, if any. */
  datatype ViewChange = ViewChange(view: nat, config: nat, first: Option<(nat, Digest)>, id: nat)

  /** An authenticated peer: its name, and a sub id of its own choice. */
  datatype Sender = Sender(name: Node, subId: nat)

  type Votes = map<Sender, ViewChange>

  datatype Out = UpdateView(view: nat, config: nat) | NewViewForks(view: nat, config: nat, votes: Votes) | Nack(to: Sender, vc: ViewChange)

  datatype Config = Config(n: nat, u: nat, me: Node)

  predicate Ok(cfg: Config) {
    ValidConfig(cfg.n, cfg.u)
  }

  function ViewUpdateThreshold(cfg: Config): (t: nat)
    requires Ok(cfg)
    ensures t >= 1
  {
    cfg.n - 2 * cfg.u
  }

  function NewViewThreshold(cfg: Config): (t: nat)
    requires Ok(cfg)
    ensures t >= ViewUpdateThreshold(cfg)
  {
    cfg.n - cfg.u
  }

  datatype State = State(
    viewNum: nat, configNum: nat, lastNotified: nat, lastNewViewed: nat, bci: nat,
    buffer: map<(nat, nat), Votes>, out: seq<Out>)

  const START := State(0, 0, 0, 0, 0, map[], [])

  /** `log` is the chain the log server answers from when it is asked. */
  datatype Event =
    | Received(vc: ViewChange, sender: Sender, log: seq<Block>)
    | MyViewJumped(view: nat, config: nat, vc: ViewChange, log: seq<Block>)
    | UpdateBci(bci: nat)

  function ForkParent(vc: ViewChange): (nat, Digest) {
    if vc.first.Some? then (WrapSub(vc.first.value.0, 1), vc.first.value.1) else (0, Raw(0))
  }

  function VotesFor(s: State, key: (nat, nat)): Votes {
    if key in s.buffer then s.buffer[key] else map[]
  }

  predicate Stale(s: State, vc: ViewChange) {
    vc.view < s.viewNum || vc.config < s.configNum || s.lastNewViewed >= vc.view
  }

  function Notify(cfg: Config, s: State, vc: ViewChange, votes: nat): State
    requires Ok(cfg)
  {
    if votes >= ViewUpdateThreshold(cfg) && vc.view > s.lastNotified
    then s.(out := s.out + [UpdateView(vc.view, vc.config)], lastNotified := vc.view)
    else s
  }

  function OpenView(cfg: Config, s: State, vc: ViewChange): State
    requires Ok(cfg) && (vc.view, vc.config) in s.buffer
  {
    var key := (vc.view, vc.config);
    if |s.buffer[key]| >= NewViewThreshold(cfg) && vc.view > s.lastNewViewed
    then s.(buffer := s.buffer - {key}, out := s.out + [NewViewForks(vc.view, vc.config, s.buffer[key])], lastNewViewed := vc.view)
    else s
  }

  function Handle(cfg: Config, s: State, vc: ViewChange, sender: Sender, log: seq<Block>): State
    requires Ok(cfg)
  {
    var parent := ForkParent(vc);
    if Stale(s, vc) then s
    else if !CheckHash(log, parent.0, parent.1) then
      if parent.0 <= s.bci then s else s.(out := s.out + [Nack(sender, vc)])
    else
      var key := (vc.view, vc.config);
      var votes := VotesFor(s, key)[sender := vc];
      OpenView(cfg, Notify(cfg, s.(buffer := s.buffer[key := votes]), vc, |votes|), vc)
  }

  function Retain(s: State, view: nat, config: nat): State {
    s.(buffer := map k | k in s.buffer && k.0 >= view && k.1 >= config :: s.buffer[k])
  }

  function Step(cfg: Config, s: State, e: Event): State
    requires Ok(cfg)
  {
    match e
    case Received(vc, sender, log) => Handle(cfg, s, vc, sender, log)
    case MyViewJumped(view, config, vc, log) => Handle(cfg, Retain(s, view, config), vc, Sender(cfg.me, 0), log)
    case UpdateBci(bci) => s.(bci := bci)
  }

  function Run(cfg: Config, es: seq<Event>): State
    requires Ok(cfg)
  {
    if es == [] then START else Step(cfg, Run(cfg, es[..|es| - 1]), es[|es| - 1])
  }

  /** The answer to "are there enough view-change messages?". */
  predicate EnoughVcs(cfg: Config, s: State, view: nat, config: nat)
    requires Ok(cfg)
  {
    s.lastNewViewed >= view || |VotesFor(s, (view, config))| >= NewViewThreshold(cfg)
  }

  // ---------------------------------------------------------------- what holds in every run

  /** The messages of a run with their senders. */
  function Heard(cfg: Config, es: seq<Event>): set<(Sender, ViewChange)> {
    if es == [] then {}
    else
      var e := es[|es| - 1];
      Heard(cfg, es[..|es| - 1])
      + match e
        case Received(vc, sender, _) => {(sender, vc)}
        case MyViewJumped(_, _, vc, _) => {(Sender(cfg.me, 0), vc)}
        case UpdateBci(_) => {}
  }

  /** Each vote is a message for that view and configuration, heard from that sender. */
  ghost predicate Genuine(votes: Votes, view: nat, config: nat, heard: set<(Sender, ViewChange)>) {
    forall x :: x in votes ==> votes[x].view == view && votes[x].config == config && (x, votes[x]) in heard
  }

  ghost predicate Buffered(cfg: Config, s: State, heard: set<(Sender, ViewChange)>)
    requires Ok(cfg)
  {
    forall k :: k in s.buffer ==> |s.buffer[k]| < NewViewThreshold(cfg) && Genuine(s.buffer[k], k.0, k.1, heard)
  }

  ghost predicate UpdatesIncrease(out: seq<Out>) {
    forall i, j :: 0 <= i < j < |out| && out[i].UpdateView? && out[j].UpdateView? ==> out[i].view < out[j].view
  }

  ghost predicate OpeningsIncrease(out: seq<Out>) {
    forall i, j :: 0 <= i < j < |out| && out[i].NewViewForks? && out[j].NewViewForks? ==> out[i].view < out[j].view
  }

  ghost predicate Announced(out: seq<Out>, j: nat)
    requires j < |out| && out[j].NewViewForks?
  {
    exists i :: 0 <= i < j && out[i].UpdateView? && out[i].view >= out[j].view
  }

  ghost predicate OpeningOk(cfg: Config, out: seq<Out>, j: nat, heard: set<(Sender, ViewChange)>)
    requires Ok(cfg) && j < |out| && out[j].NewViewForks?
  {
    |out[j].votes| == NewViewThreshold(cfg) && Announced(out, j) && Genuine(out[j].votes, out[j].view, out[j].config, heard)
  }

  ghost predicate History(cfg: Config, s: State, heard: set<(Sender, ViewChange)>)
    requires Ok(cfg)
  {
    && UpdatesIncrease(s.out) && OpeningsIncrease(s.out)
    && (forall i :: 0 <= i < |s.out| && s.out[i].UpdateView? ==> s.out[i].view <= s.lastNotified)
    && (forall i :: 0 <= i < |s.out| && s.out[i].NewViewForks? ==> s.out[i].view <= s.lastNewViewed)
    && (s.lastNotified > 0 ==> exists i :: 0 <= i < |s.out| && s.out[i].UpdateView? && s.out[i].view == s.lastNotified)
    && s.lastNewViewed <= s.lastNotified
    && (forall j :: 0 <= j < |s.out| && s.out[j].NewViewForks? ==> OpeningOk(cfg, s.out, j, heard))
  }

  ghost predicate Inv(cfg: Config, s: State, heard: set<(Sender, ViewChange)>)
    requires Ok(cfg)
  {
    Buffered(cfg, s, heard) && History(cfg, s, heard)
  }

  lemma {:induction false} HeardMore(cfg: Config, s: State, heard: set<(Sender, ViewChange)>, more: set<(Sender, ViewChange)>)
    requires Ok(cfg) && Inv(cfg, s, heard) && heard <= more
    ensures Inv(cfg, s, more)
  {
    forall j | 0 <= j < |s.out| && s.out[j].NewViewForks? ensures OpeningOk(cfg, s.out, j, more) {
      assert OpeningOk(cfg, s.out, j, heard);
    }
  }

  /** Sending one more thing leaves the earlier openings as they were. */
  lemma {:induction false} AppendKeeps(cfg: Config, s: State, heard: set<(Sender, ViewChange)>, out: seq<Out>, o: Out)
    requires Ok(cfg) && out == s.out + [o]
    requires forall j :: 0 <= j < |s.out| && s.out[j].NewViewForks? ==> OpeningOk(cfg, s.out, j, heard)
    ensures forall j :: 0 <= j < |s.out| && out[j].NewViewForks? ==> OpeningOk(cfg, out, j, heard)
  {
    forall j | 0 <= j < |s.out| && out[j].NewViewForks? ensures OpeningOk(cfg, out, j, heard) {
      assert out[j] == s.out[j] && OpeningOk(cfg, s.out, j, heard);
      var i :| 0 <= i < j && s.out[i].UpdateView? && s.out[i].view >= s.out[j].view;
      assert out[i] == s.out[i];
    }
  }

  lemma {:induction false} NackKeeps(cfg: Config, s: State, heard: set<(Sender, ViewChange)>, to: Sender, vc: ViewChange)
    requires Ok(cfg) && Inv(cfg, s, heard)
    ensures Inv(cfg, s.(out := s.out + [Nack(to, vc)]), heard)
  {
    hide OpeningOk, Genuine;
    var t := s.(out := s.out + [Nack(to, vc)]);
    AppendKeeps(cfg, s, heard, t.out, Nack(to, vc));
    if s.lastNotified > 0 {
      var i :| 0 <= i < |s.out| && s.out[i].UpdateView? && s.out[i].view == s.lastNotified;
      assert t.out[i] == s.out[i];
    }
  }

  lemma {:induction false} NotifyKeeps(cfg: Config, s: State, heard: set<(Sender, ViewChange)>, vc: ViewChange, votes: nat)
    requires Ok(cfg) && History(cfg, s, heard)
    ensures History(cfg, Notify(cfg, s, vc, votes), heard)
    ensures votes >= ViewUpdateThreshold(cfg) ==> Notify(cfg, s, vc, votes).lastNotified >= vc.view
  {
    hide OpeningOk, Genuine;
    var t := Notify(cfg, s, vc, votes);
    if t != s {
      AppendKeeps(cfg, s, heard, t.out, UpdateView(vc.view, vc.config));
      assert t.out[|s.out|] == UpdateView(vc.view, vc.config);
    }
  }

  lemma {:induction false} OpenKeeps(cfg: Config, s: State, heard: set<(Sender, ViewChange)>, vc: ViewChange)
    requires Ok(cfg) && (vc.view, vc.config) in s.buffer && History(cfg, s, heard) && vc.view > s.lastNewViewed
    requires forall k :: k in s.buffer ==> Genuine(s.buffer[k], k.0, k.1, heard)
    requires forall k :: k in s.buffer && k != (vc.view, vc.config) ==> |s.buffer[k]| < NewViewThreshold(cfg)
    requires |s.buffer[(vc.view, vc.config)]| <= NewViewThreshold(cfg)
    requires |s.buffer[(vc.view, vc.config)]| >= ViewUpdateThreshold(cfg) ==> s.lastNotified >= vc.view
    ensures Inv(cfg, OpenView(cfg, s, vc), heard)
  {
    hide Genuine;
    var key := (vc.view, vc.config);
    var t := OpenView(cfg, s, vc);
    if t != s {
      var o := NewViewForks(vc.view, vc.config, s.buffer[key]);
      AppendKeeps(cfg, s, heard, t.out, o);
      var i :| 0 <= i < |s.out| && s.out[i].UpdateView? && s.out[i].view == s.lastNotified;
      assert t.out[i] == s.out[i];
      assert Announced(t.out, |s.out|);
      assert OpeningOk(cfg, t.out, |s.out|, heard);
    }
  }

  lemma {:induction false} HandleKeeps(cfg: Config, s: State, heard: set<(Sender, ViewChange)>, vc: ViewChange, sender: Sender, log: seq<Block>)
    requires Ok(cfg) && Inv(cfg, s, heard) && (sender, vc) in heard
    ensures Inv(cfg, Handle(cfg, s, vc, sender, log), heard)
  {
    hide History, Notify, OpenView;
    var parent := ForkParent(vc);
    if Stale(s, vc) {
    } else if !CheckHash(log, parent.0, parent.1) {
      NackKeeps(cfg, s, heard, sender, vc);
    } else {
      var key := (vc.view, vc.config);
      var oldVotes := VotesFor(s, key);
      var votes := oldVotes[sender := vc];
      assert |votes| <= |oldVotes| + 1 by {
        VotesGrow(oldVotes, sender, vc);
      }
      var s1 := s.(buffer := s.buffer[key := votes]);
      SameHistory(cfg, s, s1, heard);
      NotifyKeeps(cfg, s1, heard, vc, |votes|);
      NotifyFrame(cfg, s1, vc, |votes|);
      OpenKeeps(cfg, Notify(cfg, s1, vc, |votes|), heard, vc);
    }
  }

  lemma {:induction false} VotesGrow(votes: Votes, sender: Sender, vc: ViewChange)
    ensures |votes[sender := vc]| <= |votes| + 1
  {
    var more := votes[sender := vc];
    assert more.Keys == votes.Keys + {sender};
    assert |more.Keys| == |more| && |votes.Keys| == |votes|;
  }

  lemma SameHistory(cfg: Config, s: State, t: State, heard: set<(Sender, ViewChange)>)
    requires Ok(cfg) && History(cfg, s, heard)
    requires t.out == s.out && t.lastNotified == s.lastNotified && t.lastNewViewed == s.lastNewViewed
    ensures History(cfg, t, heard)
  {
  }

  lemma NotifyFrame(cfg: Config, s: State, vc: ViewChange, votes: nat)
    requires Ok(cfg)
    ensures var t := Notify(cfg, s, vc, votes); t.buffer == s.buffer && t.lastNewViewed == s.lastNewViewed
  {
  }

  /** In every run. */
  lemma {:induction false} RunKeeps(cfg: Config, es: seq<Event>)
    requires Ok(cfg)
    ensures Inv(cfg, Run(cfg, es), Heard(cfg, es))
  {
    if es != [] {
      hide Handle, History;
      var before, e := es[..|es| - 1], es[|es| - 1];
      var s := Run(cfg, before);
      RunKeeps(cfg, before);
      HeardMore(cfg, s, Heard(cfg, before), Heard(cfg, es));
      match e {
        case Received(vc, sender, log) => HandleKeeps(cfg, s, Heard(cfg, es), vc, sender, log);
        case MyViewJumped(view, config, vc, log) =>
          SameHistory(cfg, s, Retain(s, view, config), Heard(cfg, es));
          HandleKeeps(cfg, Retain(s, view, config), Heard(cfg, es), vc, Sender(cfg.me, 0), log);
        case UpdateBci(bci) => SameHistory(cfg, s, s.(bci := bci), Heard(cfg, es));
      }
    }
  }

  /**
   * Over every run: views are notified and opened in strictly increasing order; each opening carries exactly n - u
   * distinct senders, all heard from for that view, and an update to at least that view went out before it.
   */
  lemma {:induction false} OpeningsAreQuorums(cfg: Config, es: seq<Event>, j: nat)
    requires Ok(cfg) && j < |Run(cfg, es).out| && Run(cfg, es).out[j].NewViewForks?
    ensures UpdatesIncrease(Run(cfg, es).out) && OpeningsIncrease(Run(cfg, es).out)
    ensures Announced(Run(cfg, es).out, j)
    ensures var o := Run(cfg, es).out[j]; |o.votes.Keys| == cfg.n - cfg.u && Genuine(o.votes, o.view, o.config, Heard(cfg, es))
  {
    RunKeeps(cfg, es);
    assert OpeningOk(cfg, Run(cfg, es).out, j, Heard(cfg, es));
    assert |Run(cfg, es).out[j].votes.Keys| == |Run(cfg, es).out[j].votes|;
  }

  // ---------------------------------------------------------------- who backs an update

  /** The senders heard from for a view and configuration. */
  function Backers(heard: set<(Sender, ViewChange)>, view: nat, config: nat): set<Sender> {
    set p | p in heard && p.1.view == view && p.1.config == config :: p.0
  }

  lemma {:induction false} VotesAreBackers(votes: Votes, view: nat, config: nat, heard: set<(Sender, ViewChange)>)
    requires Genuine(votes, view, config, heard)
    ensures |votes| <= |Backers(heard, view, config)|
  {
    forall x | x in votes ensures x in Backers(heard, view, config) {
      assert (x, votes[x]) in heard;
    }
    SubsetSize(votes.Keys, Backers(heard, view, config));
    assert |votes.Keys| == |votes|;
  }

  lemma {:induction false} BackersGrow(heard: set<(Sender, ViewChange)>, more: set<(Sender, ViewChange)>, view: nat, config: nat)
    requires heard <= more
    ensures |Backers(heard, view, config)| <= |Backers(more, view, config)|
  {
    SubsetSize(Backers(heard, view, config), Backers(more, view, config));
  }

  ghost predicate Backed(cfg: Config, o: Out, heard: set<(Sender, ViewChange)>) {
    o.UpdateView? ==> |Backers(heard, o.view, o.config)| >= cfg.n - 2 * cfg.u
  }

  /** Updates are backed by n - 2u senders each, and none is owed. */
  ghost predicate UpdatesOk(cfg: Config, s: State, heard: set<(Sender, ViewChange)>) {
    && (forall i :: 0 <= i < |s.out| ==> Backed(cfg, s.out[i], heard))
    && (forall k :: k in s.buffer && |s.buffer[k]| >= cfg.n - 2 * cfg.u ==> s.lastNotified >= k.0)
  }

  /** A set of votes that is large enough is announced, on word of as many senders. */
  lemma {:induction false} NotifyUpdates(cfg: Config, s: State, heard: set<(Sender, ViewChange)>, vc: ViewChange, votes: Votes)
    requires Ok(cfg) && UpdatesOk(cfg, s, heard) && Genuine(votes, vc.view, vc.config, heard)
    ensures UpdatesOk(cfg, Notify(cfg, s.(buffer := s.buffer[(vc.view, vc.config) := votes]), vc, |votes|), heard)
  {
    hide Backers, Genuine;
    VotesAreBackers(votes, vc.view, vc.config, heard);
  }

  lemma {:induction false} OpenUpdates(cfg: Config, s: State, heard: set<(Sender, ViewChange)>, vc: ViewChange)
    requires Ok(cfg) && UpdatesOk(cfg, s, heard) && (vc.view, vc.config) in s.buffer
    ensures UpdatesOk(cfg, OpenView(cfg, s, vc), heard)
  {
    hide Backers, NewViewThreshold;
  }

  lemma {:induction false} HandleUpdates(cfg: Config, s: State, heard: set<(Sender, ViewChange)>, vc: ViewChange, sender: Sender, log: seq<Block>)
    requires Ok(cfg) && UpdatesOk(cfg, s, heard) && Buffered(cfg, s, heard) && (sender, vc) in heard
    ensures UpdatesOk(cfg, Handle(cfg, s, vc, sender, log), heard)
  {
    hide UpdatesOk, Notify, OpenView, CheckHash;
    var parent := ForkParent(vc);
    if Stale(s, vc) {
    } else if !CheckHash(log, parent.0, parent.1) {
      NackUpdates(cfg, s, heard, sender, vc);
    } else {
      var key := (vc.view, vc.config);
      var votes := VotesFor(s, key)[sender := vc];
      var s1 := s.(buffer := s.buffer[key := votes]);
      NotifyUpdates(cfg, s, heard, vc, votes);
      NotifyFrame(cfg, s1, vc, |votes|);
      OpenUpdates(cfg, Notify(cfg, s1, vc, |votes|), heard, vc);
    }
  }

  lemma NackUpdates(cfg: Config, s: State, heard: set<(Sender, ViewChange)>, to: Sender, vc: ViewChange)
    requires UpdatesOk(cfg, s, heard)
    ensures UpdatesOk(cfg, s.(out := s.out + [Nack(to, vc)]), heard)
  {
    hide Backers;
  }

  lemma {:induction false} RunUpdates(cfg: Config, es: seq<Event>)
    requires Ok(cfg)
    ensures UpdatesOk(cfg, Run(cfg, es), Heard(cfg, es))
  {
    if es != [] {
      hide Handle, Inv, UpdatesOk, Backers;
      var before, e := es[..|es| - 1], es[|es| - 1];
      var s := Run(cfg, before);
      RunUpdates(cfg, before);
      RunKeeps(cfg, before);
      MoreHeard(cfg, s, Heard(cfg, before), Heard(cfg, es));
      match e {
        case Received(vc, sender, log) => HandleUpdates(cfg, s, Heard(cfg, es), vc, sender, log);
        case MyViewJumped(view, config, vc, log) =>
          FewerBuffered(cfg, s, Retain(s, view, config), Heard(cfg, es));
          HandleUpdates(cfg, Retain(s, view, config), Heard(cfg, es), vc, Sender(cfg.me, 0), log);
        case UpdateBci(bci) => FewerBuffered(cfg, s, s.(bci := bci), Heard(cfg, es));
      }
    }
  }

  lemma {:induction false} MoreHeard(cfg: Config, s: State, heard: set<(Sender, ViewChange)>, more: set<(Sender, ViewChange)>)
    requires Ok(cfg) && UpdatesOk(cfg, s, heard) && Inv(cfg, s, heard) && heard <= more
    ensures UpdatesOk(cfg, s, more) && Buffered(cfg, s, more)
  {
    hide Backers, History;
    forall i | 0 <= i < |s.out| ensures Backed(cfg, s.out[i], more) {
      if s.out[i].UpdateView? {
        BackersGrow(heard, more, s.out[i].view, s.out[i].config);
      }
    }
  }

  lemma FewerBuffered(cfg: Config, s: State, t: State, heard: set<(Sender, ViewChange)>)
    requires Ok(cfg) && UpdatesOk(cfg, s, heard) && Buffered(cfg, s, heard)
    requires t.out == s.out && t.lastNotified == s.lastNotified && forall k :: k in t.buffer ==> k in s.buffer && t.buffer[k] == s.buffer[k]
    ensures UpdatesOk(cfg, t, heard) && Buffered(cfg, t, heard)
  {
    hide Backed, Genuine;
  }

  /** Over every run an update to a view is sent only on word of n - 2u different senders for that view and configuration. */
  lemma {:induction false} UpdatesAreBacked(cfg: Config, es: seq<Event>, i: nat)
    requires Ok(cfg) && i < |Run(cfg, es).out| && Run(cfg, es).out[i].UpdateView?
    ensures |Backers(Heard(cfg, es), Run(cfg, es).out[i].view, Run(cfg, es).out[i].config)| >= cfg.n - 2 * cfg.u
  {
    RunUpdates(cfg, es);
    assert Backed(cfg, Run(cfg, es).out[i], Heard(cfg, es));
  }

  /** And as soon as that many are collected, an update to that view or a later one has been sent. */
  lemma {:induction false} CollectedMeansUpdated(cfg: Config, es: seq<Event>, view: nat, config: nat) returns (i: nat)
    requires Ok(cfg) && view > 0 && (view, config) in Run(cfg, es).buffer
    requires |Run(cfg, es).buffer[(view, config)]| >= cfg.n - 2 * cfg.u
    ensures i < |Run(cfg, es).out| && Run(cfg, es).out[i].UpdateView? && Run(cfg, es).out[i].view >= view
  {
    RunUpdates(cfg, es);
    RunKeeps(cfg, es);
    var s := Run(cfg, es);
    i :| 0 <= i < |s.out| && s.out[i].UpdateView? && s.out[i].view == s.lastNotified;
  }

  // ---------------------------------------------------------------- what becomes of a message

  function BciOf(es: seq<Event>): nat {
    if es == [] then 0
    else if es[|es| - 1].UpdateBci? then es[|es| - 1].bci
    else BciOf(es[..|es| - 1])
  }

  /** A view at least as high has been opened. */
  ghost predicate Opened(out: seq<Out>, view: nat) {
    exists j :: 0 <= j < |out| && out[j].NewViewForks? && out[j].view >= view
  }

  ghost predicate FromHistory(s: State, es: seq<Event>) {
    && s.viewNum == 0 && s.configNum == 0 && s.bci == BciOf(es)
    && (s.lastNewViewed > 0 ==> Opened(s.out, s.lastNewViewed))
  }

  lemma {:induction false} HandleFromHistory(cfg: Config, s: State, vc: ViewChange, sender: Sender, log: seq<Block>)
    requires Ok(cfg) && (s.lastNewViewed > 0 ==> Opened(s.out, s.lastNewViewed))
    ensures var t := Handle(cfg, s, vc, sender, log);
            && t.viewNum == s.viewNum && t.configNum == s.configNum && t.bci == s.bci && s.out <= t.out
            && (t.lastNewViewed > 0 ==> Opened(t.out, t.lastNewViewed))
  {
    hide ViewUpdateThreshold, NewViewThreshold, CheckHash;
    var t := Handle(cfg, s, vc, sender, log);
    if t.lastNewViewed != s.lastNewViewed {
      assert t.out[|t.out| - 1].NewViewForks?;
    } else if s.lastNewViewed > 0 {
      var j :| 0 <= j < |s.out| && s.out[j].NewViewForks? && s.out[j].view >= s.lastNewViewed;
      assert t.out[j] == s.out[j];
    }
  }

  lemma {:induction false} RunFromHistory(cfg: Config, es: seq<Event>)
    requires Ok(cfg)
    ensures FromHistory(Run(cfg, es), es)
  {
    if es != [] {
      hide Handle;
      var before, e := es[..|es| - 1], es[|es| - 1];
      var s := Run(cfg, before);
      RunFromHistory(cfg, before);
      match e {
        case Received(vc, sender, log) => HandleFromHistory(cfg, s, vc, sender, log);
        case MyViewJumped(view, config, vc, log) => HandleFromHistory(cfg, Retain(s, view, config), vc, Sender(cfg.me, 0), log);
        case UpdateBci(bci) =>
      }
    }
  }

  lemma {:induction false} OpenedIff(cfg: Config, es: seq<Event>, view: nat)
    requires Ok(cfg)
    ensures view > 0 ==> (Opened(Run(cfg, es).out, view) <==> Run(cfg, es).lastNewViewed >= view)
  {
    RunFromHistory(cfg, es);
    RunKeeps(cfg, es);
    var s := Run(cfg, es);
    if Opened(s.out, view) {
      var j :| 0 <= j < |s.out| && s.out[j].NewViewForks? && s.out[j].view >= view;
      assert s.out[j].view <= s.lastNewViewed;
    }
  }

  /** The fork that comes with a message follows the log: it has no first block, or that one does. */
  predicate ForkKnown(vc: ViewChange, log: seq<Block>) {
    vc.first.Some? ==>
      var before := (vc.first.value.0 - 1) % TWO_64;
      before == 0 || (before <= |log| && vc.first.value.1 == Sha(log[before - 1]))
  }

  lemma ForkKnownIff(vc: ViewChange, log: seq<Block>)
    ensures CheckHash(log, ForkParent(vc).0, ForkParent(vc).1) <==> ForkKnown(vc, log)
  {
  }

  /**
   * Over every run, a message for a view that was opened, or passed over by a later one, is ignored. Otherwise, if its fork
   * does not follow the log, its sender is nacked when the fork's parent is past the byzantine commit index last announced,
   * and not answered else. If it does, the message counts: it is collected, or goes out with the opening.
   */
  lemma {:induction false} MessageOutcome(cfg: Config, es: seq<Event>, vc: ViewChange, sender: Sender, log: seq<Block>)
    requires Ok(cfg)
    ensures var s, t := Run(cfg, es), Run(cfg, es + [Received(vc, sender, log)]);
            if vc.view == 0 || Opened(s.out, vc.view) then t == s
            else if !ForkKnown(vc, log) then
              if (vc.first.value.0 - 1) % TWO_64 > BciOf(es) then t == s.(out := s.out + [Nack(sender, vc)]) else t == s
            else Counted(t, vc, sender)
  {
    hide ViewUpdateThreshold, NewViewThreshold, CheckHash, ForkKnown, BciOf, Opened;
    assert (es + [Received(vc, sender, log)])[..|es|] == es;
    RunFromHistory(cfg, es);
    ForkKnownIff(vc, log);
    OpenedIff(cfg, es, vc.view);
    if !ForkKnown(vc, log) {
      UnknownFork(vc, log);
    }
  }

  ghost predicate Counted(t: State, vc: ViewChange, sender: Sender) {
    var key := (vc.view, vc.config);
    || (key in t.buffer && sender in t.buffer[key] && t.buffer[key][sender] == vc)
    || (t.out != [] && t.out[|t.out| - 1].NewViewForks? && t.out[|t.out| - 1].view == vc.view
        && sender in t.out[|t.out| - 1].votes && t.out[|t.out| - 1].votes[sender] == vc)
  }

  /** A jump keeps all that was collected for its view and configuration or later ones, and counts the node's own message. */
  lemma {:induction false} JumpOutcome(cfg: Config, es: seq<Event>, view: nat, config: nat, vc: ViewChange, log: seq<Block>)
    requires Ok(cfg)
    ensures var s, t := Run(cfg, es), Run(cfg, es + [MyViewJumped(view, config, vc, log)]);
            && (vc.view > 0 && !Opened(s.out, vc.view) && ForkKnown(vc, log) ==> Counted(t, vc, Sender(cfg.me, 0)))
            && (forall k :: k in s.buffer && k.0 >= view && k.1 >= config && k != (vc.view, vc.config)
                  ==> k in t.buffer && t.buffer[k] == s.buffer[k])
  {
    hide Handle, CheckHash, ForkKnown, BciOf, Opened, Counted;
    var s := Run(cfg, es);
    assert (es + [MyViewJumped(view, config, vc, log)])[..|es|] == es;
    RunFromHistory(cfg, es);
    ForkKnownIff(vc, log);
    OpenedIff(cfg, es, vc.view);
    forall k | k in s.buffer && k.0 >= view && k.1 >= config && k != (vc.view, vc.config)
      ensures var t := Run(cfg, es + [MyViewJumped(view, config, vc, log)]); k in t.buffer && t.buffer[k] == s.buffer[k] {
      HandleLeavesOthers(cfg, Retain(s, view, config), vc, Sender(cfg.me, 0), log, k);
    }
    if vc.view > 0 && !Opened(s.out, vc.view) && ForkKnown(vc, log) {
      HandleCounts(cfg, Retain(s, view, config), vc, Sender(cfg.me, 0), log);
    }
  }

  lemma HandleCounts(cfg: Config, s: State, vc: ViewChange, sender: Sender, log: seq<Block>)
    requires Ok(cfg) && !Stale(s, vc) && CheckHash(log, ForkParent(vc).0, ForkParent(vc).1)
    ensures Counted(Handle(cfg, s, vc, sender, log), vc, sender)
  {
    hide ViewUpdateThreshold, NewViewThreshold, CheckHash;
  }

  lemma HandleLeavesOthers(cfg: Config, s: State, vc: ViewChange, sender: Sender, log: seq<Block>, k: (nat, nat))
    requires Ok(cfg) && k in s.buffer && k != (vc.view, vc.config)
    ensures var t := Handle(cfg, s, vc, sender, log); k in t.buffer && t.buffer[k] == s.buffer[k]
  {
    hide ViewUpdateThreshold, NewViewThreshold, CheckHash;
  }

  lemma UnknownFork(vc: ViewChange, log: seq<Block>)
    requires !ForkKnown(vc, log)
    ensures vc.first.Some? && ForkParent(vc).0 == (vc.first.value.0 - 1) % TWO_64
  {
  }

  /** A view counts as having enough messages exactly when it, or a later one, has been opened. */
  lemma {:induction false} EnoughIffOpened(cfg: Config, es: seq<Event>, view: nat, config: nat)
    requires Ok(cfg)
    ensures EnoughVcs(cfg, Run(cfg, es), view, config) <==> view == 0 || Opened(Run(cfg, es).out, view)
  {
    RunKeeps(cfg, es);
    OpenedIff(cfg, es, view);
  }

  // ---------------------------------------------------------------- senders and nodes

  function NamesOf(senders: set<Sender>): set<Node> {
    set x | x in senders :: x.name
  }

  ghost predicate OnePerName(senders: set<Sender>) {
    forall x, y :: x in senders && y in senders && x.name == y.name ==> x == y
  }

  ghost predicate AllListed(senders: set<Sender>, nodes: set<Node>) {
    forall x :: x in senders ==> x.name in nodes
  }

  lemma {:induction false} NamesSize(senders: set<Sender>)
    ensures |NamesOf(senders)| <= |senders|
    ensures |NamesOf(senders)| == |senders| <==> OnePerName(senders)
    decreases |senders|
  {
    if senders != {} {
      var x :| x in senders;
      var rest := senders - {x};
      NamesSize(rest);
      assert senders == rest + {x};
      assert NamesOf(senders) == NamesOf(rest) + {x.name};
      if x.name in NamesOf(rest) {
        assert !OnePerName(senders);
      } else if OnePerName(rest) {
        assert OnePerName(senders);
      } else {
        var y, z :| y in rest && z in rest && y.name == z.name && y != z;
        assert y in senders && z in senders;
      }
    }
  }

  /** A set of senders stands for as many nodes as it has members exactly when no name comes twice and all are listed. */
  lemma {:induction false} CountsNodesIff(senders: set<Sender>, nodes: set<Node>)
    ensures |NamesOf(senders) * nodes| == |senders| <==> OnePerName(senders) && AllListed(senders, nodes)
  {
    var names := NamesOf(senders);
    NamesSize(senders);
    SubsetSize(names * nodes, names);
    if names <= nodes {
      assert names * nodes == names;
    } else {
      var x :| x in names && x !in nodes;
      assert names * nodes <= names - {x};
      SubsetSize(names * nodes, names - {x});
      assert exists y :: y in senders && y.name == x;
    }
  }

  /** An opening is by n - u nodes of the configuration exactly when its senders have different names, all in the list. */
  lemma {:induction false} OpeningCountsNodes(cfg: Config, es: seq<Event>, j: nat, nodes: set<Node>)
    requires Ok(cfg) && j < |Run(cfg, es).out| && Run(cfg, es).out[j].NewViewForks?
    ensures var senders := Run(cfg, es).out[j].votes.Keys;
            |NamesOf(senders) * nodes| == cfg.n - cfg.u <==> OnePerName(senders) && AllListed(senders, nodes)
  {
    OpeningsAreQuorums(cfg, es, j);
    CountsNodesIff(Run(cfg, es).out[j].votes.Keys, nodes);
  }

  /** Two openings, at any nodes, by different listed names: n - 2u nodes are in both, and each meets every majority. */
  lemma {:induction false} OpeningsOverlap(cfg: Config, es: seq<Event>, j: nat, cfg': Config, es': seq<Event>, j': nat, nodes: set<Node>, m: set<Node>)
    requires Ok(cfg) && cfg' == cfg.(me := cfg'.me) && |nodes| == cfg.n
    requires j < |Run(cfg, es).out| && Run(cfg, es).out[j].NewViewForks?
    requires j' < |Run(cfg', es').out| && Run(cfg', es').out[j'].NewViewForks?
    requires var a, b := Run(cfg, es).out[j].votes.Keys, Run(cfg', es').out[j'].votes.Keys;
             OnePerName(a) && AllListed(a, nodes) && OnePerName(b) && AllListed(b, nodes)
    requires m <= nodes && |m| >= Majority(cfg.n)
    ensures var a, b := NamesOf(Run(cfg, es).out[j].votes.Keys), NamesOf(Run(cfg', es').out[j'].votes.Keys);
            |a * b| >= cfg.n - 2 * cfg.u >= 1 && exists x :: x in a && x in m
  {
    var a, b := NamesOf(Run(cfg, es).out[j].votes.Keys), NamesOf(Run(cfg', es').out[j'].votes.Keys);
    OpeningCountsNodes(cfg, es, j, nodes);
    OpeningCountsNodes(cfg', es', j', nodes);
    SubsetSize(a * nodes, a);
    SubsetSize(b * nodes, b);
    assert nodes != {};
    PlatformQuorums(nodes, cfg.u, a, b, m);
  }

  /** Peers that keep to sub id 0 and are in the list make every opening one of different listed names. */
  lemma {:induction false} HonestSendersDiffer(cfg: Config, es: seq<Event>, j: nat, nodes: set<Node>)
    requires Ok(cfg) && j < |Run(cfg, es).out| && Run(cfg, es).out[j].NewViewForks?
    requires forall p :: p in Heard(cfg, es) ==> p.0.subId == 0 && p.0.name in nodes
    ensures OnePerName(Run(cfg, es).out[j].votes.Keys) && AllListed(Run(cfg, es).out[j].votes.Keys, nodes)
  {
    OpeningsAreQuorums(cfg, es, j);
    var votes := Run(cfg, es).out[j].votes;
    forall x | x in votes.Keys ensures x.subId == 0 && x.name in nodes {
      assert (x, votes[x]) in Heard(cfg, es);
    }
  }

  // ---------------------------------------------------------------- one name under many sub ids

  function ManyIds(vc: ViewChange, x: Node, k: nat): seq<Event> {
    if k == 0 then [] else ManyIds(vc, x, k - 1) + [Received(vc, Sender(x, k - 1), [])]
  }

  function IdVotes(vc: ViewChange, x: Node, k: nat): (votes: Votes)
    ensures |votes| == k && forall y :: y in votes <==> y.name == x && y.subId < k
  {
    if k == 0 then map[]
    else
      var before := IdVotes(vc, x, k - 1);
      assert Sender(x, k - 1) !in before;
      assert before[Sender(x, k - 1) := vc].Keys == before.Keys + {Sender(x, k - 1)};
      before[Sender(x, k - 1) := vc]
  }

  ghost predicate Collecting(s: State, vc: ViewChange, votes: Votes) {
    s.viewNum == 0 && s.configNum == 0 && s.lastNewViewed == 0 && VotesFor(s, (vc.view, vc.config)) == votes
  }

  /** One more vote is buffered, or completes the set and opens the view. */
  lemma {:induction false} VoteArrives(cfg: Config, s: State, vc: ViewChange, sender: Sender, votes: Votes)
    requires Ok(cfg) && vc.view > 0 && vc.first == None && Collecting(s, vc, votes)
    ensures var t, after := Handle(cfg, s, vc, sender, []), votes[sender := vc];
            if |after| < NewViewThreshold(cfg) then Collecting(t, vc, after)
            else t.out != [] && t.out[|t.out| - 1] == NewViewForks(vc.view, vc.config, after)
  {
    hide ViewUpdateThreshold, NewViewThreshold;
  }

  lemma {:induction false} OneIdMore(cfg: Config, vc: ViewChange, x: Node, k: nat)
    requires Ok(cfg)
    ensures Run(cfg, ManyIds(vc, x, k + 1)) == Handle(cfg, Run(cfg, ManyIds(vc, x, k)), vc, Sender(x, k), [])
    ensures IdVotes(vc, x, k + 1) == IdVotes(vc, x, k)[Sender(x, k) := vc]
  {
    hide Handle;
    assert ManyIds(vc, x, k + 1)[..|ManyIds(vc, x, k + 1)| - 1] == ManyIds(vc, x, k);
  }

  /** Short of the threshold the votes pile up in the buffer. */
  lemma {:induction false} IdsPileUp(cfg: Config, vc: ViewChange, x: Node, k: nat)
    requires Ok(cfg) && vc.view > 0 && vc.first == None && k < NewViewThreshold(cfg)
    ensures Collecting(Run(cfg, ManyIds(vc, x, k)), vc, IdVotes(vc, x, k))
    decreases k
  {
    if k > 0 {
      hide Collecting, Run, ManyIds, IdVotes, NewViewThreshold;
      IdsPileUp(cfg, vc, x, k - 1);
      OneIdMore(cfg, vc, x, k - 1);
      VoteArrives(cfg, Run(cfg, ManyIds(vc, x, k - 1)), vc, Sender(x, k - 1), IdVotes(vc, x, k - 1));
    }
  }

  lemma {:induction false} IdNames(vc: ViewChange, x: Node, k: nat)
    requires k > 0
    ensures NamesOf(IdVotes(vc, x, k).Keys) == {x}
  {
    assert Sender(x, 0) in IdVotes(vc, x, k);
  }

  ghost predicate EndsWith(out: seq<Out>, o: Out) {
    out != [] && out[|out| - 1] == o
  }

  lemma {:induction false} LastIdOpens(cfg: Config, vc: ViewChange, x: Node, k: nat)
    requires Ok(cfg) && vc.view > 0 && vc.first == None && k + 1 == NewViewThreshold(cfg)
    ensures EndsWith(Run(cfg, ManyIds(vc, x, k + 1)).out, NewViewForks(vc.view, vc.config, IdVotes(vc, x, k + 1)))
  {
    hide Collecting, Run, ManyIds, IdVotes, NewViewThreshold, Handle;
    IdsPileUp(cfg, vc, x, k);
    OneIdMore(cfg, vc, x, k);
    VoteArrives(cfg, Run(cfg, ManyIds(vc, x, k)), vc, Sender(x, k), IdVotes(vc, x, k));
  }

  /** One name with n - u sub ids opens a view alone. */
  lemma {:induction false} OneNameOpens(cfg: Config, vc: ViewChange, x: Node)
    requires Ok(cfg) && vc.view > 0 && vc.first == None
    ensures EndsWith(Run(cfg, ManyIds(vc, x, cfg.n - cfg.u)).out, NewViewForks(vc.view, vc.config, IdVotes(vc, x, cfg.n - cfg.u)))
    ensures NamesOf(IdVotes(vc, x, cfg.n - cfg.u).Keys) == {x}
  {
    IdNames(vc, x, cfg.n - cfg.u);
    LastIdOpens(cfg, vc, x, cfg.n - cfg.u - 1);
  }

  /** So two openings can have no node in common. */
  lemma {:induction false} OpeningsNeedNotMeet(cfg: Config, vc: ViewChange, x: Node, y: Node)
    requires Ok(cfg) && vc.view > 0 && vc.first == None && x != y
    ensures var a, b := IdVotes(vc, x, cfg.n - cfg.u), IdVotes(vc, y, cfg.n - cfg.u);
            && EndsWith(Run(cfg, ManyIds(vc, x, cfg.n - cfg.u)).out, NewViewForks(vc.view, vc.config, a))
            && EndsWith(Run(cfg, ManyIds(vc, y, cfg.n - cfg.u)).out, NewViewForks(vc.view, vc.config, b))
            && NamesOf(a.Keys) * NamesOf(b.Keys) == {}
  {
    hide Run, ManyIds, IdVotes, EndsWith, NamesOf;
    OneNameOpens(cfg, vc, x);
    OneNameOpens(cfg, vc, y);
  }

  /** Jumping to a view forgets all messages for older views and configurations, other than the one just handled. */
  lemma JumpForgetsOlder(cfg: Config, s: State, view: nat, config: nat, vc: ViewChange, log: seq<Block>)
    requires Ok(cfg)
    ensures forall k :: k in Step(cfg, s, MyViewJumped(view, config, vc, log)).buffer ==>
              (k.0 >= view && k.1 >= config && k in s.buffer) || k == (vc.view, vc.config)
  {
    hide ViewUpdateThreshold, NewViewThreshold;
  }

  // ---------------------------------------------------------------- the pacemaker itself

  class Pacemaker {
    const cfg: Config
    var viewNum: nat
    var configNum: nat
    var lastNotified: nat
    var lastNewViewed: nat
    var bci: nat
    var buffer: map<(nat, nat), Votes>
    var out: seq<Out>

    ghost function Abstract(): State
      reads this
    {
      State(viewNum, configNum, lastNotified, lastNewViewed, bci, buffer, out)
    }

    constructor (cfg: Config)
      ensures this.cfg == cfg && Abstract() == START
    {
      this.cfg := cfg;
      viewNum, configNum, lastNotified, lastNewViewed, bci, buffer, out := 0, 0, 0, 0, 0, map[], [];
    }

    method HandleViewChange(vc: ViewChange, sender: Sender, log: seq<Block>)
      requires Ok(cfg)
      modifies this
      ensures Abstract() == Handle(cfg, old(Abstract()), vc, sender, log)
    {
      if vc.view < viewNum || vc.config < configNum {
        return;
      }
      if lastNewViewed >= vc.view {
        return;
      }
      var parent := ForkParent(vc);
      var hashMatch := CheckHash(log, parent.0, parent.1);
      if !hashMatch && parent.0 <= bci {
        return;
      }
      if !hashMatch {
        out := out + [Nack(sender, vc)];
        return;
      }
      var key := (vc.view, vc.config);
      var votes: Votes := if key in buffer then buffer[key] else map[];
      votes := votes[sender := vc];
      buffer := buffer[key := votes];
      if |votes| >= ViewUpdateThreshold(cfg) && vc.view > lastNotified {
        out := out + [UpdateView(vc.view, vc.config)];
        lastNotified := vc.view;
      }
      if |votes| >= NewViewThreshold(cfg) && vc.view > lastNewViewed {
        buffer := buffer - {key};
        out := out + [NewViewForks(vc.view, vc.config, votes)];
        lastNewViewed := vc.view;
      }
    }

    method HandleMyViewJump(view: nat, config: nat, vc: ViewChange, log: seq<Block>)
      requires Ok(cfg)
      modifies this
      ensures Abstract() == Handle(cfg, Retain(old(Abstract()), view, config), vc, Sender(cfg.me, 0), log)
    {
      buffer := map k | k in buffer && k.0 >= view && k.1 >= config :: buffer[k];
      HandleViewChange(vc, Sender(cfg.me, 0), log);
    }

    method QueryEnoughVcs(view: nat, config: nat) returns (enough: bool)
      requires Ok(cfg)
      ensures enough == EnoughVcs(cfg, Abstract(), view, config)
    {
      if lastNewViewed >= view {
        return true;
      }
      var size := if (view, config) in buffer then |buffer[(view, config)]| else 0;
      enough := size >= NewViewThreshold(cfg);
    }

    /** A fresh pacemaker fed any run ends in that run's state. */
    method Serve(es: seq<Event>)
      requires Ok(cfg) && Abstract() == START
      modifies this
      ensures Abstract() == Run(cfg, es)
    {
      hide Handle;
      for i := 0 to |es|
        invariant Abstract() == Run(cfg, es[..i])
      {
        assert es[..i + 1][..i] == es[..i];
        match es[i] {
          case Received(vc, sender, log) => HandleViewChange(vc, sender, log);
          case MyViewJumped(view, config, vc, log) => HandleMyViewJump(view, config, vc, log);
          case UpdateBci(b) => bci := b;
        }
      }
      assert es[..|es|] == es;
    }
  }
}
