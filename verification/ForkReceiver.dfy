/**
 * The fork receiver: forks from a leader are checked for a common prefix and for the order of their views, cut where the
 * configuration changes, and passed on part by part.
 */
module ForkReceivers {
  import opened Basics
  import opened Chain
  import opened Leaders
  import Backfill

  datatype AppendEntries = AppendEntries(view: nat, configNum: nat, viewIsStable: bool, ci: nat, fork: seq<Block>)

  datatype Stats = Stats(view: nat, viewIsStable: bool, configNum: nat, sender: Node, ci: nat)

  datatype Part = Part(blocks: seq<Block>, stats: Stats)

  datatype Out = Forward(part: Part, remaining: nat) | Nack(to: Node, needed: nat, hints: seq<Hint>)

  // ---------------------------------------------------------------- the walk over views

  /** The highest view among the first i blocks and v, if every block that raises it is unstable. */
  function WalkTo(fork: seq<Block>, i: nat, v: nat): Option<nat>
    requires i <= |fork|
  {
    if i == 0 then Some(v)
    else
      var w, b := WalkTo(fork, i - 1, v), fork[i - 1];
      if w == None || b.view <= w.value then w
      else if b.viewIsStable then None
      else Some(b.view)
  }

  predicate IsHighest(fork: seq<Block>, i: nat, v: nat, top: nat)
    requires i <= |fork|
  {
    && v <= top && (forall j :: 0 <= j < i ==> fork[j].view <= top)
    && (top == v || exists j :: 0 <= j < i && fork[j].view == top)
  }

  /** Block i has a view higher than v and than all blocks before it. */
  predicate RaisesView(fork: seq<Block>, v: nat, i: nat)
    requires i < |fork|
  {
    fork[i].view > v && forall j :: 0 <= j < i ==> fork[j].view < fork[i].view
  }

  lemma {:induction false} WalkExact(fork: seq<Block>, i: nat, v: nat)
    requires i <= |fork|
    ensures WalkTo(fork, i, v).Some? <==> forall j :: 0 <= j < i && RaisesView(fork, v, j) ==> !fork[j].viewIsStable
    ensures WalkTo(fork, i, v).Some? ==> IsHighest(fork, i, v, WalkTo(fork, i, v).value)
    decreases i
  {
    if i > 0 {
      WalkExact(fork, i - 1, v);
      var w := WalkTo(fork, i - 1, v);
      if w.Some? {
        assert RaisesView(fork, v, i - 1) <==> fork[i - 1].view > w.value;
      }
    }
  }

  // ---------------------------------------------------------------- cutting by configuration

  datatype Cut = Cut(parts: seq<seq<Block>>, current: seq<Block>, config: nat)

  function CutTo(fork: seq<Block>, i: nat, c: nat): Option<Cut>
    requires i <= |fork|
  {
    if i == 0 then Some(Cut([], [], c))
    else
      var cut, b := CutTo(fork, i - 1, c), fork[i - 1];
      if cut == None then None
      else if b.configNum == cut.value.config then Some(cut.value.(current := cut.value.current + [b]))
      else if b.viewIsStable then None
      else Some(Cut(cut.value.parts + [cut.value.current + [b]], [], b.configNum))
  }

  function Split(fork: seq<Block>, c: nat): Option<seq<seq<Block>>> {
    var cut := CutTo(fork, |fork|, c);
    if cut == None then None
    else if cut.value.current == [] then Some(cut.value.parts)
    else Some(cut.value.parts + [cut.value.current])
  }

  function Concat(parts: seq<seq<Block>>): seq<Block> {
    if parts == [] then [] else Concat(parts[..|parts| - 1]) + parts[|parts| - 1]
  }

  lemma {:induction false} ConcatTwo(a: seq<seq<Block>>, b: seq<seq<Block>>)
    ensures Concat(a + b) == Concat(a) + Concat(b)
  {
    if b == [] {
      assert a + b == a;
    } else {
      ConcatTwo(a, b[..|b| - 1]);
      assert (a + b)[..|a + b| - 1] == a + b[..|b| - 1];
    }
  }

  lemma {:induction false} ConcatHead(parts: seq<seq<Block>>)
    requires parts != []
    ensures Concat(parts) == parts[0] + Concat(parts[1..])
  {
    assert parts == [parts[0]] + parts[1..];
    assert [parts[0]][..0] == [];
    assert Concat([parts[0]]) == parts[0];
    ConcatTwo([parts[0]], parts[1..]);
  }

  /** The configuration before block i. */
  function ConfigBefore(fork: seq<Block>, c: nat, i: nat): nat
    requires i <= |fork|
  {
    if i == 0 then c else fork[i - 1].configNum
  }

  predicate OpensConfig(fork: seq<Block>, c: nat, i: nat)
    requires i < |fork|
  {
    fork[i].configNum != ConfigBefore(fork, c, i)
  }

  /** The configuration in force when part k begins: the one its predecessor's last block opened. */
  function PartConfig(parts: seq<seq<Block>>, c: nat, k: nat): nat
    requires k <= |parts|
  {
    if k == 0 || parts[k - 1] == [] then c else parts[k - 1][|parts[k - 1]| - 1].configNum
  }

  predicate AllOf(blocks: seq<Block>, c: nat) {
    forall i :: 0 <= i < |blocks| ==> blocks[i].configNum == c
  }

  /** Blocks of one configuration, then the unstable block that opens the next. */
  predicate Closed(part: seq<Block>, c: nat) {
    && part != []
    && AllOf(part[..|part| - 1], c)
    && part[|part| - 1].configNum != c && !part[|part| - 1].viewIsStable
  }

  predicate AllClosed(parts: seq<seq<Block>>, c: nat) {
    forall k :: 0 <= k < |parts| ==> Closed(parts[k], PartConfig(parts, c, k))
  }

  lemma EarlierConfigs(parts: seq<seq<Block>>, part: seq<Block>, c: nat, k: nat)
    requires k <= |parts|
    ensures PartConfig(parts + [part], c, k) == PartConfig(parts, c, k)
  {
  }

  lemma {:induction false} OneMorePart(parts: seq<seq<Block>>, part: seq<Block>, c: nat)
    ensures forall k :: 0 <= k <= |parts| ==> PartConfig(parts + [part], c, k) == PartConfig(parts, c, k)
    ensures AllClosed(parts, c) && Closed(part, PartConfig(parts, c, |parts|)) ==> AllClosed(parts + [part], c)
    ensures Concat(parts + [part]) == Concat(parts) + part
  {
    hide Closed, PartConfig;
    forall k | 0 <= k <= |parts| ensures PartConfig(parts + [part], c, k) == PartConfig(parts, c, k) {
      EarlierConfigs(parts, part, c, k);
    }
    assert (parts + [part])[..|parts|] == parts;
  }

  lemma {:induction false} CutDefined(fork: seq<Block>, i: nat, c: nat)
    requires i <= |fork|
    ensures CutTo(fork, i, c).Some? <==> forall j :: 0 <= j < i && OpensConfig(fork, c, j) ==> !fork[j].viewIsStable
    ensures CutTo(fork, i, c).Some? ==> CutTo(fork, i, c).value.config == ConfigBefore(fork, c, i)
    decreases i
  {
    if i > 0 {
      CutDefined(fork, i - 1, c);
    }
  }

  lemma {:induction false} CutShape(fork: seq<Block>, i: nat, c: nat)
    requires i <= |fork| && CutTo(fork, i, c).Some?
    ensures var cut := CutTo(fork, i, c).value;
            && cut.config == PartConfig(cut.parts, c, |cut.parts|)
            && Concat(cut.parts) + cut.current == fork[..i]
            && AllClosed(cut.parts, c) && AllOf(cut.current, cut.config)
    decreases i
  {
    hide AllClosed, Concat, PartConfig;
    if i > 0 {
      CutShape(fork, i - 1, c);
      var cut, b := CutTo(fork, i - 1, c).value, fork[i - 1];
      assert fork[..i] == fork[..i - 1] + [b];
      if b.configNum != cut.config {
        var part := cut.current + [b];
        assert part[..|part| - 1] == cut.current;
        OneMorePart(cut.parts, part, c);
        LastPartConfig(cut.parts, part, c);
      }
    } else {
      NoParts(c);
    }
  }

  lemma LastPartConfig(parts: seq<seq<Block>>, part: seq<Block>, c: nat)
    requires part != []
    ensures PartConfig(parts + [part], c, |parts| + 1) == part[|part| - 1].configNum
  {
  }

  lemma NoParts(c: nat)
    ensures PartConfig([], c, 0) == c && AllClosed([], c) && Concat([]) == []
  {
  }

  /** The parts make up the fork, none is empty, and only the last may do without a block that opens the next configuration. */
  ghost predicate WellCut(parts: seq<seq<Block>>, fork: seq<Block>, c: nat) {
    && Concat(parts) == fork
    && (forall k :: 0 <= k < |parts| ==> parts[k] != [])
    && (forall k :: 0 <= k < |parts| - 1 ==> Closed(parts[k], PartConfig(parts, c, k)))
    && (parts != [] ==> var k := |parts| - 1;
                        AllOf(parts[k], PartConfig(parts, c, k)) || Closed(parts[k], PartConfig(parts, c, k)))
  }

  lemma {:induction false} ClosedWellCut(parts: seq<seq<Block>>, c: nat)
    requires AllClosed(parts, c)
    ensures WellCut(parts, Concat(parts), c)
  {
    hide Concat, PartConfig, AllOf;
  }

  lemma {:induction false} OpenWellCut(parts: seq<seq<Block>>, current: seq<Block>, c: nat)
    requires AllClosed(parts, c) && current != [] && AllOf(current, PartConfig(parts, c, |parts|))
    ensures WellCut(parts + [current], Concat(parts) + current, c)
  {
    ClosedWellCut(parts, c);
    hide Concat, PartConfig, AllOf, Closed;
    OneMorePart(parts, current, c);
  }

  /**
   * A fork is refused exactly when some block opens a configuration while stable. Otherwise its parts concatenate to
   * it, none is empty, and each has one configuration apart from a final unstable block that opens the next.
   */
  lemma {:induction false} SplitExact(fork: seq<Block>, c: nat)
    ensures Split(fork, c).Some? <==> forall j :: 0 <= j < |fork| && OpensConfig(fork, c, j) ==> !fork[j].viewIsStable
    ensures Split(fork, c).Some? ==> WellCut(Split(fork, c).value, fork, c)
  {
    hide CutTo, WellCut, AllClosed, Concat, PartConfig, AllOf;
    CutDefined(fork, |fork|, c);
    var cut := CutTo(fork, |fork|, c);
    if cut.Some? {
      CutShape(fork, |fork|, c);
      assert fork[..|fork|] == fork;
      if cut.value.current == [] {
        ClosedWellCut(cut.value.parts, c);
      } else {
        OpenWellCut(cut.value.parts, cut.value.current, c);
      }
    }
  }

  // ---------------------------------------------------------------- state and steps

  datatype State = State(
    view: nat, configNum: nat, buffer: seq<Part>, blocked: bool,
    lastAeView: nat, lastHash: Option<Digest>, waiting: bool, out: seq<Out>)

  const START := State(0, 0, [], false, 0, None, false, [])

  /** `log` is the chain the log server answers from; `valid` says whether the last block passed on turns out valid. */
  datatype Event =
    | Fork(ae: AppendEntries, sender: Node, log: seq<Block>, valid: bool)
    | BackfillResponse(ae: AppendEntries, sender: Node, log: seq<Block>, valid: bool)
    | UpdateView(view: nat, config: nat, valid: bool)
    | MultipartNack(n: nat)

  predicate FromLeader(nodes: seq<Node>, s: State, ae: AppendEntries, sender: Node)
    requires nodes != []
  {
    && ae.view >= s.view && ae.configNum >= s.configNum
    && (ae.configNum == s.configNum ==> LeaderOf(nodes, ae.view) == sender)
  }

  /** The parent of the fork is the last block passed on, or a block of the log. */
  predicate CommonPrefix(s: State, fork: seq<Block>, log: seq<Block>) {
    || fork == []
    || s.lastHash == Some(fork[0].parent)
    || CheckHash(log, WrapSub(fork[0].n, 1), fork[0].parent)
  }

  predicate ViewsInOrder(s: State, ae: AppendEntries) {
    var walk := WalkTo(ae.fork, |ae.fork|, s.view);
    walk.Some? && walk.value >= ae.view
  }

  function SendNack(s: State, to: Node, fork: seq<Block>, log: seq<Block>): State
    requires fork != []
  {
    var needed := Backfill.NackNeeded(fork[0].n);
    s.(waiting := true, out := s.out + [Nack(to, needed, Hints(log, needed))])
  }

  function Pass(s: State, part: Part, remaining: nat, valid: bool): State
    requires part.blocks != []
  {
    s.(out := s.out + [Forward(part, remaining)],
       lastHash := if valid then Some(Sha(part.blocks[|part.blocks| - 1])) else None)
  }

  function AsParts(parts: seq<seq<Block>>, stats: Stats): seq<Part> {
    seq(|parts|, i requires 0 <= i < |parts| => Part(parts[i], stats))
  }

  function StatsOf(ae: AppendEntries, sender: Node): Stats {
    Stats(ae.view, ae.viewIsStable, ae.configNum, sender, ae.ci)
  }

  /** Past the three tests on its sender, its prefix and its views. */
  predicate Passes(nodes: seq<Node>, s: State, ae: AppendEntries, sender: Node, log: seq<Block>)
    requires nodes != []
  {
    FromLeader(nodes, s, ae, sender) && CommonPrefix(s, ae.fork, log) && ViewsInOrder(s, ae)
  }

  /**
   * Two messages stop the node: an empty fork that reaches for a new view, and a fork of several parts that gets as far as
   * being split while other parts are still waiting.
   */
  predicate CanProcess(nodes: seq<Node>, s: State, ae: AppendEntries, sender: Node, log: seq<Block>)
    requires nodes != []
  {
    && (ae.fork != [] || !FromLeader(nodes, s, ae, sender) || ae.view <= s.view)
    && (Passes(nodes, s, ae, sender, log) && s.buffer != []
        ==> Split(ae.fork, s.configNum) == None || |Split(ae.fork, s.configNum).value| <= 1)
  }

  function Process(nodes: seq<Node>, s: State, ae: AppendEntries, sender: Node, log: seq<Block>, valid: bool): State
    requires nodes != [] && CanProcess(nodes, s, ae, sender, log)
  {
    if !FromLeader(nodes, s, ae, sender) then s
    else if !CommonPrefix(s, ae.fork, log) || !ViewsInOrder(s, ae) then SendNack(s, sender, ae.fork, log)
    else
      var s1, parts := s.(waiting := false), Split(ae.fork, s.configNum);
      if parts == None || parts.value == [] then s1
      else
        SplitExact(ae.fork, s.configNum);
        var stats, rest := StatsOf(ae, sender), parts.value[1..];
        var s2 := Pass(s1, Part(parts.value[0], stats), |rest|, valid);
        if rest == [] then s2 else s2.(buffer := AsParts(rest, stats), blocked := true)
  }

  function NextPart(nodes: seq<Node>, s: State, valid: bool): State
    requires nodes != [] && s.buffer != [] && s.buffer[0].blocks != []
  {
    var part, rest := s.buffer[0], s.buffer[1..];
    var s1 := s.(buffer := rest);
    if rest != [] || LeaderOf(nodes, s.view) == part.stats.sender then Pass(s1, part, |rest|, valid) else s1
  }

  function Update(nodes: seq<Node>, s: State, view: nat, config: nat, valid: bool): State
    requires nodes != [] && (s.buffer != [] ==> s.buffer[0].blocks != [])
  {
    var s1 := if s.view != view then s.(lastAeView := view, lastHash := None) else s;
    var s2 := s1.(view := view, configNum := config);
    var s3 := if s.configNum < config && s.buffer != [] then NextPart(nodes, s2, valid) else s2;
    if s3.buffer == [] then s3.(blocked := false) else s3
  }

  /** While blocked or waiting, only commands are taken; a multipart nack names exactly the parts still buffered. */
  ghost predicate Legal(nodes: seq<Node>, s: State, e: Event)
    requires nodes != []
  {
    match e
    case Fork(ae, sender, log, _) => !s.blocked && !s.waiting && CanProcess(nodes, s, ae, sender, log)
    case BackfillResponse(ae, sender, log, _) => CanProcess(nodes, s, ae, sender, log)
    case UpdateView(_, _, _) => true
    case MultipartNack(n) => n == |s.buffer|
  }

  function Step(nodes: seq<Node>, s: State, e: Event): State
    requires nodes != [] && Legal(nodes, s, e) && NoEmptyPart(s)
  {
    match e
    case Fork(ae, sender, log, valid) => Process(nodes, s, ae, sender, log, valid)
    case BackfillResponse(ae, sender, log, valid) => Process(nodes, s, ae, sender, log, valid)
    case UpdateView(view, config, valid) => Update(nodes, s, view, config, valid)
    case MultipartNack(_) => s.(buffer := [], blocked := false)
  }

  predicate NoEmptyPart(s: State) {
    forall i :: 0 <= i < |s.buffer| ==> s.buffer[i].blocks != []
  }

  // ---------------------------------------------------------------- which forks are passed on

  /** Block b comes right after its place in the log: it is the first one, or names the log's block before it as its parent. */
  predicate Follows(log: seq<Block>, b: Block) {
    var before := (b.n - 1) % TWO_64;
    before == 0 || (before <= |log| && b.parent == Sha(log[before - 1]))
  }

  /** What makes a fork acceptable, without reference to how it is checked. */
  ghost predicate Acceptable(nodes: seq<Node>, s: State, ae: AppendEntries, sender: Node, log: seq<Block>)
    requires nodes != []
  {
    && ae.fork != []
    && ae.view >= s.view && ae.configNum >= s.configNum && (ae.configNum == s.configNum ==> sender == LeaderOf(nodes, ae.view))
    && (s.lastHash == Some(ae.fork[0].parent) || Follows(log, ae.fork[0]))
    && (forall i :: 0 <= i < |ae.fork| && RaisesView(ae.fork, s.view, i) ==> !ae.fork[i].viewIsStable)
    && (ae.view <= s.view || exists i :: 0 <= i < |ae.fork| && ae.fork[i].view >= ae.view)
    && (forall i :: 0 <= i < |ae.fork| && OpensConfig(ae.fork, s.configNum, i) ==> !ae.fork[i].viewIsStable)
  }

  /** The test for a common prefix compares parent hashes: with the last block passed on, or with the log. */
  lemma CommonPrefixIff(s: State, fork: seq<Block>, log: seq<Block>)
    requires fork != []
    ensures CommonPrefix(s, fork, log) <==> s.lastHash == Some(fork[0].parent) || Follows(log, fork[0])
  {
  }

  /** A fork is passed on exactly when it is acceptable, and then what is passed on and what is kept back make up the fork. */
  lemma {:induction false} PassedOnIffAcceptable(nodes: seq<Node>, s: State, ae: AppendEntries, sender: Node, log: seq<Block>, valid: bool)
    requires nodes != [] && CanProcess(nodes, s, ae, sender, log)
    ensures var t := Process(nodes, s, ae, sender, log, valid);
            (exists part, k :: t.out == s.out + [Forward(part, k)]) <==> Acceptable(nodes, s, ae, sender, log)
    ensures Acceptable(nodes, s, ae, sender, log) ==>
              var t, parts := Process(nodes, s, ae, sender, log, valid), Split(ae.fork, s.configNum);
              && parts.Some? && parts.value != [] && Concat(parts.value) == ae.fork
              && t.out == s.out + [Forward(Part(parts.value[0], Stats(ae.view, ae.viewIsStable, ae.configNum, sender, ae.ci)), |parts.value| - 1)]
              && (|parts.value| > 1 ==> t.buffer == AsParts(parts.value[1..], StatsOf(ae, sender)))
  {
    hide CutTo, WalkTo, Hints, Closed, Split, Concat;
    var t := Process(nodes, s, ae, sender, log, valid);
    WalkExact(ae.fork, |ae.fork|, s.view);
    SplitExact(ae.fork, s.configNum);
    var parts := Split(ae.fork, s.configNum);
    if parts.Some? {
      NoPartsNoFork(parts.value);
    }
    WalkReaches(s, ae);
    if ae.fork != [] {
      CommonPrefixIff(s, ae.fork, log);
    }
    if t.out != s.out {
      var o := t.out[|s.out|];
      assert t.out == s.out + [o];
      if exists part, k :: t.out == s.out + [Forward(part, k)] {
        var part, k :| t.out == s.out + [Forward(part, k)];
        assert o == Forward(part, k);
      }
    }
  }

  /**
   * A fork from the leader is nacked exactly when its parent is unknown or its views are out of order; the nack asks for
   * blocks from a hundred further back, with hints from the log, and the receiver then waits for the answer. A fork that is
   * not nacked ends the waiting; one that is not from the leader changes nothing.
   */
  lemma {:induction false} NackedIff(nodes: seq<Node>, s: State, ae: AppendEntries, sender: Node, log: seq<Block>, valid: bool)
    requires nodes != [] && CanProcess(nodes, s, ae, sender, log) && ae.fork != []
    ensures var t := Process(nodes, s, ae, sender, log, valid);
            var n := ae.fork[0].n;
            var needed := if n > 100 then n - 100 else 0;
            if ae.view < s.view || ae.configNum < s.configNum || (ae.configNum == s.configNum && sender != LeaderOf(nodes, ae.view))
            then t == s
            else if && (s.lastHash == Some(ae.fork[0].parent) || Follows(log, ae.fork[0]))
                    && (forall i :: 0 <= i < |ae.fork| && RaisesView(ae.fork, s.view, i) ==> !ae.fork[i].viewIsStable)
                    && (ae.view <= s.view || exists i :: 0 <= i < |ae.fork| && ae.fork[i].view >= ae.view)
            then !t.waiting && (t.out != s.out ==> t.out[|s.out|..] != [] && t.out[|s.out|].Forward?)
            else t == s.(waiting := true, out := s.out + [Nack(sender, needed, Hints(log, needed))])
  {
    hide CutTo, WalkTo, Hints, Closed, Split, Concat, RaisesView, CommonPrefix, Follows, LeaderOf;
    WalkReaches(s, ae);
    CommonPrefixIff(s, ae.fork, log);
  }

  lemma {:induction false} NoPartsNoFork(parts: seq<seq<Block>>)
    requires forall k :: 0 <= k < |parts| ==> parts[k] != []
    ensures parts == [] <==> Concat(parts) == []
  {
    if parts != [] {
      assert parts[|parts| - 1] != [];
    }
  }

  lemma {:induction false} WalkReaches(s: State, ae: AppendEntries)
    ensures ViewsInOrder(s, ae) <==>
              && (forall i :: 0 <= i < |ae.fork| && RaisesView(ae.fork, s.view, i) ==> !ae.fork[i].viewIsStable)
              && (ae.view <= s.view || exists i :: 0 <= i < |ae.fork| && ae.fork[i].view >= ae.view)
  {
    WalkExact(ae.fork, |ae.fork|, s.view);
    var walk := WalkTo(ae.fork, |ae.fork|, s.view);
    if walk.Some? {
      assert IsHighest(ae.fork, |ae.fork|, s.view, walk.value);
    }
  }

  // ---------------------------------------------------------------- runs

  /** The receiver with the fork being passed on, and the part of it passed on so far. */
  datatype Tracked = Tracked(s: State, fork: seq<Block>, sent: seq<Block>)

  function Blocks(parts: seq<Part>): seq<seq<Block>> {
    seq(|parts|, i requires 0 <= i < |parts| => parts[i].blocks)
  }

  /** The blocks that a step passed on. */
  function NewlySent(s: State, t: State): seq<Block> {
    if |t.out| == |s.out| + 1 && t.out[|s.out|].Forward? then t.out[|s.out|].part.blocks else []
  }

  function Track(nodes: seq<Node>, x: Tracked, e: Event): Tracked
    requires nodes != [] && Legal(nodes, x.s, e) && NoEmptyPart(x.s)
  {
    var t := Step(nodes, x.s, e);
    var sent := NewlySent(x.s, t);
    if (e.Fork? || e.BackfillResponse?) && sent != [] then Tracked(t, e.ae.fork, sent) else Tracked(t, x.fork, x.sent + sent)
  }

  ghost predicate Inv(x: Tracked) {
    && NoEmptyPart(x.s)
    && (x.s.blocked <==> x.s.buffer != [])
    && (forall i, j :: 0 <= i < |x.s.buffer| && 0 <= j < |x.s.buffer| ==> x.s.buffer[i].stats == x.s.buffer[j].stats)
    && (x.s.buffer != [] ==> x.sent + Concat(Blocks(x.s.buffer)) == x.fork)
    && x.sent <= x.fork
  }

  /** Backfill responses come only while no part is waiting. */
  ghost predicate Orderly(s: State, e: Event) {
    e.BackfillResponse? ==> s.buffer == []
  }

  lemma AsPartsBlocks(parts: seq<seq<Block>>, stats: Stats)
    ensures Blocks(AsParts(parts, stats)) == parts
  {
  }

  /** Either nothing is passed on and the buffer stays, or the first part is passed on and the rest is kept. */
  lemma {:induction false} ProcessOutcome(nodes: seq<Node>, s: State, ae: AppendEntries, sender: Node, log: seq<Block>, valid: bool)
    requires nodes != [] && CanProcess(nodes, s, ae, sender, log)
    ensures var t, parts := Process(nodes, s, ae, sender, log, valid), Split(ae.fork, s.configNum);
            || (NewlySent(s, t) == [] && t.buffer == s.buffer && t.blocked == s.blocked)
            || (parts.Some? && parts.value != [] && NewlySent(s, t) == parts.value[0]
                && if |parts.value| == 1 then t.buffer == s.buffer && t.blocked == s.blocked
                   else t.buffer == AsParts(parts.value[1..], StatsOf(ae, sender)) && t.blocked)
  {
    hide WalkTo, Hints, Split, FromLeader, CommonPrefix, ViewsInOrder;
  }

  lemma {:induction false} ProcessKeeps(nodes: seq<Node>, x: Tracked, e: Event)
    requires nodes != [] && Inv(x) && (e.Fork? || e.BackfillResponse?) && Legal(nodes, x.s, e) && Orderly(x.s, e)
    ensures Inv(Track(nodes, x, e))
  {
    hide Process, Split, Concat, NewlySent, Closed;
    var s, fork := x.s, e.ae.fork;
    assert s.buffer == [];
    ProcessOutcome(nodes, s, e.ae, e.sender, e.log, e.valid);
    SplitExact(fork, s.configNum);
    var parts := Split(fork, s.configNum);
    if parts.Some? && parts.value != [] {
      var rest := parts.value[1..];
      ConcatHead(parts.value);
      AsPartsBlocks(rest, StatsOf(e.ae, e.sender));
      assert parts.value[0] <= fork;
    }
  }

  /** The next part is passed on, unless it is the last and its sender does not lead; then it is dropped. */
  lemma {:induction false} UpdateOutcome(nodes: seq<Node>, s: State, view: nat, config: nat, valid: bool)
    requires nodes != [] && s.buffer != [] && s.buffer[0].blocks != [] && s.configNum < config
    ensures var t := Update(nodes, s, view, config, valid);
            && t.buffer == s.buffer[1..] && (t.buffer == [] ==> !t.blocked) && (t.buffer != [] ==> t.blocked == s.blocked)
            && NewlySent(s, t) == if t.buffer != [] || LeaderOf(nodes, view) == s.buffer[0].stats.sender then s.buffer[0].blocks else []
  {
    hide LeaderOf;
  }

  lemma {:induction false} NextPartKeeps(nodes: seq<Node>, s: State, fork: seq<Block>, sent: seq<Block>, view: nat, config: nat, valid: bool)
    requires nodes != [] && Inv(Tracked(s, fork, sent)) && s.buffer != []
    requires s.configNum < config
    ensures Inv(Track(nodes, Tracked(s, fork, sent), UpdateView(view, config, valid)))
  {
    hide Concat, Update, NewlySent;
    UpdateOutcome(nodes, s, view, config, valid);
    var parts := Blocks(s.buffer);
    ConcatHead(parts);
    assert parts[1..] == Blocks(s.buffer[1..]);
    assert parts[0] == s.buffer[0].blocks;
    assert fork == (sent + parts[0]) + Concat(parts[1..]);
  }

  lemma {:induction false} StepKeeps(nodes: seq<Node>, x: Tracked, e: Event)
    requires nodes != [] && Inv(x) && Legal(nodes, x.s, e) && Orderly(x.s, e)
    ensures Inv(Track(nodes, x, e))
  {
    hide Process, Concat;
    match e {
      case Fork(_, _, _, _) => ProcessKeeps(nodes, x, e);
      case BackfillResponse(_, _, _, _) => ProcessKeeps(nodes, x, e);
      case UpdateView(view, config, valid) =>
        if x.s.configNum < config && x.s.buffer != [] {
          NextPartKeeps(nodes, x.s, x.fork, x.sent, view, config, valid);
        }
      case MultipartNack(_) =>
    }
  }

  /** `NoEmptyPart` holds in every run, as `RunKeeps` shows; it stands here because the next step reads the first part. */
  ghost predicate LegalRun(nodes: seq<Node>, es: seq<Event>)
    requires nodes != []
    decreases |es|, 0
  {
    es == [] || (LegalRun(nodes, es[..|es| - 1])
                 && var x := Run(nodes, es[..|es| - 1]);
                    NoEmptyPart(x.s) && Legal(nodes, x.s, es[|es| - 1]) && Orderly(x.s, es[|es| - 1]))
  }

  ghost function Run(nodes: seq<Node>, es: seq<Event>): Tracked
    requires nodes != [] && LegalRun(nodes, es)
    decreases |es|, 1
  {
    if es == [] then Tracked(START, [], []) else Track(nodes, Run(nodes, es[..|es| - 1]), es[|es| - 1])
  }

  /**
   * In every run: blocked exactly while parts are buffered; the buffered parts are of one message, and with what was passed
   * on of its fork they make up that fork.
   */
  lemma {:induction false} RunKeeps(nodes: seq<Node>, es: seq<Event>)
    requires nodes != [] && LegalRun(nodes, es)
    ensures Inv(Run(nodes, es))
  {
    hide Track, Legal;
    if es != [] {
      RunKeeps(nodes, es[..|es| - 1]);
      StepKeeps(nodes, Run(nodes, es[..|es| - 1]), es[|es| - 1]);
    } else {
      assert Run(nodes, es) == Tracked(START, [], []);
    }
  }

  ghost predicate Settled(s: State) {
    NoEmptyPart(s) && (s.blocked <==> s.buffer != [])
  }

  /** Blocked exactly while parts are buffered: kept by every command the receiver survives, whenever it comes. */
  lemma {:induction false} StepSettled(nodes: seq<Node>, s: State, e: Event)
    requires nodes != [] && Settled(s) && Legal(nodes, s, e)
    ensures Settled(Step(nodes, s, e))
  {
    if e.Fork? || e.BackfillResponse? {
      hide Process, Split, NewlySent, Closed, Concat;
      ProcessOutcome(nodes, s, e.ae, e.sender, e.log, e.valid);
      SplitExact(e.ae.fork, s.configNum);
    }
  }

  // ---------------------------------------------------------------- the remembered hash

  /** Output i is the last fork part passed on. */
  ghost predicate LastPassedOn(out: seq<Out>, i: nat) {
    i < |out| && out[i].Forward? && forall j :: i < j < |out| ==> !out[j].Forward?
  }

  /** The remembered hash, if any, is that of the last block of the last part passed on. */
  ghost predicate Remembers(s: State) {
    s.lastHash.Some? ==>
      exists i: nat :: LastPassedOn(s.out, i) && s.out[i].part.blocks != []
                  && s.lastHash.value == Sha(s.out[i].part.blocks[|s.out[i].part.blocks| - 1])
  }

  lemma PassRemembers(s: State, part: Part, remaining: nat, valid: bool)
    requires part.blocks != []
    ensures Remembers(Pass(s, part, remaining, valid))
  {
    var t := Pass(s, part, remaining, valid);
    assert LastPassedOn(t.out, |s.out|);
  }

  lemma StillRemembers(s: State, t: State)
    requires Remembers(s) && (t.lastHash == s.lastHash || t.lastHash == None)
    requires s.out <= t.out && forall j :: |s.out| <= j < |t.out| ==> !t.out[j].Forward?
    ensures Remembers(t)
  {
    if t.lastHash.Some? {
      var i: nat :| LastPassedOn(s.out, i) && s.out[i].part.blocks != []
               && s.lastHash.value == Sha(s.out[i].part.blocks[|s.out[i].part.blocks| - 1]);
      assert t.out[i] == s.out[i];
      assert LastPassedOn(t.out, i);
    }
  }

  lemma ProcessRemembers(nodes: seq<Node>, s: State, ae: AppendEntries, sender: Node, log: seq<Block>, valid: bool)
    requires nodes != [] && CanProcess(nodes, s, ae, sender, log) && Remembers(s)
    ensures Remembers(Process(nodes, s, ae, sender, log, valid))
  {
    hide Remembers, Split, WalkTo, Hints, Concat, Closed;
    var t := Process(nodes, s, ae, sender, log, valid);
    SplitExact(ae.fork, s.configNum);
    var parts := Split(ae.fork, s.configNum);
    if FromLeader(nodes, s, ae, sender) && CommonPrefix(s, ae.fork, log) && ViewsInOrder(s, ae) && parts.Some? && parts.value != [] {
      var p := Pass(s.(waiting := false), Part(parts.value[0], StatsOf(ae, sender)), |parts.value[1..]|, valid);
      PassRemembers(s.(waiting := false), Part(parts.value[0], StatsOf(ae, sender)), |parts.value[1..]|, valid);
      StillRemembers(p, t);
    } else {
      StillRemembers(s, t);
    }
  }

  lemma NextPartRemembers(nodes: seq<Node>, s: State, valid: bool)
    requires nodes != [] && s.buffer != [] && s.buffer[0].blocks != [] && Remembers(s)
    ensures Remembers(NextPart(nodes, s, valid))
  {
    hide Remembers, LeaderOf;
    var s1 := s.(buffer := s.buffer[1..]);
    StillRemembers(s, s1);
    PassRemembers(s1, s.buffer[0], |s1.buffer|, valid);
  }

  lemma UpdateRemembers(nodes: seq<Node>, s: State, view: nat, config: nat, valid: bool)
    requires nodes != [] && (s.buffer != [] ==> s.buffer[0].blocks != []) && Remembers(s)
    ensures Remembers(Update(nodes, s, view, config, valid))
  {
    hide Remembers, NextPart;
    var s1 := if s.view != view then s.(lastAeView := view, lastHash := None) else s;
    var s2 := s1.(view := view, configNum := config);
    StillRemembers(s, s2);
    var s3 := if s.configNum < config && s.buffer != [] then NextPart(nodes, s2, valid) else s2;
    if s.configNum < config && s.buffer != [] {
      NextPartRemembers(nodes, s2, valid);
    }
    StillRemembers(s3, Update(nodes, s, view, config, valid));
  }

  /** In every run, so that a fork accepted without the log server does follow what was passed on last. */
  lemma {:induction false} RunRemembers(nodes: seq<Node>, es: seq<Event>)
    requires nodes != [] && LegalRun(nodes, es)
    ensures Remembers(Run(nodes, es).s)
  {
    if es != [] {
      hide Remembers, Process, Update, CanProcess, NewlySent;
      var before, e := es[..|es| - 1], es[|es| - 1];
      var s := Run(nodes, before).s;
      RunRemembers(nodes, before);
      match e {
        case Fork(ae, sender, log, valid) => ProcessRemembers(nodes, s, ae, sender, log, valid);
        case BackfillResponse(ae, sender, log, valid) => ProcessRemembers(nodes, s, ae, sender, log, valid);
        case UpdateView(view, config, valid) => UpdateRemembers(nodes, s, view, config, valid);
        case MultipartNack(n) => StillRemembers(s, Step(nodes, s, e));
      }
    }
  }

  /**
   * What is remembered, from the history of the run: the last block of the last part passed on, if it turned out valid and
   * the view has not changed since.
   */
  ghost function Remembered(nodes: seq<Node>, es: seq<Event>): Option<Digest>
    requires nodes != [] && LegalRun(nodes, es)
    decreases |es|
  {
    if es == [] then None
    else
      var before, e := es[..|es| - 1], es[|es| - 1];
      var s := Run(nodes, before).s;
      var sent := NewlySent(s, Run(nodes, es).s);
      if sent != [] && !e.MultipartNack? then if e.valid then Some(Sha(sent[|sent| - 1])) else None
      else if e.UpdateView? && e.view != ViewOf(before) then None
      else Remembered(nodes, before)
  }

  function ViewOf(es: seq<Event>): nat {
    if es == [] then 0
    else if es[|es| - 1].UpdateView? then es[|es| - 1].view
    else ViewOf(es[..|es| - 1])
  }

  function ConfigOf(es: seq<Event>): nat {
    if es == [] then 0
    else if es[|es| - 1].UpdateView? then es[|es| - 1].config
    else ConfigOf(es[..|es| - 1])
  }

  lemma {:induction false} ProcessRemembered(nodes: seq<Node>, s: State, ae: AppendEntries, sender: Node, log: seq<Block>, valid: bool)
    requires nodes != [] && CanProcess(nodes, s, ae, sender, log)
    ensures var t := Process(nodes, s, ae, sender, log, valid);
            var sent := NewlySent(s, t);
            && t.view == s.view && t.configNum == s.configNum && t.lastAeView == s.lastAeView
            && t.lastHash == if sent == [] then s.lastHash else if valid then Some(Sha(sent[|sent| - 1])) else None
  {
    hide WalkTo, Hints, Split, FromLeader, CommonPrefix, ViewsInOrder, Closed, Concat;
    SplitExact(ae.fork, s.configNum);
  }

  lemma {:induction false} UpdateRemembered(nodes: seq<Node>, s: State, view: nat, config: nat, valid: bool)
    requires nodes != [] && (s.buffer != [] ==> s.buffer[0].blocks != [])
    ensures var t := Update(nodes, s, view, config, valid);
            var sent := NewlySent(s, t);
            && t.view == view && t.configNum == config && (s.lastAeView == s.view ==> t.lastAeView == view)
            && t.lastHash == if sent != [] then (if valid then Some(Sha(sent[|sent| - 1])) else None)
                             else if view != s.view then None else s.lastHash
  {
    hide NextPart;
    var s1 := if s.view != view then s.(lastAeView := view, lastHash := None) else s;
    var s2 := s1.(view := view, configNum := config);
    if s.configNum < config && s.buffer != [] {
      NextPartRemembered(nodes, s2, valid);
    }
  }

  lemma NextPartRemembered(nodes: seq<Node>, s: State, valid: bool)
    requires nodes != [] && s.buffer != [] && s.buffer[0].blocks != []
    ensures var t := NextPart(nodes, s, valid);
            var sent := NewlySent(s, t);
            && t.view == s.view && t.configNum == s.configNum && t.lastAeView == s.lastAeView && t.out == s.out + t.out[|s.out|..]
            && t.lastHash == if sent == [] then s.lastHash else if valid then Some(Sha(sent[|sent| - 1])) else None
  {
    hide LeaderOf;
  }

  /** In every run view, configuration and remembered hash are what the history says. */
  lemma {:induction false} RunRemembered(nodes: seq<Node>, es: seq<Event>)
    requires nodes != [] && LegalRun(nodes, es)
    ensures var s := Run(nodes, es).s;
            s.view == s.lastAeView == ViewOf(es) && s.configNum == ConfigOf(es) && s.lastHash == Remembered(nodes, es)
  {
    if es != [] {
      hide Process, Update, CanProcess, NewlySent;
      var before, e := es[..|es| - 1], es[|es| - 1];
      var s := Run(nodes, before).s;
      RunRemembered(nodes, before);
      match e {
        case Fork(ae, sender, log, valid) => ProcessRemembered(nodes, s, ae, sender, log, valid);
        case BackfillResponse(ae, sender, log, valid) => ProcessRemembered(nodes, s, ae, sender, log, valid);
        case UpdateView(view, config, valid) => UpdateRemembered(nodes, s, view, config, valid);
        case MultipartNack(n) =>
      }
    }
  }

  /** A nack from the verifier of a part ends the message: nothing waits any more, and nothing else changes. */
  lemma {:induction false} NackUnblocks(nodes: seq<Node>, es: seq<Event>, n: nat)
    requires nodes != [] && LegalRun(nodes, es) && n == |Run(nodes, es).s.buffer|
    ensures LegalRun(nodes, es + [MultipartNack(n)])
    ensures var s, t := Run(nodes, es).s, Run(nodes, es + [MultipartNack(n)]).s;
            t.buffer == [] && !t.blocked && t == s.(buffer := t.buffer, blocked := t.blocked)
  {
    hide NewlySent;
    RunKeeps(nodes, es);
    assert (es + [MultipartNack(n)])[..|es|] == es;
  }

  /**
   * In every run a fork is passed on if and only if it comes from a leader of a view and configuration not yet passed, its
   * parent is the block remembered or the one before it in the log, and its views and configurations open unstable.
   */
  lemma {:induction false} RunPassesOnIff(nodes: seq<Node>, es: seq<Event>, ae: AppendEntries, sender: Node, log: seq<Block>, valid: bool)
    requires nodes != [] && LegalRun(nodes, es) && CanProcess(nodes, Run(nodes, es).s, ae, sender, log)
    ensures var s, view, config := Run(nodes, es).s, ViewOf(es), ConfigOf(es);
            (exists part, k :: Process(nodes, s, ae, sender, log, valid).out == s.out + [Forward(part, k)]) <==>
              && ae.fork != []
              && ae.view >= view && ae.configNum >= config && (ae.configNum == config ==> sender == LeaderOf(nodes, ae.view))
              && (Remembered(nodes, es) == Some(ae.fork[0].parent) || Follows(log, ae.fork[0]))
              && (forall i :: 0 <= i < |ae.fork| && RaisesView(ae.fork, view, i) ==> !ae.fork[i].viewIsStable)
              && (ae.view <= view || exists i :: 0 <= i < |ae.fork| && ae.fork[i].view >= ae.view)
              && (forall i :: 0 <= i < |ae.fork| && OpensConfig(ae.fork, config, i) ==> !ae.fork[i].viewIsStable)
  {
    hide Process, Remembered, ViewOf, ConfigOf, RaisesView, OpensConfig, Follows, LeaderOf;
    RunRemembered(nodes, es);
    PassedOnIffAcceptable(nodes, Run(nodes, es).s, ae, sender, log, valid);
  }

  // ---------------------------------------------------------------- the receiver itself

  class ForkReceiver {
    const nodes: seq<Node>
    var view: nat
    var configNum: nat
    var buffer: seq<Part>
    var blocked: bool
    var lastAeView: nat
    var lastHash: Option<Digest>
    var waiting: bool
    var out: seq<Out>

    ghost function Abstract(): State
      reads this
    {
      State(view, configNum, buffer, blocked, lastAeView, lastHash, waiting, out)
    }

    constructor (nodes: seq<Node>)
      ensures this.nodes == nodes && Abstract() == START
    {
      this.nodes := nodes;
      view, configNum, buffer, blocked, lastAeView, lastHash, waiting, out := 0, 0, [], false, 0, None, false, [];
    }

    /** The first block of each new view must be unstable; `None` when one is not. */
    method WalkViews(fork: seq<Block>) returns (top: Option<nat>)
      ensures top == WalkTo(fork, |fork|, view)
    {
      var testView := view;
      for i := 0 to |fork|
        invariant WalkTo(fork, i, view) == Some(testView)
      {
        if fork[i].view > testView {
          if fork[i].viewIsStable {
            StaysRefused(fork, i + 1, view);
            return None;
          }
          testView := fork[i].view;
        }
      }
      return Some(testView);
    }

    method SplitFork(fork: seq<Block>) returns (parts: Option<seq<seq<Block>>>)
      ensures parts == Split(fork, configNum)
    {
      var done: seq<seq<Block>> := [];
      var current: seq<Block> := [];
      var config := configNum;
      for i := 0 to |fork|
        invariant CutTo(fork, i, configNum) == Some(Cut(done, current, config))
      {
        if fork[i].configNum == config {
          current := current + [fork[i]];
        } else {
          if fork[i].viewIsStable {
            StaysUncut(fork, i + 1, configNum);
            return None;
          }
          config := fork[i].configNum;
          done := done + [current + [fork[i]]];
          current := [];
        }
      }
      if current != [] {
        done := done + [current];
      }
      return Some(done);
    }

    method NackFork(to: Node, fork: seq<Block>, log: seq<Block>)
      requires fork != []
      modifies this`waiting, this`out
      ensures Abstract() == SendNack(old(Abstract()), to, fork, log)
    {
      waiting := true;
      var needed := Backfill.NackNeeded(fork[0].n);
      out := out + [Nack(to, needed, Hints(log, needed))];
    }

    method PassOn(part: Part, remaining: nat, valid: bool)
      requires part.blocks != []
      modifies this`out, this`lastHash
      ensures Abstract() == Pass(old(Abstract()), part, remaining, valid)
    {
      out := out + [Forward(part, remaining)];
      lastHash := if valid then Some(Sha(part.blocks[|part.blocks| - 1])) else None;
    }

    method EnsureCommonPrefix(fork: seq<Block>, log: seq<Block>) returns (ok: bool)
      ensures ok == CommonPrefix(Abstract(), fork, log)
      ensures fork != [] ==> (ok <==> lastHash == Some(fork[0].parent) || Follows(log, fork[0]))
    {
      if fork == [] {
        return true;
      }
      if lastHash.Some? && lastHash.value == fork[0].parent {
        return true;
      }
      ok := CheckHash(log, WrapSub(fork[0].n, 1), fork[0].parent);
    }

    method ProcessFork(ae: AppendEntries, sender: Node, log: seq<Block>, valid: bool)
      requires nodes != [] && CanProcess(nodes, Abstract(), ae, sender, log)
      modifies this
      ensures Abstract() == Process(nodes, old(Abstract()), ae, sender, log, valid)
    {
      hide WalkTo, Split, Hints, CommonPrefix, Closed, Concat;
      if ae.view < view || ae.configNum < configNum {
        return;
      }
      if ae.configNum == configNum && LeaderOf(nodes, ae.view) != sender {
        return;
      }
      var common := EnsureCommonPrefix(ae.fork, log);
      if !common {
        EmptyIsCommon(Abstract(), ae.fork, log);
        NackFork(sender, ae.fork, log);
        return;
      }
      var top := WalkViews(ae.fork);
      if top == None || top.value < ae.view {
        EmptyWalk(ae.fork, view);
        NackFork(sender, ae.fork, log);
        return;
      }
      waiting := false;
      var parts := SplitFork(ae.fork);
      if parts == None || parts.value == [] {
        return;
      }
      SplitExact(ae.fork, configNum);
      var stats, rest := StatsOf(ae, sender), parts.value[1..];
      PassOn(Part(parts.value[0], stats), |rest|, valid);
      if rest != [] {
        buffer := AsParts(rest, stats);
        blocked := true;
      }
    }

    method HandleUpdateView(view: nat, config: nat, valid: bool)
      requires nodes != [] && (buffer != [] ==> buffer[0].blocks != [])
      modifies this
      ensures Abstract() == Update(nodes, old(Abstract()), view, config, valid)
    {
      if this.view != view {
        lastAeView := view;
        lastHash := None;
      }
      this.view := view;
      var updating := configNum < config;
      configNum := config;
      if updating && buffer != [] {
        var part := buffer[0];
        buffer := buffer[1..];
        var legit := buffer != [] || LeaderOf(nodes, view) == part.stats.sender;
        if legit {
          PassOn(part, |buffer|, valid);
        }
      }
      if buffer == [] {
        blocked := false;
      }
    }

    method HandleMultipartNack(n: nat)
      requires n == |buffer|
      modifies this`buffer, this`blocked
      ensures Abstract() == old(Abstract()).(buffer := [], blocked := false)
    {
      for i := 0 to n
        invariant |buffer| == n - i
      {
        buffer := buffer[1..];
      }
      if buffer == [] {
        blocked := false;
      }
    }

    method Handle(e: Event)
      requires nodes != [] && Legal(nodes, Abstract(), e) && NoEmptyPart(Abstract())
      modifies this
      ensures Abstract() == Step(nodes, old(Abstract()), e)
    {
      hide Process, Update, CanProcess;
      match e {
        case Fork(ae, sender, log, valid) => ProcessFork(ae, sender, log, valid);
        case BackfillResponse(ae, sender, log, valid) => ProcessFork(ae, sender, log, valid);
        case UpdateView(v, c, valid) => HandleUpdateView(v, c, valid);
        case MultipartNack(n) => HandleMultipartNack(n);
      }
    }
  }

  lemma {:induction false} StaysRefused(fork: seq<Block>, i: nat, v: nat)
    requires i <= |fork| && WalkTo(fork, i, v) == None
    ensures WalkTo(fork, |fork|, v) == None
    decreases |fork| - i
  {
    if i < |fork| {
      StaysRefused(fork, i + 1, v);
    }
  }

  lemma {:induction false} StaysUncut(fork: seq<Block>, i: nat, c: nat)
    requires i <= |fork| && CutTo(fork, i, c) == None
    ensures CutTo(fork, |fork|, c) == None
    decreases |fork| - i
  {
    if i < |fork| {
      StaysUncut(fork, i + 1, c);
    }
  }

  lemma EmptyIsCommon(s: State, fork: seq<Block>, log: seq<Block>)
    requires !CommonPrefix(s, fork, log)
    ensures fork != []
  {
  }

  lemma EmptyWalk(fork: seq<Block>, v: nat)
    ensures fork == [] ==> WalkTo(fork, |fork|, v) == Some(v)
  {
  }
}
