/** Hints and forks between two log servers: how a lagging node rejoins a peer's chain. */
module Backfill {
  import opened Basics
  import opened Chain

  // ---------------------------------------------------------------- filling a fork

  /** max(first, 1): block 0 does not exist. */
  function Floor(first: nat): nat {
    if first == 0 then 1 else first
  }

  /**
   * `fill_fork` is exact: for a range inside the chain it returns blocks k..last in order, where k is one past
   * the highest matching hint in range, or the start of the range when no hint matches.
   */
  lemma {:induction false} FillForkExact(c: seq<Block>, first: nat, last: nat, hm: map<nat, Digest>) returns (k: nat)
    requires first <= last + 1 && last <= |c|
    ensures Floor(first) <= k <= last + 1
    ensures FillDown(c, first, last, hm) == c[k - 1..last]
    ensures forall i :: k <= i <= last ==> !Matches(c, hm, i)
    ensures k > Floor(first) ==> Matches(c, hm, k - 1)
    decreases last
  {
    hide FillDown, Matches;
    if last < first || last == 0 {
      k := Floor(first);
      FillStops(c, first, last, hm);
    } else if Matches(c, hm, last) {
      k := last + 1;
      FillStops(c, first, last, hm);
    } else {
      k := FillForkExact(c, first, last - 1, hm);
      FillGoesOn(c, first, last, hm);
      SliceSnoc(c, k - 1, last);
    }
  }

  lemma FillStops(c: seq<Block>, first: nat, i: nat, hm: map<nat, Digest>)
    requires i < first || i == 0 || Matches(c, hm, i)
    ensures FillDown(c, first, i, hm) == []
  {
  }

  lemma FillGoesOn(c: seq<Block>, first: nat, i: nat, hm: map<nat, Digest>)
    requires first <= i && 1 <= i <= |c| && !Matches(c, hm, i)
    ensures FillDown(c, first, i, hm) == FillDown(c, first, i - 1, hm) + [c[i - 1]]
  {
  }

  lemma SliceSnoc(c: seq<Block>, a: nat, b: nat)
    requires a < b <= |c|
    ensures c[a..b] == c[a..b - 1] + [c[b - 1]]
  {
  }

  /** A range that ends past the tip gives nothing: the first lookup already fails. */
  lemma FillForkPastTip(c: seq<Block>, first: nat, last: nat, hm: map<nat, Digest>)
    requires last > |c|
    ensures FillDown(c, first, last, hm) == []
  {
  }

  // ---------------------------------------------------------------- hints

  /** Each hint is the chain's own block number and hash. */
  ghost predicate OwnHints(c: seq<Block>, hs: seq<Hint>) {
    forall i :: 0 <= i < |hs| ==> 1 <= hs[i].n <= |c| && hs[i].digest == Sha(c[hs[i].n - 1])
  }

  ghost predicate Increasing(hs: seq<Hint>) {
    forall i, j :: 0 <= i < j < |hs| ==> hs[i].n < hs[j].n
  }

  /** They start at the block asked for, or at the tip when that comes first, and end at the tip. */
  lemma {:induction false} HintsFromEnds(c: seq<Block>, curr: nat, jump: nat, used: nat)
    requires Linked(c) && curr >= 1 && jump >= 1
    ensures var hs := HintsFrom(c, curr, jump, used);
            && (hs == [] <==> c == [])
            && (hs != [] ==> hs[|hs| - 1].n == |c| && hs[0].n == if curr < |c| then curr else |c|)
    decreases |c| - curr
  {
    if curr < |c| {
      HintsFromEnds(c, curr + jump, NextJump(jump, used).0, NextJump(jump, used).1);
    }
  }

  lemma {:induction false} HintsFromOwn(c: seq<Block>, curr: nat, jump: nat, used: nat)
    requires Linked(c) && curr >= 1 && jump >= 1
    ensures OwnHints(c, HintsFrom(c, curr, jump, used))
    decreases |c| - curr
  {
    if curr < |c| {
      hide OwnHints;
      HintsFromOwn(c, curr + jump, NextJump(jump, used).0, NextJump(jump, used).1);
      ConsOwn(c, curr, HintsFrom(c, curr + jump, NextJump(jump, used).0, NextJump(jump, used).1));
    }
  }

  lemma {:induction false} HintsFromIncrease(c: seq<Block>, curr: nat, jump: nat, used: nat)
    requires Linked(c) && curr >= 1 && jump >= 1
    ensures Increasing(HintsFrom(c, curr, jump, used))
    decreases |c| - curr
  {
    if curr < |c| {
      hide Increasing;
      HintsFromIncrease(c, curr + jump, NextJump(jump, used).0, NextJump(jump, used).1);
      HintsFromEnds(c, curr + jump, NextJump(jump, used).0, NextJump(jump, used).1);
      ConsIncreasing(HintAt(c, curr), HintsFrom(c, curr + jump, NextJump(jump, used).0, NextJump(jump, used).1));
    }
  }

  lemma ConsOwn(c: seq<Block>, n: nat, rest: seq<Hint>)
    requires Linked(c) && 1 <= n <= |c| && OwnHints(c, rest)
    ensures OwnHints(c, [HintAt(c, n)] + rest)
  {
  }

  lemma {:induction false} ConsIncreasing(h: Hint, rest: seq<Hint>)
    requires Increasing(rest) && (rest != [] ==> h.n < rest[0].n)
    ensures Increasing([h] + rest)
  {
    var hs := [h] + rest;
    forall i, k | 0 <= i < k < |hs| ensures hs[i].n < hs[k].n {
      assert rest[0].n <= rest[k - 1].n;
    }
  }

  /** Hints are strictly increasing, are the node's own blocks, start at the needed block when it exists and end at the tip. */
  lemma {:induction false} HintsShape(c: seq<Block>, needed: nat)
    requires Linked(c)
    ensures OwnHints(c, Hints(c, needed)) && Increasing(Hints(c, needed))
    ensures Hints(c, needed) == [] <==> c == []
    ensures c != [] ==> Hints(c, needed)[|Hints(c, needed)| - 1] == HintAt(c, |c|)
    ensures HintStart(needed) <= |c| ==> Hints(c, needed)[0] == HintAt(c, HintStart(needed))
  {
    HintsFromEnds(c, HintStart(needed), JUMP_START, 0);
    HintsFromOwn(c, HintStart(needed), JUMP_START, 0);
    HintsFromIncrease(c, HintStart(needed), JUMP_START, 0);
  }

  function Pow10(e: nat): (r: nat)
    ensures r >= 1
  {
    if e == 0 then 1 else 10 * Pow10(e - 1)
  }

  /** How far the first 10 * k jumps reach: 10000 * (10^k - 1) / 9. */
  function Reach(k: nat): nat {
    if k == 0 then 0 else Reach(k - 1) + 10 * (1000 * Pow10(k - 1))
  }

  lemma {:induction false} ReachClosedForm(k: nat)
    ensures 9 * Reach(k) == 10000 * (Pow10(k) - 1)
  {
    if k > 0 {
      ReachClosedForm(k - 1);
    }
  }

  /** The loop state after 10 * level + used hints. */
  predicate OnSchedule(start: nat, curr: nat, jump: nat, used: nat, level: nat) {
    used < 10 && jump == 1000 * Pow10(level) && curr == start + Reach(level) + used * jump
  }

  /**
   * The loop of `GetHints` as a walk: from every scheduled state, the jump never exceeds
   * max(1000, distance covered), and a chain within reach of level k takes at most 10 * k hints plus the tip.
   */
  lemma {:induction false} ScheduleBounds(c: seq<Block>, start: nat, curr: nat, jump: nat, used: nat, level: nat, k: nat)
    requires curr >= 1 && OnSchedule(start, curr, jump, used, level)
    requires |c| <= start + Reach(k)
    ensures jump <= 1000 || jump <= curr - start
    ensures |HintsFrom(c, curr, jump, used)| <= 1 + (if 10 * level + used < 10 * k then 10 * k - 10 * level - used else 0)
    decreases |c| - curr
  {
    ScheduleProgress(start, curr, jump, used, level);
    if curr < |c| {
      if level >= k {
        ReachMonotone(k, level);
        assert false;
      }
      var (j, u) := NextJump(jump, used);
      ScheduleBounds(c, start, curr + jump, j, u, if used + 1 >= 10 then level + 1 else level, k);
    }
  }

  lemma {:induction false} ScheduleProgress(start: nat, curr: nat, jump: nat, used: nat, level: nat)
    requires OnSchedule(start, curr, jump, used, level)
    ensures jump >= 1 && curr >= start + Reach(level) && (level > 0 ==> Reach(level) >= jump)
    ensures OnSchedule(start, curr + jump, NextJump(jump, used).0, NextJump(jump, used).1, if used + 1 >= 10 then level + 1 else level)
  {
    NextUse(used, jump);
    ReachNext(level);
    hide Reach, Pow10;
  }

  lemma NextUse(used: nat, jump: nat)
    ensures (used + 1) * jump == used * jump + jump && used * jump >= 0
  {
  }

  lemma {:induction false} ReachNext(level: nat)
    ensures Reach(level + 1) == Reach(level) + 10 * (1000 * Pow10(level)) && Pow10(level + 1) == 10 * Pow10(level)
    ensures level > 0 ==> Reach(level) >= 1000 * Pow10(level)
  {
    if level > 0 {
      assert Reach(level) == Reach(level - 1) + 10 * (1000 * Pow10(level - 1));
    }
  }

  lemma {:induction false} ReachMonotone(a: nat, b: nat)
    requires a <= b
    ensures Reach(a) <= Reach(b)
  {
    if a < b {
      ReachMonotone(a, b - 1);
    }
  }

  /** A gap of at most 10000 * (10^k - 1) / 9 blocks is described by at most 10 * k + 1 hints. */
  lemma {:induction false} HintCountBound(c: seq<Block>, needed: nat, k: nat)
    requires 9 * (|c| - HintStart(needed)) <= 10000 * (Pow10(k) - 1)
    ensures |Hints(c, needed)| <= 10 * k + 1
  {
    ReachClosedForm(k);
    ScheduleBounds(c, HintStart(needed), HintStart(needed), 1000, 0, 0, k);
  }

  // ---------------------------------------------------------------- the two parties

  lemma {:induction false} HintMapSound(c: seq<Block>, hs: seq<Hint>)
    requires OwnHints(c, hs)
    ensures forall n :: n in HintMap(hs) ==> 1 <= n <= |c| && HintMap(hs)[n] == Sha(c[n - 1])
    ensures forall i :: 0 <= i < |hs| ==> hs[i].n in HintMap(hs)
  {
    if hs != [] {
      HintMapSound(c, hs[..|hs| - 1]);
      forall i | 0 <= i < |hs| ensures hs[i].n in HintMap(hs) {
        assert i < |hs| - 1 ==> hs[..|hs| - 1][i] == hs[i];
      }
    }
  }

  /** What the responder (chain s) answers to the hints of the requester (chain r). */
  function BackfillFork(r: seq<Block>, s: seq<Block>, needed: nat, last: nat): seq<Block> {
    FillDown(s, needed, last, HintMap(Hints(r, needed)))
  }

  /** What `ensure_common_prefix` asks the log server: is the fork's parent in the requester's log? */
  predicate ParentKnown(r: seq<Block>, fork: seq<Block>)
    requires fork != [] && fork[0].n >= 1
  {
    CheckHash(r, fork[0].n - 1, fork[0].parent)
  }

  lemma {:induction false} ParentKnownIffAgree(r: seq<Block>, s: seq<Block>, k: nat)
    requires Linked(r) && Linked(s) && 1 <= k <= |s|
    ensures CheckHash(r, k - 1, s[k - 1].parent) <==> AgreeAt(r, s, k - 1)
  {
    if k > 1 {
      assert NamesParent(s, k - 1);
    }
  }

  /**
   * The answer is a segment of the responder's chain. The requester accepts its parent exactly when the two chains
   * agree just below the requested range, and then they agree on everything below the segment.
   */
  lemma {:induction false} BackfillExact(r: seq<Block>, s: seq<Block>, needed: nat, last: nat)
    requires Linked(r) && Linked(s) && needed <= last <= |s|
    ensures var fork := BackfillFork(r, s, needed, last);
            fork != [] ==>
              && Floor(needed) <= fork[0].n <= last && fork == s[fork[0].n - 1..last]
              && (ParentKnown(r, fork) <==> AgreeAt(r, s, Floor(needed) - 1))
              && (ParentKnown(r, fork) ==> fork[0].n - 1 <= |r| && r[..fork[0].n - 1] == s[..fork[0].n - 1])
              && (!ParentKnown(r, fork) ==> fork[0].n == Floor(needed))
  {
    var hm := HintMap(Hints(r, needed));
    HintsShape(r, needed);
    HintMapSound(r, Hints(r, needed));
    var k := FillForkExact(s, needed, last, hm);
    var fork := BackfillFork(r, s, needed, last);
    if fork != [] {
      assert fork == s[k - 1..last] && fork[0] == s[k - 1] && s[k - 1].n == k;
      ParentKnownIffAgree(r, s, k);
      if k > Floor(needed) {
        assert AgreeAt(r, s, k - 1);
        AgreementIsDownwardClosed(r, s, Floor(needed) - 1, k - 1);
      }
      if AgreeAt(r, s, k - 1) {
        AgreementIsPrefix(r, s, k - 1);
      }
    }
  }

  /** Chains that agree at the first block asked for, or a request from the start: any answer fits, and they agree below it. */
  lemma {:induction false} BackfillAccepted(r: seq<Block>, s: seq<Block>, needed: nat, last: nat)
    requires Linked(r) && Linked(s) && needed <= last <= |s| && AgreeAt(r, s, needed)
    ensures var fork := BackfillFork(r, s, needed, last);
            fork != [] ==>
              && 1 <= fork[0].n <= last && fork[0].n - 1 <= |r| && ParentKnown(r, fork)
              && r[..fork[0].n - 1] == s[..fork[0].n - 1] && fork == s[fork[0].n - 1..last]
  {
    BackfillExact(r, s, needed, last);
    AgreementIsDownwardClosed(r, s, Floor(needed) - 1, needed);
  }

  /** An empty answer means the requester already has the responder's chain up to `last`. */
  lemma {:induction false} EmptyAnswerMeansCaughtUp(r: seq<Block>, s: seq<Block>, needed: nat, last: nat)
    requires Linked(r) && Linked(s) && needed <= last <= |s| && 1 <= last
    requires BackfillFork(r, s, needed, last) == []
    ensures last <= |r| && r[..last] == s[..last]
  {
    var hm := HintMap(Hints(r, needed));
    HintsShape(r, needed);
    HintMapSound(r, Hints(r, needed));
    var k := FillForkExact(s, needed, last, hm);
    assert AgreeAt(r, s, last);
    AgreementIsPrefix(r, s, last);
  }

  /** Accepting the answer and replacing what follows its parent leaves the responder's chain. */
  lemma {:induction false} CaughtUpAfterBackfill(r: seq<Block>, s: seq<Block>, needed: nat, last: nat)
    requires Linked(r) && Linked(s) && needed <= last <= |s|
    requires BackfillFork(r, s, needed, last) != [] && AgreeAt(r, s, Floor(needed) - 1)
    ensures var fork := BackfillFork(r, s, needed, last);
            1 <= fork[0].n <= |r| + 1 && r[..fork[0].n - 1] + fork == s[..last]
  {
    BackfillExact(r, s, needed, last);
  }

  // ---------------------------------------------------------------- nack rounds

  /** `send_nack`: ask again from 100 blocks further back. */
  function NackNeeded(firstN: nat): nat {
    if firstN > 100 then firstN - 100 else 0
  }

  /**
   * The retry loop between fork receiver and responder, starting from an AppendEntries that carries blocks
   * f..last of the responder's chain: how many nacks go out before a fork is accepted, and where that fork starts.
   */
  function NackRounds(r: seq<Block>, s: seq<Block>, f: nat, last: nat): (res: (nat, nat))
    requires 1 <= f <= last <= |s|
    decreases f
  {
    if CheckHash(r, f - 1, s[f - 1].parent) then (0, f)
    else
      var fork := BackfillFork(r, s, NackNeeded(f), last);
      if fork == [] || !(1 <= fork[0].n < f) then (1, f)
      else
        var rest := NackRounds(r, s, fork[0].n, last);
        (rest.0 + 1, rest.1)
  }

  /** The answer to a nack for a rejected fork starts earlier, and is accepted or starts where it was asked to. */
  lemma {:induction false} NackAnswer(r: seq<Block>, s: seq<Block>, f: nat, last: nat)
    requires Linked(r) && Linked(s) && 1 <= f <= last <= |s| && !AgreeAt(r, s, f - 1)
    ensures var fork := BackfillFork(r, s, NackNeeded(f), last);
            && fork != [] && 1 <= fork[0].n < f
            && (CheckHash(r, fork[0].n - 1, s[fork[0].n - 1].parent) || (fork[0].n == f - 100 && f > 100))
  {
    hide Linked, BackfillFork;
    var needed := NackNeeded(f);
    var fork := BackfillFork(r, s, needed, last);
    if fork == [] {
      EmptyAnswerMeansCaughtUp(r, s, needed, last);
      assert AgreeAt(r, s, last);
      AgreementIsDownwardClosed(r, s, f - 1, last);
      assert false;
    }
    BackfillExact(r, s, needed, last);
    var k := fork[0].n;
    assert fork[0] == s[k - 1];
  }

  /** Every rejected fork is answered by a longer one, so within f / 100 + 1 nacks the nodes meet. */
  lemma {:induction false} NackRoundsConverge(r: seq<Block>, s: seq<Block>, f: nat, last: nat)
    requires Linked(r) && Linked(s) && 1 <= f <= last <= |s|
    ensures var (rounds, start) := NackRounds(r, s, f, last);
            && rounds <= (f + 99) / 100
            && 1 <= start <= f && start - 1 <= |r|
            && CheckHash(r, start - 1, s[start - 1].parent)
            && r[..start - 1] + s[start - 1..last] == s[..last]
    decreases f
  {
    hide Linked, BackfillFork, CheckHash, NackNeeded;
    ParentKnownIffAgree(r, s, f);
    if AgreeAt(r, s, f - 1) {
      Join(r, s, f - 1, last);
    } else {
      NackAnswer(r, s, f, last);
      NackRoundsConverge(r, s, BackfillFork(r, s, NackNeeded(f), last)[0].n, last);
    }
  }

  lemma {:induction false} Join(r: seq<Block>, s: seq<Block>, n: nat, last: nat)
    requires Linked(r) && Linked(s) && AgreeAt(r, s, n) && n <= last <= |s|
    ensures n <= |r| && r[..n] + s[n..last] == s[..last]
  {
    AgreementIsPrefix(r, s, n);
  }
}
