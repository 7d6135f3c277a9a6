/**
 * The rendezvous of requests and commit acknowledgements: every request handed in is pending or has exactly one answer,
 * and without cancellation the answers do not depend on who came first.
 */
module ReplyAccounting {
  import opened Basics
  import opened Chain
  import opened ReplyHandlers

  // ---------------------------------------------------------------- channels and hashes do not repeat

  ghost predicate ChannelsDiffer(bs: seq<BatchRecord>) {
    forall k, i, l, j :: 0 <= k < |bs| && 0 <= i < |bs[k].chans| && 0 <= l < |bs| && 0 <= j < |bs[l].chans| && (k, i) != (l, j)
      ==> bs[k].chans[i] != bs[l].chans[j]
  }

  ghost predicate HashesDiffer(bs: seq<BatchRecord>) {
    forall j, k :: 0 <= j < k < |bs| && bs[j].hash.Some? ==> bs[j].hash != bs[k].hash
  }

  /** `own` says which batch a channel belongs to. */
  ghost predicate Distinct(bs: seq<BatchRecord>, own: map<Chan, nat>) {
    && (forall k, i :: 0 <= k < |bs| && 0 <= i < |bs[k].chans| ==> bs[k].chans[i] in own && own[bs[k].chans[i]] == k)
    && (forall k, i, j :: 0 <= k < |bs| && 0 <= i < j < |bs[k].chans| ==> bs[k].chans[i] != bs[k].chans[j])
    && HashesDiffer(bs)
  }

  function OwnersOf(bs: seq<BatchRecord>): map<Chan, nat> {
    if bs == [] then map[]
    else OwnersOf(bs[..|bs| - 1]) + OwnedBy(bs[|bs| - 1].chans, |bs| - 1)
  }

  function OwnedBy(chans: seq<Chan>, k: nat): map<Chan, nat> {
    map c | c in chans :: k
  }

  lemma {:induction false} OwnersExact(bs: seq<BatchRecord>)
    requires ChannelsDiffer(bs)
    ensures forall k, i :: 0 <= k < |bs| && 0 <= i < |bs[k].chans| ==> bs[k].chans[i] in OwnersOf(bs) && OwnersOf(bs)[bs[k].chans[i]] == k
  {
    if bs != [] {
      var front, last := bs[..|bs| - 1], bs[|bs| - 1];
      OwnersExact(front);
      forall k, i | 0 <= k < |bs| && 0 <= i < |bs[k].chans| ensures bs[k].chans[i] in OwnersOf(bs) && OwnersOf(bs)[bs[k].chans[i]] == k {
        if k < |front| {
          assert front[k] == bs[k];
          forall j | 0 <= j < |last.chans| ensures last.chans[j] != bs[k].chans[i] {
            assert bs[|front|].chans[j] == last.chans[j];
          }
        }
      }
    }
  }

  lemma {:induction false} DifferentChannelsAreOwned(bs: seq<BatchRecord>)
    requires ChannelsDiffer(bs) && HashesDiffer(bs)
    ensures Distinct(bs, OwnersOf(bs))
  {
    OwnersExact(bs);
  }

  // ---------------------------------------------------------------- answers, batch by batch

  predicate Concerns(o: Out, k: nat, own: map<Chan, nat>) {
    (o.Receipt? || o.TryAgain?) && o.chan in own && own[o.chan] == k
  }

  /** Which byzantine responses ride along depends on the schedule; the rest of a receipt does not. */
  function Strip(o: Out): Out {
    if o.Receipt? then o.(byz := []) else o
  }

  /** The answers sent to the channels of batch k, in order. */
  function AnswersFor(out: seq<Out>, k: nat, own: map<Chan, nat>): seq<Out> {
    if out == [] then []
    else
      var o := out[|out| - 1];
      AnswersFor(out[..|out| - 1], k, own) + if Concerns(o, k, own) then [Strip(o)] else []
  }

  lemma {:induction false} AnswersConcat(a: seq<Out>, b: seq<Out>, k: nat, own: map<Chan, nat>)
    ensures AnswersFor(a + b, k, own) == AnswersFor(a, k, own) + AnswersFor(b, k, own)
  {
    if b == [] {
      assert a + b == a;
    } else {
      hide AnswersFor, Concerns, Strip;
      var front, o := b[..|b| - 1], b[|b| - 1];
      AnswersConcat(a, front, k, own);
      AnswersSnoc(front, o, k, own);
      AnswersSnoc(a + front, o, k, own);
      assert b == front + [o] && a + b == (a + front) + [o];
    }
  }

  lemma {:induction false} NoAnswers(out: seq<Out>, k: nat, own: map<Chan, nat>)
    requires forall o :: o in out ==> !Concerns(o, k, own)
    ensures AnswersFor(out, k, own) == []
  {
    if out != [] {
      NoAnswers(out[..|out| - 1], k, own);
      assert out[|out| - 1] in out;
    }
  }

  lemma {:induction false} TryAgainsAnswers(chans: seq<Chan>, b: nat, k: nat, own: map<Chan, nat>)
    requires forall c :: c in chans ==> c in own && own[c] == b
    ensures AnswersFor(TryAgains(chans), k, own) == if b == k then TryAgains(chans) else []
  {
    if chans != [] {
      var head, rest := [TryAgain(chans[0])], TryAgains(chans[1..]);
      AnswersConcat(head, rest, k, own);
      TryAgainsAnswers(chans[1..], b, k, own);
      assert chans[0] in chans;
      assert AnswersFor(head, k, own) == if b == k then head else [] by { assert head[..0] == []; }
    }
  }

  /** The first i receipts of a block. */
  function ReceiptsOf(h: Digest, ack: CrashAck, chans: seq<Chan>, i: nat): seq<Out>
    requires i <= |chans| == |ack.results|
  {
    if i == 0 then [] else ReceiptsOf(h, ack, chans, i - 1) + [Receipt(ack.n, i - 1, h, ack.results[i - 1], chans[i - 1], [])]
  }

  lemma {:induction false} CrashReplyAnswers(s: State, h: Digest, ack: CrashAck, chans: seq<Chan>, i: nat, b: nat, k: nat, own: map<Chan, nat>)
    requires i <= |chans| == |ack.results| && forall c :: c in chans ==> c in own && own[c] == b
    ensures AnswersFor(CrashReply(s, h, ack, chans, i).out, k, own)
         == AnswersFor(s.out, k, own) + if b == k then ReceiptsOf(h, ack, chans, i) else []
    decreases i
  {
    if i == 0 {
      assert AnswersFor(s.out, k, own) + [] == AnswersFor(s.out, k, own);
    } else {
      hide AnswersFor, CrashReply;
      CrashReplyAnswers(s, h, ack, chans, i - 1, b, k, own);
      var t, c := CrashReply(s, h, ack, chans, i - 1), chans[i - 1];
      assert c in chans;
      CrashReplyLast(s, h, ack, chans, i);
      var o := Receipt(ack.n, i - 1, h, ack.results[i - 1], c, Stored(t, c.sender));
      AnswersSnoc(t.out, o, k, own);
      assert ReceiptsOf(h, ack, chans, i) == ReceiptsOf(h, ack, chans, i - 1) + [Strip(o)];
      hide ReceiptsOf, Strip, Stored;
      assert AnswersFor(s.out, k, own) + (ReceiptsOf(h, ack, chans, i - 1) + [Strip(o)])
          == AnswersFor(s.out, k, own) + ReceiptsOf(h, ack, chans, i - 1) + [Strip(o)];
    }
  }

  lemma CrashReplyLast(s: State, h: Digest, ack: CrashAck, chans: seq<Chan>, i: nat)
    requires 0 < i <= |chans| == |ack.results|
    ensures var t, c := CrashReply(s, h, ack, chans, i - 1), chans[i - 1];
            CrashReply(s, h, ack, chans, i).out == t.out + [Receipt(ack.n, i - 1, h, ack.results[i - 1], c, Stored(t, c.sender))]
  {
  }

  lemma {:induction false} AnswersSnoc(out: seq<Out>, o: Out, k: nat, own: map<Chan, nat>)
    ensures AnswersFor(out + [o], k, own) == AnswersFor(out, k, own) + if Concerns(o, k, own) then [Strip(o)] else []
  {
    assert (out + [o])[..|out|] == out;
  }

  lemma {:induction false} DueProbesExact(probes: map<nat, seq<Chan>>, bci: nat, o: Out)
    ensures o in DueProbes(probes, bci) <==> o.ProbeReceipt? && o.n in probes && o.n <= bci && o.chans == probes[o.n]
    decreases probes.Keys
  {
    assert forall k :: k in probes && k <= bci ==> k in Due(probes, bci);
    if Due(probes, bci) != {} {
      DueProbesExact(probes - {Least(Due(probes, bci))}, bci, o);
    }
  }

  lemma {:induction false} DueProbesConcernNone(probes: map<nat, seq<Chan>>, bci: nat, k: nat, own: map<Chan, nat>)
    ensures AnswersFor(DueProbes(probes, bci), k, own) == []
  {
    forall o | o in DueProbes(probes, bci) ensures !Concerns(o, k, own) {
      DueProbesExact(probes, bci, o);
    }
    NoAnswers(DueProbes(probes, bci), k, own);
  }

  // ---------------------------------------------------------------- accounting

  ghost predicate Pending(s: State, b: BatchRecord) {
    b.hash.Some? && b.hash.value in s.replyMap && s.replyMap[b.hash.value] == b.chans
  }

  ghost predicate WaitsFor(s: State, h: Option<Digest>) {
    h.Some? && h.value in s.replyMap
  }

  ghost predicate AnsweredBy(answers: seq<Out>, b: BatchRecord, ack: CrashAck) {
    b.hash.Some? && |ack.results| == |b.chans| && answers == ReceiptsOf(b.hash.value, ack, b.chans, |b.chans|)
  }

  /**
   * Still pending with no answer out, or every channel has its receipt, or every channel was told to try again.
   * As long as nothing was cancelled, only batches the sequencer refused are told to try again.
   */
  ghost predicate Accounted(s: State, b: BatchRecord, acks: set<(Digest, CrashAck)>, cancelled: bool, answers: seq<Out>) {
    if WaitsFor(s, b.hash) then Pending(s, b) && answers == []
    else ((b.hash == None || cancelled) && answers == TryAgains(b.chans)) || AckedAndAnswered(b, acks, answers)
  }

  ghost predicate AckedAndAnswered(b: BatchRecord, acks: set<(Digest, CrashAck)>, answers: seq<Out>) {
    b.hash.Some? && exists ack :: (b.hash.value, ack) in acks && AnsweredBy(answers, b, ack)
  }

  ghost predicate Arrived(bs: seq<BatchRecord>, h: Digest) {
    exists k :: 0 <= k < |bs| && bs[k].hash == Some(h)
  }

  /** Without cancellation an acknowledged block is never left waiting, and an early acknowledgement is kept. */
  ghost predicate Prompt(s: State, bs: seq<BatchRecord>, acks: set<(Digest, CrashAck)>) {
    && !s.mustCancel
    && (forall p :: p in acks ==> p.0 !in s.replyMap && (p.0 in s.crashBuf || Arrived(bs, p.0)))
  }

  ghost predicate Inv(s: State, bs: seq<BatchRecord>, acks: set<(Digest, CrashAck)>, cancelled: bool, own: map<Chan, nat>) {
    && AllAccounted(s, bs, acks, cancelled, own)
    && (forall h :: h in s.replyMap ==> Arrived(bs, h))
    && (forall h :: h in s.crashBuf ==> (h, s.crashBuf[h]) in acks)
    && s.replyMap.Keys !! s.crashBuf.Keys
    && (cancelled || Prompt(s, bs, acks))
  }

  ghost predicate AllAccounted(s: State, bs: seq<BatchRecord>, acks: set<(Digest, CrashAck)>, cancelled: bool, own: map<Chan, nat>) {
    && (forall k :: 0 <= k < |bs| ==> Accounted(s, bs[k], acks, cancelled, AnswersFor(s.out, k, own)))
    && (forall k :: k >= |bs| ==> AnswersFor(s.out, k, own) == [])
  }

  ghost predicate SameWait(s: State, s': State, b: BatchRecord) {
    b.hash.Some? ==> (b.hash.value in s.replyMap <==> b.hash.value in s'.replyMap)
                     && (b.hash.value in s.replyMap ==> s'.replyMap[b.hash.value] == s.replyMap[b.hash.value])
  }

  /** Batch n alone got answers or changed its place in the reply map. */
  ghost predicate OnlyBatch(s: State, s': State, bs: seq<BatchRecord>, n: nat, own: map<Chan, nat>) {
    && (forall k :: 0 <= k < |bs| && k != n ==> SameWait(s, s', bs[k]))
    && (forall k :: k != n ==> AnswersFor(s'.out, k, own) == AnswersFor(s.out, k, own))
  }

  lemma {:induction false} AccountedStays(s: State, s': State, b: BatchRecord, acks: set<(Digest, CrashAck)>, acks': set<(Digest, CrashAck)>,
                       c: bool, c': bool, answers: seq<Out>)
    requires Accounted(s, b, acks, c, answers) && SameWait(s, s', b) && acks <= acks' && (c ==> c')
    ensures Accounted(s', b, acks', c', answers)
  {
    if AckedAndAnswered(b, acks, answers) {
      var ack :| (b.hash.value, ack) in acks && AnsweredBy(answers, b, ack);
      assert (b.hash.value, ack) in acks';
    }
  }

  lemma {:induction false} OthersStay(s: State, s': State, bs: seq<BatchRecord>, bs': seq<BatchRecord>,
                   acks: set<(Digest, CrashAck)>, acks': set<(Digest, CrashAck)>, c: bool, c': bool, n: nat, own: map<Chan, nat>)
    requires AllAccounted(s, bs, acks, c, own) && bs <= bs' && |bs'| <= |bs| + 1 && acks <= acks' && (c ==> c')
    requires OnlyBatch(s, s', bs, n, own) && n < |bs'| && (|bs| < |bs'| ==> n == |bs|)
    requires Accounted(s', bs'[n], acks', c', AnswersFor(s'.out, n, own))
    ensures AllAccounted(s', bs', acks', c', own)
  {
    hide Accounted, AnswersFor, SameWait;
    forall k | 0 <= k < |bs'| ensures Accounted(s', bs'[k], acks', c', AnswersFor(s'.out, k, own)) {
      if k != n {
        AccountedStays(s, s', bs[k], acks, acks', c, c', AnswersFor(s.out, k, own));
      }
    }
  }

  /** A refused batch: every channel is told to try again. */
  lemma {:induction false} RefuseKeeps(s: State, bs: seq<BatchRecord>, acks: set<(Digest, CrashAck)>, cancelled: bool, b: BatchRecord, own: map<Chan, nat>)
    requires Inv(s, bs, acks, cancelled, own) && Distinct(bs + [b], own)
    requires b.hash == None || cancelled
    ensures Inv(s.(out := s.out + TryAgains(b.chans)), bs + [b], acks, cancelled, own)
  {
    hide AnswersFor, TryAgains, Arrived;
    var s', n := s.(out := s.out + TryAgains(b.chans)), |bs|;
    BatchNumbers(bs + [b], n, own);
    forall k: nat ensures AnswersFor(s'.out, k, own) == AnswersFor(s.out, k, own) + if k == n then TryAgains(b.chans) else [] {
      AnswersConcat(s.out, TryAgains(b.chans), k, own);
      TryAgainsAnswers(b.chans, n, k, own);
    }
    NotYetWaiting(s, bs, acks, cancelled, b, own);
    OthersStay(s, s', bs, bs + [b], acks, acks, cancelled, cancelled, n, own);
    ArrivedGrows(bs, b);
  }

  lemma BatchNumbers(bs: seq<BatchRecord>, n: nat, own: map<Chan, nat>)
    requires Distinct(bs, own) && n < |bs|
    ensures forall c :: c in bs[n].chans ==> c in own && own[c] == n
    ensures forall k :: 0 <= k < |bs| && k != n && bs[n].hash.Some? ==> bs[k].hash != bs[n].hash
  {
  }

  lemma {:induction false} ArrivedGrows(bs: seq<BatchRecord>, b: BatchRecord)
    ensures forall h :: Arrived(bs, h) ==> Arrived(bs + [b], h)
    ensures b.hash.Some? ==> Arrived(bs + [b], b.hash.value)
  {
    forall h | Arrived(bs, h) ensures Arrived(bs + [b], h) {
      var k :| 0 <= k < |bs| && bs[k].hash == Some(h);
      assert (bs + [b])[k].hash == Some(h);
    }
    assert (bs + [b])[|bs|] == b;
  }

  /** Steps that answer no batch and leave the rendezvous maps alone. */
  lemma {:induction false} QuietKeeps(s: State, s': State, bs: seq<BatchRecord>, acks: set<(Digest, CrashAck)>, cancelled: bool, own: map<Chan, nat>)
    requires Inv(s, bs, acks, cancelled, own) && s'.replyMap == s.replyMap && s'.crashBuf == s.crashBuf
    requires !cancelled ==> !s'.mustCancel
    requires forall k :: AnswersFor(s'.out, k, own) == AnswersFor(s.out, k, own)
    ensures Inv(s', bs, acks, cancelled, own)
  {
    hide AnswersFor, Arrived;
    forall k | 0 <= k < |bs| ensures Accounted(s', bs[k], acks, cancelled, AnswersFor(s'.out, k, own)) {
      AccountedStays(s, s', bs[k], acks, acks, cancelled, cancelled, AnswersFor(s.out, k, own));
    }
  }

  lemma {:induction false} ClearProbesQuiet(s: State, k: nat, own: map<Chan, nat>)
    ensures AnswersFor(ClearProbes(s).out, k, own) == AnswersFor(s.out, k, own)
  {
    hide AnswersFor, DueProbes;
    AnswersConcat(s.out, DueProbes(s.probes, s.ackedBci), k, own);
    DueProbesConcernNone(s.probes, s.ackedBci, k, own);
  }

  lemma {:induction false} DoByzQuiet(s: State, ack: ByzAck, chans: seq<Chan>, k: nat, own: map<Chan, nat>)
    requires |chans| == |ack.responses|
    ensures AnswersFor(DoByz(s, ack, chans).out, k, own) == AnswersFor(s.out, k, own)
  {
    hide AnswersFor, ClearProbes, KeepResponses;
    var t := KeepResponses(s, ack, chans, |chans|);
    ClearProbesQuiet(t.(ackedBci := if ack.n > t.ackedBci then ack.n else t.ackedBci), k, own);
  }

  /** Early acknowledgements aside, an accepted batch starts to wait; with one, it is answered at once. */
  lemma {:induction false} AcceptKeeps(s: State, bs: seq<BatchRecord>, acks: set<(Digest, CrashAck)>, cancelled: bool, h: Digest, chans: seq<Chan>, own: map<Chan, nat>)
    requires Inv(s, bs, acks, cancelled, own) && Distinct(bs + [BatchRecord(Some(h), chans)], own)
    requires Legal(s, Batch(Some(h), chans)) && !s.mustCancel
    ensures Inv(AcceptBatch(s, h, chans), bs + [BatchRecord(Some(h), chans)], acks, cancelled, own)
  {
    hide AnswersFor, Arrived, DoByz, CrashReply, TryAgains, Distinct, AllAccounted;
    var b, n := BatchRecord(Some(h), chans), |bs|;
    var s0 := s.(byzReplyMap := s.byzReplyMap[h := chans], replyMap := s.replyMap[h := chans]);
    var s1, s' := ClearByzBuf(s0, h, chans), AcceptBatch(s, h, chans);
    BatchNumbers(bs + [b], n, own);
    NotYetWaiting(s, bs, acks, cancelled, b, own);
    forall k: nat ensures AnswersFor(s1.out, k, own) == AnswersFor(s.out, k, own) {
      if h in s0.byzBuf {
        DoByzQuiet(s0.(byzBuf := s0.byzBuf - {h}, byzReplyMap := s0.byzReplyMap - {h}), s.byzBuf[h], chans, k, own);
      }
    }
    if h in s.crashBuf {
      var t := s1.(crashBuf := s1.crashBuf - {h}, replyMap := s1.replyMap - {h});
      forall k: nat ensures AnswersFor(s'.out, k, own)
          == AnswersFor(s.out, k, own) + if k == n then ReceiptsOf(h, s.crashBuf[h], chans, |chans|) else [] {
        CrashReplyAnswers(t, h, s.crashBuf[h], chans, |chans|, n, k, own);
      }
      assert s'.replyMap == s.replyMap;
      assert AnsweredBy(AnswersFor(s'.out, n, own), b, s.crashBuf[h]) && (h, s.crashBuf[h]) in acks;
      assert AckedAndAnswered(b, acks, AnswersFor(s'.out, n, own));
    }
    AcceptFinish(s, s', bs, acks, cancelled, b, own);
  }

  lemma {:induction false} NotYetWaiting(s: State, bs: seq<BatchRecord>, acks: set<(Digest, CrashAck)>, cancelled: bool, b: BatchRecord, own: map<Chan, nat>)
    requires Inv(s, bs, acks, cancelled, own) && Distinct(bs + [b], own)
    ensures !WaitsFor(s, b.hash) && AnswersFor(s.out, |bs|, own) == []
  {
    hide AnswersFor, Distinct;
    if b.hash.Some? {
      NotYetArrived(bs, b, own);
    }
  }

  ghost predicate Accepted(s: State, s': State, acks: set<(Digest, CrashAck)>, n: nat, b: BatchRecord, own: map<Chan, nat>) {
    && b.hash.Some? && b.hash.value !in s.replyMap
    && (forall k :: k != n ==> AnswersFor(s'.out, k, own) == AnswersFor(s.out, k, own))
    && s'.crashBuf == s.crashBuf - {b.hash.value} && s'.mustCancel == s.mustCancel
    && if b.hash.value in s.crashBuf
       then s'.replyMap == s.replyMap && AckedAndAnswered(b, acks, AnswersFor(s'.out, n, own))
       else s'.replyMap == s.replyMap[b.hash.value := b.chans] && AnswersFor(s'.out, n, own) == []
  }

  lemma {:induction false} AcceptAccounts(s: State, s': State, bs: seq<BatchRecord>, acks: set<(Digest, CrashAck)>, cancelled: bool, b: BatchRecord, own: map<Chan, nat>)
    requires AllAccounted(s, bs, acks, cancelled, own) && Distinct(bs + [b], own) && Accepted(s, s', acks, |bs|, b, own)
    ensures AllAccounted(s', bs + [b], acks, cancelled, own)
  {
    hide AnswersFor, AckedAndAnswered, AllAccounted, Distinct;
    BatchNumbers(bs + [b], |bs|, own);
    assert (bs + [b])[|bs|] == b;
    forall k | 0 <= k < |bs| ensures SameWait(s, s', bs[k]) {
      assert bs[k] == (bs + [b])[k];
    }
    OthersStay(s, s', bs, bs + [b], acks, acks, cancelled, cancelled, |bs|, own);
  }

  lemma {:induction false} AcceptFinish(s: State, s': State, bs: seq<BatchRecord>, acks: set<(Digest, CrashAck)>, cancelled: bool, b: BatchRecord, own: map<Chan, nat>)
    requires Inv(s, bs, acks, cancelled, own) && Distinct(bs + [b], own) && Accepted(s, s', acks, |bs|, b, own)
    ensures Inv(s', bs + [b], acks, cancelled, own)
  {
    AcceptAccounts(s, s', bs, acks, cancelled, b, own);
    hide AnswersFor, AckedAndAnswered, Arrived, AllAccounted, Distinct;
    ArrivedGrows(bs, b);
    NotYetArrived(bs, b, own);
  }

  lemma {:induction false} NotYetArrived(bs: seq<BatchRecord>, b: BatchRecord, own: map<Chan, nat>)
    requires Distinct(bs + [b], own) && b.hash.Some?
    ensures !Arrived(bs, b.hash.value)
  {
    BatchNumbers(bs + [b], |bs|, own);
    forall k | 0 <= k < |bs| ensures bs[k].hash != b.hash {
      assert (bs + [b])[k] == bs[k];
    }
  }

  lemma {:induction false} CrashAnswersPending(s: State, bs: seq<BatchRecord>, acks: set<(Digest, CrashAck)>, cancelled: bool, h: Digest, ack: CrashAck, own: map<Chan, nat>)
    requires Inv(s, bs, acks, cancelled, own) && Distinct(bs, own) && Legal(s, Crash(h, ack)) && h in s.replyMap
    ensures Inv(Step(s, Crash(h, ack)), bs, acks + {(h, ack)}, cancelled, own)
  {
    hide AnswersFor, CrashReply, TryAgains, Distinct, ReceiptsOf, AckedAndAnswered, Prompt;
    var s', chans := Step(s, Crash(h, ack)), s.replyMap[h];
    assert Arrived(bs, h);
    var n :| 0 <= n < |bs| && bs[n].hash == Some(h);
    hide Arrived;
    BatchNumbers(bs, n, own);
    assert Accounted(s, bs[n], acks, cancelled, AnswersFor(s.out, n, own));
    assert AllAccounted(s, bs, acks, cancelled, own);
    hide AllAccounted;
    var t := s.(replyMap := s.replyMap - {h});
    forall k: nat ensures AnswersFor(s'.out, k, own) == AnswersFor(s.out, k, own) + if k == n then ReceiptsOf(h, ack, chans, |chans|) else [] {
      CrashReplyAnswers(t, h, ack, chans, |chans|, n, k, own);
    }
    assert AnsweredBy(AnswersFor(s'.out, n, own), bs[n], ack);
    CrashFinish(s, s', bs, acks, cancelled, n, ack, own);
  }

  lemma {:induction false} CrashComesEarly(s: State, bs: seq<BatchRecord>, acks: set<(Digest, CrashAck)>, cancelled: bool, h: Digest, ack: CrashAck, own: map<Chan, nat>)
    requires Inv(s, bs, acks, cancelled, own) && h !in s.replyMap
    ensures Inv(s.(crashBuf := s.crashBuf[h := ack]), bs, acks + {(h, ack)}, cancelled, own)
  {
    hide AnswersFor, AckedAndAnswered, Arrived;
    var s', acks' := s.(crashBuf := s.crashBuf[h := ack]), acks + {(h, ack)};
    forall k | 0 <= k < |bs| ensures Accounted(s', bs[k], acks', cancelled, AnswersFor(s'.out, k, own)) {
      AccountedStays(s, s', bs[k], acks, acks', cancelled, cancelled, AnswersFor(s.out, k, own));
    }
  }

  lemma {:induction false} CrashFinish(s: State, s': State, bs: seq<BatchRecord>, acks: set<(Digest, CrashAck)>, cancelled: bool, n: nat, ack: CrashAck, own: map<Chan, nat>)
    requires Inv(s, bs, acks, cancelled, own) && Distinct(bs, own) && n < |bs| && WaitsFor(s, bs[n].hash)
    requires s'.replyMap == s.replyMap - {bs[n].hash.value} && s'.crashBuf == s.crashBuf && s'.mustCancel == s.mustCancel
    requires forall k :: k != n ==> AnswersFor(s'.out, k, own) == AnswersFor(s.out, k, own)
    requires AnsweredBy(AnswersFor(s'.out, n, own), bs[n], ack)
    ensures Inv(s', bs, acks + {(bs[n].hash.value, ack)}, cancelled, own)
  {
    hide AnswersFor, AnsweredBy, Arrived, AllAccounted, Distinct;
    BatchNumbers(bs, n, own);
    var acks' := acks + {(bs[n].hash.value, ack)};
    assert AckedAndAnswered(bs[n], acks', AnswersFor(s'.out, n, own)) by {
      assert (bs[n].hash.value, ack) in acks';
    }
    assert Arrived(bs, bs[n].hash.value);
    assert AllAccounted(s', bs, acks', cancelled, own) by {
      hide AckedAndAnswered;
      OthersStay(s, s', bs, bs, acks, acks', cancelled, cancelled, n, own);
    }
  }

  lemma {:induction false} CancelAnswers(m: map<Digest, seq<Chan>>, order: seq<Digest>, bs: seq<BatchRecord>, k: nat, own: map<Chan, nat>)
    requires Distinct(bs, own) && forall i, j :: 0 <= i < j < |order| ==> order[i] != order[j]
    requires forall h :: h in order ==> h in m && Owner(m, bs, h)
    ensures AnswersFor(CancelPending(m, order), k, own)
         == if k < |bs| && bs[k].hash.Some? && bs[k].hash.value in order then TryAgains(bs[k].chans) else []
  {
    hide AnswersFor, TryAgains;
    if order == [] {
      NoAnswers([], k, own);
    } else {
      var h, rest := order[0], order[1..];
      assert h in order && forall g :: g in rest ==> g in order;
      assert Owner(m, bs, h);
      var n :| 0 <= n < |bs| && bs[n] == BatchRecord(Some(h), m[h]);
      CancelAnswers(m, rest, bs, k, own);
      BatchNumbers(bs, n, own);
      TryAgainsAnswers(m[h], n, k, own);
      AnswersConcat(TryAgains(m[h]), CancelPending(m, rest), k, own);
      assert h !in rest && forall g :: g in order <==> g == h || g in rest;
    }
  }

  ghost predicate Owner(m: map<Digest, seq<Chan>>, bs: seq<BatchRecord>, h: Digest)
    requires h in m
  {
    exists k :: 0 <= k < |bs| && bs[k] == BatchRecord(Some(h), m[h])
  }

  /** Every hash in the reply map belongs to the batch that waits there. */
  lemma {:induction false} PendingOwner(s: State, bs: seq<BatchRecord>, acks: set<(Digest, CrashAck)>, cancelled: bool, h: Digest, own: map<Chan, nat>)
    requires Inv(s, bs, acks, cancelled, own) && h in s.replyMap
    ensures Owner(s.replyMap, bs, h)
  {
    hide AnswersFor, TryAgains, AckedAndAnswered, Prompt;
    assert Arrived(bs, h);
    var k :| 0 <= k < |bs| && bs[k].hash == Some(h);
    assert Accounted(s, bs[k], acks, cancelled, AnswersFor(s.out, k, own));
    assert bs[k] == BatchRecord(Some(h), s.replyMap[h]);
  }

  lemma {:induction false} CancelledAnswers(s: State, bs: seq<BatchRecord>, acks: set<(Digest, CrashAck)>, cancelled: bool, order: seq<Digest>, k: nat, own: map<Chan, nat>)
    requires Inv(s, bs, acks, cancelled, own) && Distinct(bs, own) && Legal(s, CancelAll(order))
    ensures AnswersFor(Step(s, CancelAll(order)).out, k, own)
         == AnswersFor(s.out, k, own) + if k < |bs| && WaitsFor(s, bs[k].hash) then TryAgains(bs[k].chans) else []
  {
    hide AnswersFor, TryAgains, CancelPending, Inv, Distinct, Owner;
    forall h | h in order ensures h in s.replyMap && Owner(s.replyMap, bs, h) {
      PendingOwner(s, bs, acks, cancelled, h, own);
    }
    AnswersConcat(s.out, CancelPending(s.replyMap, order), k, own);
    CancelAnswers(s.replyMap, order, bs, k, own);
  }

  /** A batch that waited is now told to try again; the others stay as they were. */
  lemma {:induction false} CancelAccounts(s: State, s': State, b: BatchRecord, acks: set<(Digest, CrashAck)>, cancelled: bool, before: seq<Out>, after: seq<Out>)
    requires Accounted(s, b, acks, cancelled, before) && s'.replyMap == map[]
    requires after == before + if WaitsFor(s, b.hash) then TryAgains(b.chans) else []
    ensures Accounted(s', b, acks, true, after)
  {
    hide TryAgains, AckedAndAnswered;
    if !WaitsFor(s, b.hash) {
      assert after == before;
    }
  }

  lemma {:induction false} CancelKeeps(s: State, bs: seq<BatchRecord>, acks: set<(Digest, CrashAck)>, cancelled: bool, order: seq<Digest>, own: map<Chan, nat>)
    requires Inv(s, bs, acks, cancelled, own) && Distinct(bs, own) && Legal(s, CancelAll(order))
    ensures Inv(Step(s, CancelAll(order)), bs, acks, true, own)
  {
    hide AnswersFor, TryAgains, CancelPending, AckedAndAnswered, Accounted, Distinct, Arrived;
    var s' := Step(s, CancelAll(order));
    forall k | 0 <= k < |bs| ensures Accounted(s', bs[k], acks, true, AnswersFor(s'.out, k, own)) {
      CancelledAnswers(s, bs, acks, cancelled, order, k, own);
      CancelAccounts(s, s', bs[k], acks, cancelled, AnswersFor(s.out, k, own), AnswersFor(s'.out, k, own));
    }
    forall k | k >= |bs| ensures AnswersFor(s'.out, k, own) == [] {
      CancelledAnswers(s, bs, acks, cancelled, order, k, own);
    }
  }

  lemma {:induction false} OtherKeeps(s: State, bs: seq<BatchRecord>, acks: set<(Digest, CrashAck)>, cancelled: bool, e: Event, own: map<Chan, nat>)
    requires Inv(s, bs, acks, cancelled, own) && Legal(s, e)
    requires e.Byz? || e.StopCancelling? || e.Unlogged? || e.Probe?
    ensures Inv(Step(s, e), bs, acks, cancelled, own)
  {
    hide Inv, AnswersFor, DoByz, DueProbes;
    var s' := Step(s, e);
    forall k: nat ensures AnswersFor(s'.out, k, own) == AnswersFor(s.out, k, own) {
      match e {
        case Byz(h, ack) =>
          if h in s.byzReplyMap {
            DoByzQuiet(s.(byzReplyMap := s.byzReplyMap - {h}), ack, s.byzReplyMap[h], k, own);
          }
        case Unlogged(result, c) => AnswersSnoc(s.out, UnloggedReceipt(result, c), k, own);
        case Probe(n, c) =>
          ClearProbesQuiet(s.(probes := s.probes[n := (if n in s.probes then s.probes[n] else []) + [c]]), k, own);
        case _ =>
      }
    }
    NeverCancelled(s, bs, acks, cancelled, own);
    QuietKeeps(s, s', bs, acks, cancelled, own);
  }

  lemma NeverCancelled(s: State, bs: seq<BatchRecord>, acks: set<(Digest, CrashAck)>, cancelled: bool, own: map<Chan, nat>)
    requires Inv(s, bs, acks, cancelled, own)
    ensures s.mustCancel ==> cancelled
  {
  }

  function Cancelled(es: seq<Event>): bool {
    exists i :: 0 <= i < |es| && es[i].CancelAll?
  }

  lemma {:induction false} StepKeeps(s: State, bs: seq<BatchRecord>, acks: set<(Digest, CrashAck)>, cancelled: bool, e: Event, own: map<Chan, nat>)
    requires Inv(s, bs, acks, cancelled, own) && Distinct(bs, own) && Distinct(bs + BatchOf(e), own) && Legal(s, e)
    ensures Inv(Step(s, e), bs + BatchOf(e), acks + AckOf(e), cancelled || e.CancelAll?, own)
  {
    hide Inv, AcceptBatch, CrashReply, DoByz, ClearProbes, Distinct, TryAgains, CancelPending;
    assert !e.Batch? ==> bs + BatchOf(e) == bs;
    assert !e.Crash? ==> acks + AckOf(e) == acks;
    match e {
      case Batch(hash, chans) =>
        if hash == None || s.mustCancel {
          NeverCancelled(s, bs, acks, cancelled, own);
          RefuseKeeps(s, bs, acks, cancelled, BatchRecord(hash, chans), own);
        } else {
          AcceptKeeps(s, bs, acks, cancelled, hash.value, chans, own);
        }
      case Crash(h, ack) =>
        if h in s.replyMap {
          CrashAnswersPending(s, bs, acks, cancelled, h, ack, own);
        } else {
          CrashComesEarly(s, bs, acks, cancelled, h, ack, own);
        }
      case CancelAll(order) => CancelKeeps(s, bs, acks, cancelled, order, own);
      case _ => OtherKeeps(s, bs, acks, cancelled, e, own);
    }
  }

  lemma {:induction false} InitInv(own: map<Chan, nat>)
    ensures Inv(EMPTY, [], {}, false, own)
  {
    assert forall k: nat :: AnswersFor([], k, own) == [];
  }

  /** Every reachable state accounts for every request ever handed in. */
  lemma {:induction false} RunKeeps(es: seq<Event>, own: map<Chan, nat>)
    requires LegalRun(es) && Distinct(Batches(es), own)
    ensures Inv(Run(es), Batches(es), Acks(es), Cancelled(es), own)
  {
    hide Inv, Step, Legal;
    if es == [] {
      InitInv(own);
    } else {
      var before, e := es[..|es| - 1], es[|es| - 1];
      DistinctBefore(Batches(before), BatchOf(e), own);
      RunKeeps(before, own);
      assert Cancelled(es) == (Cancelled(before) || e.CancelAll?) by {
        assert forall i :: 0 <= i < |before| ==> es[i] == before[i];
      }
      StepKeeps(Run(before), Batches(before), Acks(before), Cancelled(before), e, own);
    }
  }

  lemma {:induction false} DistinctBefore(bs: seq<BatchRecord>, more: seq<BatchRecord>, own: map<Chan, nat>)
    requires Distinct(bs + more, own)
    ensures Distinct(bs, own)
  {
    assert forall k :: 0 <= k < |bs| ==> bs[k] == (bs + more)[k];
  }

  // ---------------------------------------------------------------- what a client sees

  /** How many answers channel c has got. */
  function Replies(out: seq<Out>, c: Chan): nat {
    if out == [] then 0
    else
      var o := out[|out| - 1];
      Replies(out[..|out| - 1], c) + if (o.Receipt? || o.TryAgain?) && o.chan == c then 1 else 0
  }

  lemma {:induction false} RepliesAreAnswers(out: seq<Out>, c: Chan, own: map<Chan, nat>)
    requires c in own
    ensures Replies(out, c) == Replies(AnswersFor(out, own[c], own), c)
  {
    if out != [] {
      var front, o := out[..|out| - 1], out[|out| - 1];
      RepliesAreAnswers(front, c, own);
      var answers := AnswersFor(front, own[c], own);
      if Concerns(o, own[c], own) {
        assert (answers + [Strip(o)])[..|answers|] == answers;
      } else {
        assert answers + [] == answers;
      }
    }
  }

  ghost predicate NoRepeats(chans: seq<Chan>) {
    forall i, j :: 0 <= i < j < |chans| ==> chans[i] != chans[j]
  }

  lemma {:induction false} OneReceiptEach(h: Digest, ack: CrashAck, chans: seq<Chan>, i: nat, j: nat)
    requires i <= |chans| == |ack.results| && j < |chans| && NoRepeats(chans)
    ensures Replies(ReceiptsOf(h, ack, chans, i), chans[j]) == if j < i then 1 else 0
    decreases i
  {
    if i > 0 {
      OneReceiptEach(h, ack, chans, i - 1, j);
      var before, last := ReceiptsOf(h, ack, chans, i - 1), Receipt(ack.n, i - 1, h, ack.results[i - 1], chans[i - 1], []);
      assert (before + [last])[..|before|] == before;
    }
  }

  lemma {:induction false} RepliesConcat(a: seq<Out>, b: seq<Out>, c: Chan)
    ensures Replies(a + b, c) == Replies(a, c) + Replies(b, c)
  {
    if b == [] {
      assert a + b == a;
    } else {
      RepliesConcat(a, b[..|b| - 1], c);
      assert (a + b)[..|a + b| - 1] == a + b[..|b| - 1];
    }
  }

  lemma {:induction false} OneTryAgainEach(chans: seq<Chan>, c: Chan)
    requires NoRepeats(chans)
    ensures Replies(TryAgains(chans), c) == if c in chans then 1 else 0
    decreases chans
  {
    if chans != [] {
      OneTryAgainEach(chans[1..], c);
      RepliesConcat([TryAgain(chans[0])], TryAgains(chans[1..]), c);
      assert Replies([TryAgain(chans[0])], c) == if c == chans[0] then 1 else 0 by {
        assert [TryAgain(chans[0])][..0] == [];
      }
      assert chans == [chans[0]] + chans[1..];
    }
  }

  /** In every run, a request is either still pending and unanswered, or answered exactly once. */
  lemma {:induction false} AnsweredExactlyOnce(es: seq<Event>, k: nat, i: nat)
    requires LegalRun(es) && ChannelsDiffer(Batches(es)) && HashesDiffer(Batches(es))
    requires k < |Batches(es)| && i < |Batches(es)[k].chans|
    ensures Replies(Run(es).out, Batches(es)[k].chans[i]) == if WaitsFor(Run(es), Batches(es)[k].hash) then 0 else 1
    ensures WaitsFor(Run(es), Batches(es)[k].hash) ==> Run(es).replyMap[Batches(es)[k].hash.value] == Batches(es)[k].chans
  {
    var bs, s := Batches(es), Run(es);
    var own := OwnersOf(bs);
    DifferentChannelsAreOwned(bs);
    var b, answers := bs[k], AnswersFor(s.out, k, own);
    RunKeeps(es, own);
    assert Accounted(s, b, Acks(es), Cancelled(es), answers);
    RepliesAreAnswers(s.out, b.chans[i], own);
    if !WaitsFor(s, b.hash) {
      if AckedAndAnswered(b, Acks(es), answers) {
        var ack :| (b.hash.value, ack) in Acks(es) && AnsweredBy(answers, b, ack);
        OneReceiptEach(b.hash.value, ack, b.chans, |b.chans|, i);
      } else {
        OneTryAgainEach(b.chans, b.chans[i]);
      }
    }
  }

  /** Receipt number i of a block carries result i to the channel that handed in request i. */
  lemma {:induction false} ReceiptsAlign(h: Digest, ack: CrashAck, chans: seq<Chan>, i: nat, j: nat)
    requires j < i <= |chans| == |ack.results|
    ensures |ReceiptsOf(h, ack, chans, i)| == i
    ensures ReceiptsOf(h, ack, chans, i)[j] == Receipt(ack.n, j, h, ack.results[j], chans[j], [])
    decreases i
  {
    if j < i - 1 {
      ReceiptsAlign(h, ack, chans, i - 1, j);
    } else if i > 1 {
      ReceiptsAlign(h, ack, chans, i - 1, i - 2);
    }
  }

  /** Each block is acknowledged with one number and one list of results. */
  ghost predicate OneAckEach(acks: set<(Digest, CrashAck)>) {
    forall p, q :: p in acks && q in acks && p.0 == q.0 ==> p == q
  }

  ghost predicate HasAck(acks: set<(Digest, CrashAck)>, h: Option<Digest>, ack: CrashAck) {
    h.Some? && (h.value, ack) in acks
  }

  /** Without cancellation the answers of a batch are a function of its hash and of the acknowledgements alone. */
  lemma {:induction false} AnswersFromHistory(es: seq<Event>, k: nat, own: map<Chan, nat>)
    requires LegalRun(es) && Distinct(Batches(es), own) && !Cancelled(es) && OneAckEach(Acks(es)) && k < |Batches(es)|
    ensures Batches(es)[k].hash == None ==> AnswersFor(Run(es).out, k, own) == TryAgains(Batches(es)[k].chans)
    ensures forall ack :: HasAck(Acks(es), Batches(es)[k].hash, ack) ==> AnsweredBy(AnswersFor(Run(es).out, k, own), Batches(es)[k], ack)
    ensures Batches(es)[k].hash.Some? && (forall ack :: !HasAck(Acks(es), Batches(es)[k].hash, ack))
            ==> AnswersFor(Run(es).out, k, own) == [] && WaitsFor(Run(es), Batches(es)[k].hash)
  {
    hide AnswersFor, AnsweredBy;
    var b, s, acks := Batches(es)[k], Run(es), Acks(es);
    RunKeeps(es, own);
    assert Accounted(s, b, acks, false, AnswersFor(s.out, k, own));
    forall ack | HasAck(acks, b.hash, ack) ensures AnsweredBy(AnswersFor(s.out, k, own), b, ack) {
      assert (b.hash.value, ack) in acks;
      assert !WaitsFor(s, b.hash);
      var ack' :| (b.hash.value, ack') in acks && AnsweredBy(AnswersFor(s.out, k, own), b, ack');
      assert (b.hash.value, ack) == (b.hash.value, ack');
    }
    if AckedAndAnswered(b, acks, AnswersFor(s.out, k, own)) {
      var ack' :| (b.hash.value, ack') in acks && AnsweredBy(AnswersFor(s.out, k, own), b, ack');
      assert HasAck(acks, b.hash, ack');
    }
  }

  /** Any two interleavings of the same batches and the same acknowledgements give every batch the same answers. */
  lemma {:induction false} OrderIndependent(es: seq<Event>, es': seq<Event>, k: nat)
    requires LegalRun(es) && LegalRun(es') && !Cancelled(es) && !Cancelled(es')
    requires Batches(es) == Batches(es') && Acks(es) == Acks(es') && OneAckEach(Acks(es))
    requires ChannelsDiffer(Batches(es)) && HashesDiffer(Batches(es)) && k < |Batches(es)|
    ensures AnswersFor(Run(es).out, k, OwnersOf(Batches(es))) == AnswersFor(Run(es').out, k, OwnersOf(Batches(es)))
    ensures WaitsFor(Run(es), Batches(es)[k].hash) <==> WaitsFor(Run(es'), Batches(es)[k].hash)
  {
    hide AnswersFor, OwnersOf;
    var b, own := Batches(es)[k], OwnersOf(Batches(es));
    DifferentChannelsAreOwned(Batches(es));
    AnswersFromHistory(es, k, own);
    AnswersFromHistory(es', k, own);
    RunKeeps(es, own);
    RunKeeps(es', own);
    if ack :| HasAck(Acks(es), b.hash, ack) {
      assert AnsweredBy(AnswersFor(Run(es).out, k, own), b, ack) && AnsweredBy(AnswersFor(Run(es').out, k, own), b, ack);
      assert (b.hash.value, ack) in Acks(es);
    }
  }

  // ---------------------------------------------------------------- cancelling, and after

  /** Requests are being cancelled: the last word on it was to cancel. */
  predicate Cancelling(es: seq<Event>) {
    if es == [] then false
    else if es[|es| - 1].CancelAll? then true
    else if es[|es| - 1].StopCancelling? then false
    else Cancelling(es[..|es| - 1])
  }

  lemma {:induction false} CancellingFromHistory(es: seq<Event>)
    requires LegalRun(es)
    ensures Run(es).mustCancel == Cancelling(es)
  {
    hide Step, Legal;
    if es != [] {
      CancellingFromHistory(es[..|es| - 1]);
      StepCancels(Run(es[..|es| - 1]), es[|es| - 1]);
    }
  }

  lemma {:induction false} StepCancels(s: State, e: Event)
    requires Legal(s, e)
    ensures Step(s, e).mustCancel == if e.CancelAll? then true else if e.StopCancelling? then false else s.mustCancel
  {
    hide CrashReply, DoByz, DueProbes, TryAgains, CancelPending, AcceptBatch;
    if e.Batch? && e.batchHash.Some? && !s.mustCancel {
      AcceptCancels(s, e.batchHash.value, e.chans);
    }
  }

  lemma AcceptCancels(s: State, h: Digest, chans: seq<Chan>)
    requires Legal(s, Batch(Some(h), chans)) && !s.mustCancel
    ensures AcceptBatch(s, h, chans).mustCancel == s.mustCancel
  {
    hide CrashReply, DoByz;
  }

  /**
   * A batch with a block is told to try again while requests are being cancelled. From the word to stop on it is accepted: it
   * waits for its acknowledgement, or is answered with the one that came first.
   */
  lemma {:induction false} BatchAcceptedIff(es: seq<Event>, h: Digest, chans: seq<Chan>)
    requires LegalRun(es) && Legal(Run(es), Batch(Some(h), chans))
    ensures LegalRun(es + [Batch(Some(h), chans)])
    ensures var s, t := Run(es), Run(es + [Batch(Some(h), chans)]);
            if Cancelling(es) then t == s.(out := s.out + TryAgains(chans))
            else if h in s.crashBuf then h !in t.replyMap && h !in t.crashBuf && |t.out| >= |s.out| + |chans|
            else h in t.replyMap && t.replyMap[h] == chans
  {
    CancellingFromHistory(es);
    var e := Batch(Some(h), chans);
    assert (es + [e])[..|es|] == es;
    var s := Run(es);
    if !s.mustCancel {
      AcceptOutcome(s, h, chans);
    }
  }

  lemma {:induction false} AcceptOutcome(s: State, h: Digest, chans: seq<Chan>)
    requires Legal(s, Batch(Some(h), chans)) && !s.mustCancel
    ensures var t := AcceptBatch(s, h, chans);
            if h in s.crashBuf then h !in t.replyMap && h !in t.crashBuf && |t.out| >= |s.out| + |chans|
            else h in t.replyMap && t.replyMap[h] == chans
  {
    hide CrashReply, DoByz;
    var s0 := s.(byzReplyMap := s.byzReplyMap[h := chans], replyMap := s.replyMap[h := chans]);
    var s1 := ClearByzBuf(s0, h, chans);
    if h in s.byzBuf {
      DoByzGrows(s0.(byzBuf := s0.byzBuf - {h}, byzReplyMap := s0.byzReplyMap - {h}), s.byzBuf[h], chans);
    }
    if h in s.crashBuf {
      CrashReplyGrows(s1.(crashBuf := s1.crashBuf - {h}, replyMap := s1.replyMap - {h}), h, s.crashBuf[h], chans, |chans|);
    }
  }

  lemma DoByzGrows(s: State, ack: ByzAck, chans: seq<Chan>)
    requires |chans| == |ack.responses|
    ensures s.out <= DoByz(s, ack, chans).out
  {
  }

  lemma {:induction false} CrashReplyGrows(s: State, h: Digest, ack: CrashAck, chans: seq<Chan>, i: nat)
    requires i <= |chans| == |ack.results|
    ensures |CrashReply(s, h, ack, chans, i).out| == |s.out| + i
    decreases i
  {
    if i > 0 {
      CrashReplyGrows(s, h, ack, chans, i - 1);
    }
  }

  /** A channel that came with no batch may be counted under a number that no batch has. */
  lemma {:induction false} StrangerOwned(bs: seq<BatchRecord>, c: Chan)
    requires ChannelsDiffer(bs) && HashesDiffer(bs) && forall k :: 0 <= k < |bs| ==> c !in bs[k].chans
    ensures Distinct(bs, OwnersOf(bs)[c := |bs|])
  {
    hide OwnersOf, ChannelsDiffer;
    DifferentChannelsAreOwned(bs);
    var own := OwnersOf(bs)[c := |bs|];
    forall k, i | 0 <= k < |bs| && 0 <= i < |bs[k].chans| ensures bs[k].chans[i] in own && own[bs[k].chans[i]] == k {
      assert bs[k].chans[i] in bs[k].chans;
    }
  }

  /** Channels that came with no batch get no answer. */
  lemma {:induction false} StrangersGetNothing(es: seq<Event>, c: Chan)
    requires LegalRun(es) && ChannelsDiffer(Batches(es)) && HashesDiffer(Batches(es))
    requires forall k :: 0 <= k < |Batches(es)| ==> c !in Batches(es)[k].chans
    ensures Replies(Run(es).out, c) == 0
  {
    hide OwnersOf, ChannelsDiffer, HashesDiffer, Distinct, Accounted, Run, AnswersFor, Prompt;
    var own := OwnersOf(Batches(es))[c := |Batches(es)|];
    StrangerOwned(Batches(es), c);
    RunKeeps(es, own);
    RepliesAreAnswers(Run(es).out, c, own);
  }
}
