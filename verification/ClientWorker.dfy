/**
 * The client worker: a generator and a checker pass a fixed number of tokens around through two bounded channels.
 */
module ClientWorkers {
  import opened Basics
  import opened ModularArithmetic

  datatype Mode = Leader | Any

  /** Where to try again: a new node list and the leader's place in it. */
  datatype Redirect = Redirect(nodes: seq<Node>, leader: nat)

  /** A token on its way back to the generator. Identifier 0 stands for no request. */
  datatype Response = Success(id: nat) | TryAgain(id: nat, redirect: Option<Redirect>)

  // ---------------------------------------------------------------- the generator

  datatype GenState = GenState(outstanding: map<nat, Mode>, nodes: seq<Node>, leader: nat, roundRobin: nat, total: nat)

  /** What the generator is about to send: a task to the checker, or its token back to itself. */
  datatype Hold = SendTask(id: nat, mode: Mode) | SendToken

  predicate GenOk(g: GenState) {
    g.leader < |g.nodes|
  }

  /** Each failed attempt moves on to the next node and forgets the outstanding requests. */
  function SendRequest(g: GenState, mode: Mode, failures: nat): (r: GenState)
    requires GenOk(g)
    ensures GenOk(r) && r.total == g.total && r.outstanding == if failures == 0 then g.outstanding else map[]
  {
    if failures == 0 then g
    else
      var h := SendRequest(g, mode, failures - 1).(outstanding := map[]);
      match mode
      case Leader => h.(leader := (h.leader + 1) % |h.nodes|)
      case Any => h.(roundRobin := (h.roundRobin + 1) % |h.nodes|)
  }

  /** Where the next request goes. */
  function Destination(g: GenState, mode: Mode): Node
    requires GenOk(g)
  {
    if mode == Leader then g.nodes[g.leader] else g.nodes[g.roundRobin % |g.nodes|]
  }

  /** After k failures: the node k places further on, round and round, from where the first attempt went. */
  lemma {:induction false} RetriesGoRound(g: GenState, mode: Mode, failures: nat)
    requires GenOk(g)
    ensures SendRequest(g, mode, failures).nodes == g.nodes
    ensures Destination(SendRequest(g, mode, failures), mode)
         == g.nodes[((if mode == Leader then g.leader else g.roundRobin) + failures) % |g.nodes|]
    ensures mode == Any ==> SendRequest(g, mode, failures).leader == g.leader
    ensures mode == Leader ==> SendRequest(g, mode, failures).roundRobin == g.roundRobin
    ensures failures > 0 ==> SendRequest(g, mode, failures).leader < |g.nodes|
  {
    var n := |g.nodes|;
    var start := if mode == Leader then g.leader else g.roundRobin;
    RetryPlace(g, mode, failures);
    var h := SendRequest(g, mode, failures);
    SmallResidue(g.leader, n);
    var place := if mode == Leader then h.leader else h.roundRobin;
    CongruentIffSameResidue(place, start + failures, n);
    if mode == Leader {
      SmallResidue(h.leader, n);
    }
  }

  lemma {:induction false} RetryPlace(g: GenState, mode: Mode, failures: nat)
    requires GenOk(g)
    ensures var h := SendRequest(g, mode, failures);
            && h.nodes == g.nodes
            && (mode == Leader ==> h.roundRobin == g.roundRobin && Congruent(h.leader, g.leader + failures, |g.nodes|))
            && (mode == Any ==> h.leader == g.leader && Congruent(h.roundRobin, g.roundRobin + failures, |g.nodes|))
  {
    var n := |g.nodes|;
    if failures == 0 {
      CongruentReflexive(g.leader, n);
      CongruentReflexive(g.roundRobin, n);
    } else {
      RetryPlace(g, mode, failures - 1);
      var h := SendRequest(g, mode, failures - 1);
      var start, place := if mode == Leader then g.leader else g.roundRobin, if mode == Leader then h.leader else h.roundRobin;
      OneFurther(place, start + failures - 1, n);
    }
  }

  lemma {:induction false} OneFurther(a: int, b: int, n: int)
    requires n > 0 && Congruent(a, b, n)
    ensures Congruent((a + 1) % n, b + 1, n)
  {
    ResidueCongruent(a + 1, n);
    CongruentReflexive(1, n);
    CongruentSum(a, b, 1, 1, n);
    CongruentIffSameResidue(a + 1, b + 1, n);
    CongruentIffSameResidue((a + 1) % n, a + 1, n);
    CongruentIffSameResidue((a + 1) % n, b + 1, n);
  }

  predicate WellFormed(r: Response) {
    r.TryAgain? && r.redirect.Some? ==> r.redirect.value.leader < |r.redirect.value.nodes|
  }

  function FollowRedirect(g: GenState, redirect: Option<Redirect>): (r: GenState)
    requires GenOk(g) && (redirect.Some? ==> redirect.value.leader < |redirect.value.nodes|)
    ensures GenOk(r) && r.total == g.total && (r.outstanding == g.outstanding || r.outstanding == map[])
  {
    if redirect == None then g
    else
      var nodes, leader := redirect.value.nodes, redirect.value.leader;
      var h := g.(nodes := nodes, leader := leader);
      if nodes[leader] != g.nodes[g.leader] then h.(outstanding := map[]) else h
  }

  /** A success frees the token for a new request; a retry sends the same request again, unless it has been forgotten. */
  function OnResponse(g: GenState, r: Response, mode: Mode, failures: nat): (GenState, Hold)
    requires GenOk(g) && WellFormed(r)
  {
    match r
    case Success(id) =>
      var h := SendRequest(g.(outstanding := g.outstanding - {id}), mode, failures);
      (h.(total := h.total + 1), SendTask(g.total + 1, mode))
    case TryAgain(id, redirect) =>
      var h := FollowRedirect(g, redirect);
      if id !in h.outstanding then (h, SendToken)
      else
        var again := h.outstanding[id];
        (SendRequest(h.(outstanding := h.outstanding - {id}), again, failures), SendTask(id, again))
  }

  /**
   * A retry that names a leader is followed: the request, if it is still outstanding, goes to that very node. All other
   * requests are forgotten exactly when the leader is another node than before. Without a name the same node is tried again.
   */
  lemma {:induction false} RedirectFollowed(g: GenState, id: nat, redirect: Option<Redirect>, mode: Mode)
    requires GenOk(g) && WellFormed(TryAgain(id, redirect))
    ensures var (h, hold) := OnResponse(g, TryAgain(id, redirect), mode, 0);
            var to := if redirect.Some? then redirect.value else Redirect(g.nodes, g.leader);
            && GenOk(h) && h.nodes == to.nodes && Destination(h, Leader) == to.nodes[to.leader]
            && h.outstanding == (if to.nodes[to.leader] == g.nodes[g.leader] then g.outstanding - {id} else map[])
            && (hold.SendTask? <==> to.nodes[to.leader] == g.nodes[g.leader] && id in g.outstanding)
            && (hold.SendTask? ==> hold == SendTask(id, g.outstanding[id]))
  {
    if id !in g.outstanding {
      assert g.outstanding - {id} == g.outstanding;
    }
  }

  /** A success ends its request, and the next number goes out in the mode asked for. */
  lemma SuccessMovesOn(g: GenState, id: nat, mode: Mode, failures: nat)
    requires GenOk(g)
    ensures var (h, hold) := OnResponse(g, Success(id), mode, failures);
            && id !in h.outstanding && h.total == g.total + 1 && hold == SendTask(g.total + 1, mode)
            && (failures == 0 ==> h.outstanding == g.outstanding - {id})
  {
  }

  class Generator {
    var outstanding: map<nat, Mode>
    var nodes: seq<Node>
    var leader: nat
    var roundRobin: nat
    var total: nat

    ghost function Abstract(): GenState
      reads this
    {
      GenState(outstanding, nodes, leader, roundRobin, total)
    }

    constructor (nodes: seq<Node>, id: nat)
      requires nodes != []
      ensures Abstract() == GenState(map[], nodes, 0, id % |nodes|, 0)
    {
      outstanding, this.nodes, leader, roundRobin, total := map[], nodes, 0, id % |nodes|, 0;
    }

    /** `failures` attempts fail before one gets through. */
    method Send(mode: Mode, failures: nat) returns (sentTo: Node)
      requires GenOk(Abstract())
      modifies this`outstanding, this`leader, this`roundRobin
      ensures Abstract() == SendRequest(old(Abstract()), mode, failures)
      ensures sentTo == Destination(Abstract(), mode)
    {
      for i := 0 to failures
        invariant Abstract() == SendRequest(old(Abstract()), mode, i)
      {
        match mode {
          case Leader => leader := (leader + 1) % |nodes|;
          case Any => roundRobin := (roundRobin + 1) % |nodes|;
        }
        outstanding := map[];
      }
      sentTo := if mode == Leader then nodes[leader] else nodes[roundRobin % |nodes|];
    }

    method Handle(r: Response, mode: Mode, failures: nat) returns (hold: Hold)
      requires GenOk(Abstract()) && WellFormed(r)
      modifies this
      ensures (Abstract(), hold) == OnResponse(old(Abstract()), r, mode, failures)
    {
      match r {
        case Success(id) =>
          outstanding := outstanding - {id};
          var sentTo := Send(mode, failures);
          hold := SendTask(total + 1, mode);
          total := total + 1;
        case TryAgain(id, redirect) =>
          var oldLeader := nodes[leader];
          if redirect.Some? {
            leader := redirect.value.leader;
            nodes := redirect.value.nodes;
          }
          if oldLeader != nodes[leader] {
            outstanding := map[];
          }
          if id !in outstanding {
            return SendToken;
          }
          var again := outstanding[id];
          outstanding := outstanding - {id};
          var sentTo := Send(again, failures);
          hold := SendTask(id, again);
      }
    }
  }

  // ---------------------------------------------------------------- both tasks and their channels

  datatype System = System(
    unissued: nat, backpressure: seq<Response>, tasks: seq<nat>, checking: Option<nat>, holding: Option<Hold>, gen: GenState)

  datatype Step =
    | Issue
    | CheckerTakes
    | CheckerAnswers(answer: Option<Option<Redirect>>)
    | GeneratorTakes(mode: Mode, failures: nat)
    | GeneratorSends

  function Start(max: nat, nodes: seq<Node>, id: nat): System
    requires nodes != []
  {
    System(max, [], [], None, None, GenState(map[], nodes, 0, id % |nodes|, 0))
  }

  /** The checker starts after it has issued all tokens; sends wait for room in a channel of `max` places. */
  predicate Enabled(max: nat, x: System, e: Step) {
    match e
    case Issue => x.unissued > 0 && |x.backpressure| < max
    case CheckerTakes => x.unissued == 0 && x.checking == None && x.tasks != []
    case CheckerAnswers(answer) =>
      && x.checking.Some? && |x.backpressure| < max
      && WellFormed(Answer(x.checking.value, answer))
    case GeneratorTakes(_, _) =>
      x.holding == None && x.backpressure != [] && GenOk(x.gen) && WellFormed(x.backpressure[0])
    case GeneratorSends =>
      x.holding.Some? && if x.holding.value.SendToken? then |x.backpressure| < max else |x.tasks| < max
  }

  /** A receipt is a success; anything else is a retry, perhaps with a new leader. */
  function Answer(id: nat, answer: Option<Option<Redirect>>): Response {
    if answer == None then Success(id) else TryAgain(id, answer.value)
  }

  function Next(max: nat, x: System, e: Step): System
    requires Enabled(max, x, e)
  {
    match e
    case Issue => x.(unissued := x.unissued - 1, backpressure := x.backpressure + [Success(0)])
    case CheckerTakes => x.(checking := Some(x.tasks[0]), tasks := x.tasks[1..])
    case CheckerAnswers(answer) =>
      x.(checking := None, backpressure := x.backpressure + [Answer(x.checking.value, answer)])
    case GeneratorTakes(mode, failures) =>
      var (g, hold) := OnResponse(x.gen, x.backpressure[0], mode, failures);
      x.(gen := g, holding := Some(hold), backpressure := x.backpressure[1..])
    case GeneratorSends =>
      match x.holding.value
      case SendToken => x.(holding := None, backpressure := x.backpressure + [Success(0)])
      case SendTask(id, mode) =>
        x.(holding := None, tasks := x.tasks + [id], gen := x.gen.(outstanding := x.gen.outstanding[id := mode]))
  }

  /**
   * A task goes through the checker and back: an answer that is no receipt brings the same request back to the generator,
   * a receipt frees it; and what the generator sends is on record until then.
   */
  lemma {:induction false} RoundOfATask(max: nat, x: System, answer: Option<Option<Redirect>>)
    requires Enabled(max, x, CheckerAnswers(answer))
    ensures var y, id := Next(max, x, CheckerAnswers(answer)), x.checking.value;
            && y.checking == None && y.tasks == x.tasks && y.backpressure[..|x.backpressure|] == x.backpressure
            && |y.backpressure| == |x.backpressure| + 1
            && var r := y.backpressure[|x.backpressure|];
               r.id == id && (r.Success? <==> answer == None) && (answer.Some? ==> r.TryAgain? && r.redirect == answer.value)
  {
  }

  lemma {:induction false} SentIsOnRecord(max: nat, x: System)
    requires Enabled(max, x, GeneratorSends)
    ensures var y := Next(max, x, GeneratorSends);
            && y.holding == None
            && (x.holding.value.SendTask? ==> y.tasks == x.tasks + [x.holding.value.id] && y.backpressure == x.backpressure)
            && (x.holding.value.SendTask? ==> x.holding.value.id in y.gen.outstanding)
            && (x.holding.value.SendTask? ==> y.gen.outstanding[x.holding.value.id] == x.holding.value.mode)
            && (x.holding.value.SendToken? ==> y.backpressure == x.backpressure + [Success(0)] && y.tasks == x.tasks)
  {
  }

  // ---------------------------------------------------------------- tokens

  function Ids(rs: seq<Response>): seq<nat> {
    seq(|rs|, i requires 0 <= i < |rs| => rs[i].id)
  }

  function HoldId(h: Hold): nat {
    if h.SendTask? then h.id else 0
  }

  /** The request each token in circulation carries, 0 for none. */
  function Tokens(x: System): multiset<nat> {
    multiset(Ids(x.backpressure)) + multiset(x.tasks)
    + (if x.checking.Some? then multiset{x.checking.value} else multiset{})
    + (if x.holding.Some? then multiset{HoldId(x.holding.value)} else multiset{})
  }

  /** Tokens are conserved; each request is on at most one token, and an outstanding one, or one about to be, on exactly one. */
  ghost predicate Balanced(max: nat, unissued: nat, tokens: multiset<nat>, g: GenState, holding: Option<Hold>) {
    && |tokens| + unissued == max
    && (forall id :: id in tokens ==> id <= g.total)
    && (forall id :: id > 0 ==> tokens[id] <= 1)
    && (forall id :: id in g.outstanding ==> id > 0 && id in tokens)
    && (holding.Some? && holding.value.SendTask? ==> 0 < holding.value.id && holding.value.id in tokens && holding.value.id !in g.outstanding)
  }

  ghost predicate Inv(max: nat, x: System) {
    && GenOk(x.gen)
    && (forall i :: 0 <= i < |x.backpressure| ==> WellFormed(x.backpressure[i]))
    && Balanced(max, x.unissued, Tokens(x), x.gen, x.holding)
  }

  lemma {:induction false} IdsSnoc(rs: seq<Response>, r: Response)
    ensures multiset(Ids(rs + [r])) == multiset(Ids(rs)) + multiset{r.id}
  {
    assert Ids(rs + [r]) == Ids(rs) + [r.id];
  }

  lemma {:induction false} IdsHead(rs: seq<Response>)
    requires rs != []
    ensures multiset(Ids(rs)) == multiset{rs[0].id} + multiset(Ids(rs[1..]))
  {
    assert Ids(rs) == [rs[0].id] + Ids(rs[1..]);
  }

  lemma {:induction false} TasksHead(ts: seq<nat>)
    requires ts != []
    ensures multiset(ts) == multiset{ts[0]} + multiset(ts[1..])
  {
    assert ts == [ts[0]] + ts[1..];
  }

  /** A message that the sender held, or one more token, goes onto the backpressure channel. */
  lemma {:induction false} OneMore(x: System, r: Response)
    ensures Tokens(x.(backpressure := x.backpressure + [r])) == Tokens(x) + multiset{r.id}
  {
    IdsSnoc(x.backpressure, r);
    hide Ids;
  }

  lemma {:induction false} Released(x: System)
    requires x.holding.Some?
    ensures Tokens(x) == Tokens(x.(holding := None)) + multiset{HoldId(x.holding.value)}
  {
    hide Ids;
  }

  lemma IssueBalanced(max: nat, unissued: nat, tokens: multiset<nat>, g: GenState, holding: Option<Hold>)
    requires Balanced(max, unissued, tokens, g, holding) && unissued > 0
    ensures Balanced(max, unissued - 1, tokens + multiset{0}, g, holding)
  {
  }

  lemma {:induction false} IssueKeeps(max: nat, x: System)
    requires Inv(max, x) && Enabled(max, x, Issue)
    ensures Inv(max, Next(max, x, Issue))
  {
    hide Tokens, Balanced;
    OneMore(x.(unissued := x.unissued - 1), Success(0));
    SameTokens(x, x.(unissued := x.unissued - 1));
    IssueBalanced(max, x.unissued, Tokens(x), x.gen, x.holding);
  }

  lemma SameTokens(x: System, y: System)
    requires x.backpressure == y.backpressure && x.tasks == y.tasks && x.checking == y.checking && x.holding == y.holding
    ensures Tokens(x) == Tokens(y)
  {
  }

  /** The checker passes its token on. */
  lemma {:induction false} CheckerKeeps(max: nat, x: System, e: Step)
    requires Inv(max, x) && Enabled(max, x, e) && (e.CheckerTakes? || e.CheckerAnswers?)
    ensures Inv(max, Next(max, x, e))
  {
    hide Ids, Balanced;
    if e.CheckerTakes? {
      TasksHead(x.tasks);
    } else {
      IdsSnoc(x.backpressure, Answer(x.checking.value, e.answer));
    }
    assert Tokens(Next(max, x, e)) == Tokens(x);
  }

  lemma {:induction false} TaskGoesOut(x: System, y: System, id: nat)
    requires y.tasks == x.tasks + [id] && y.backpressure == x.backpressure && y.checking == x.checking && y.holding == x.holding
    ensures Tokens(y) == Tokens(x) + multiset{id}
  {
    hide Ids;
  }

  lemma SendBalanced(max: nat, unissued: nat, tokens: multiset<nat>, g: GenState, hold: Hold)
    requires Balanced(max, unissued, tokens, g, Some(hold))
    ensures var outstanding := if hold.SendTask? then g.outstanding[hold.id := hold.mode] else g.outstanding;
            Balanced(max, unissued, tokens, g.(outstanding := outstanding), None)
  {
  }

  lemma {:induction false} SendsKeeps(max: nat, x: System)
    requires Inv(max, x) && Enabled(max, x, GeneratorSends)
    ensures Inv(max, Next(max, x, GeneratorSends))
  {
    hide Tokens, Balanced;
    var y := Next(max, x, GeneratorSends);
    Released(x);
    match x.holding.value {
      case SendToken => OneMore(x.(holding := None), Success(0));
      case SendTask(id, mode) => TaskGoesOut(x.(holding := None), y, id);
    }
    assert Tokens(y) == Tokens(x);
    SendBalanced(max, x.unissued, Tokens(x), x.gen, x.holding.value);
  }

  /** One token changes the request it carries. */
  lemma Exchange(before: multiset<nat>, after: multiset<nat>, was: nat, held: nat)
    requires was in before && after == before - multiset{was} + multiset{held}
    ensures |after| == |before|
    ensures forall id :: after[id] == before[id] + (if id == held then 1 else 0) - (if id == was then 1 else 0)
  {
  }

  lemma {:induction false} TakeTokens(x: System, y: System, hold: Hold)
    requires x.backpressure != [] && x.holding == None
    requires y.backpressure == x.backpressure[1..] && y.holding == Some(hold) && y.tasks == x.tasks && y.checking == x.checking
    ensures x.backpressure[0].id in Tokens(x)
    ensures Tokens(y) == Tokens(x) - multiset{x.backpressure[0].id} + multiset{HoldId(hold)}
  {
    IdsHead(x.backpressure);
    hide Ids;
  }

  /** The token of a success goes to a new request; that of a retry stays with its request, or is freed. */
  lemma {:induction false} ResponseBalanced(max: nat, unissued: nat, before: multiset<nat>, after: multiset<nat>, g: GenState, r: Response, mode: Mode, failures: nat)
    requires GenOk(g) && WellFormed(r) && Balanced(max, unissued, before, g, None) && r.id in before
    requires after == before - multiset{r.id} + multiset{HoldId(OnResponse(g, r, mode, failures).1)}
    ensures GenOk(OnResponse(g, r, mode, failures).0)
    ensures Balanced(max, unissued, after, OnResponse(g, r, mode, failures).0, Some(OnResponse(g, r, mode, failures).1))
  {
    hide SendRequest, FollowRedirect;
    Exchange(before, after, r.id, HoldId(OnResponse(g, r, mode, failures).1));
  }

  lemma {:induction false} TakesKeeps(max: nat, x: System, mode: Mode, failures: nat)
    requires Inv(max, x) && Enabled(max, x, GeneratorTakes(mode, failures))
    ensures Inv(max, Next(max, x, GeneratorTakes(mode, failures)))
  {
    hide Tokens, OnResponse, Balanced;
    var (g, hold) := OnResponse(x.gen, x.backpressure[0], mode, failures);
    var y := Next(max, x, GeneratorTakes(mode, failures));
    TakeTokens(x, y, hold);
    ResponseBalanced(max, x.unissued, Tokens(x), Tokens(y), x.gen, x.backpressure[0], mode, failures);
  }

  lemma {:induction false} StepKeeps(max: nat, x: System, e: Step)
    requires Inv(max, x) && Enabled(max, x, e)
    ensures Inv(max, Next(max, x, e))
  {
    match e {
      case Issue => IssueKeeps(max, x);
      case GeneratorTakes(mode, failures) => TakesKeeps(max, x, mode, failures);
      case GeneratorSends => SendsKeeps(max, x);
      case _ => CheckerKeeps(max, x, e);
    }
  }

  ghost predicate LegalRun(max: nat, nodes: seq<Node>, id: nat, es: seq<Step>)
    requires nodes != []
    decreases |es|, 0
  {
    es == [] || (LegalRun(max, nodes, id, es[..|es| - 1]) && Enabled(max, Run(max, nodes, id, es[..|es| - 1]), es[|es| - 1]))
  }

  ghost function Run(max: nat, nodes: seq<Node>, id: nat, es: seq<Step>): System
    requires nodes != [] && LegalRun(max, nodes, id, es)
    decreases |es|, 1
  {
    if es == [] then Start(max, nodes, id) else Next(max, Run(max, nodes, id, es[..|es| - 1]), es[|es| - 1])
  }

  lemma {:induction false} RunKeeps(max: nat, nodes: seq<Node>, id: nat, es: seq<Step>)
    requires nodes != [] && LegalRun(max, nodes, id, es)
    ensures Inv(max, Run(max, nodes, id, es))
  {
    if es != [] {
      hide Next, Enabled, Inv;
      RunKeeps(max, nodes, id, es[..|es| - 1]);
      StepKeeps(max, Run(max, nodes, id, es[..|es| - 1]), es[|es| - 1]);
    } else {
      assert Ids([]) == [];
    }
  }

  function Held(x: System): nat {
    (if x.checking.Some? then 1 else 0) + (if x.holding.Some? then 1 else 0)
  }

  /**
   * In every run: tokens in both channels, tokens held and tokens not yet issued add up to the limit, so a task that wants to
   * send always finds room; and the leader's place is in the node list.
   */
  lemma {:induction false} TokensConserved(max: nat, nodes: seq<Node>, id: nat, es: seq<Step>)
    requires nodes != [] && LegalRun(max, nodes, id, es)
    ensures var x := Run(max, nodes, id, es);
            && |x.backpressure| + |x.tasks| + Held(x) + x.unissued == max
            && (x.unissued > 0 || x.checking.Some? || x.holding.Some? ==> |x.backpressure| < max && |x.tasks| < max)
            && x.gen.leader < |x.gen.nodes|
  {
    RunKeeps(max, nodes, id, es);
  }

  lemma {:induction false} ElementsFit(s: set<nat>, m: multiset<nat>)
    requires forall i :: i in s ==> i in m
    ensures |s| <= |m|
    decreases |s|
  {
    if s != {} {
      var i :| i in s;
      var rest := m - multiset{i};
      ElementsFit2(s - {i}, m, i);
      assert m == rest + multiset{i};
      ElementsFit(s - {i}, rest);
    }
  }

  lemma ElementsFit2(s: set<nat>, m: multiset<nat>, i: nat)
    requires i !in s && forall j :: j in s ==> j in m
    ensures forall j :: j in s ==> j in m - multiset{i}
  {
  }

  /** In every run at most `max_concurrent_requests` requests are outstanding, each in flight exactly once. */
  lemma {:induction false} OutstandingBounded(max: nat, nodes: seq<Node>, id: nat, es: seq<Step>)
    requires nodes != [] && LegalRun(max, nodes, id, es)
    ensures var x := Run(max, nodes, id, es);
            && |x.gen.outstanding.Keys| <= max
            && (forall i :: i in x.gen.outstanding ==> Tokens(x)[i] == 1)
  {
    RunKeeps(max, nodes, id, es);
    var x := Run(max, nodes, id, es);
    ElementsFit(x.gen.outstanding.Keys, Tokens(x));
  }

  /** With at least one token some task can always move. */
  lemma {:induction false} NeverStuck(max: nat, nodes: seq<Node>, id: nat, es: seq<Step>)
    requires nodes != [] && LegalRun(max, nodes, id, es) && max > 0
    ensures exists e :: Enabled(max, Run(max, nodes, id, es), e)
  {
    RunKeeps(max, nodes, id, es);
    TokensConserved(max, nodes, id, es);
    var x := Run(max, nodes, id, es);
    var e := if x.unissued > 0 then Issue
             else if x.holding.Some? then GeneratorSends
             else if x.checking.Some? then CheckerAnswers(None)
             else if x.tasks != [] then CheckerTakes
             else GeneratorTakes(Leader, 0);
    assert Enabled(max, x, e);
  }
}
