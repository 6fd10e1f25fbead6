/**
  The agent loop of a turn and its fallback over the router's plan (internal/engine/turn.go,
  internal/router/router.go). What the models, the tools, the clock and the user do is a `World`; every
  statement holds in all of them.
 */
module TurnLoop {
  import opened Text
  import opened ToolRounds

  datatype Failure =
    | Cancelled | DeadlineExceeded | BudgetReached(reason: Reason) | KeyRefused | ModelError | NoOtherModel

  /** The user and the turn's deadline. */
  datatype Context = Live | Stopped | TimedOut

  /** What comes of one attempt: an answer, an error, or the end of the turn's context meanwhile. */
  datatype Reply =
    | Answer(calls: seq<Call>, tokens: int, cost: real)
    | Error(retryable: bool, tokens: int, cost: real)
    | Cut(tokens: int, cost: real)

  datatype World = World(
    context: nat -> Context,        // after so many tool rounds
    lateInRound: nat -> bool,       // is the turn's time used up, after so many tool rounds
    lateInCall: nat -> bool,        // the same, after so many attempts
    lateAfterFailure: bool,         // the same, after a model call that failed
    refused: nat -> bool,           // after so many attempts, the key's budget is spent or the provider is unknown
    reply: nat -> Reply,            // to the attempt with this number
    result: (nat, nat) -> string)   // of a call, by its round and its place in it

  datatype Outcome = Completed | Paused(reason: Reason) | Failed(failure: Failure)

  /** How one model attempt ended. */
  datatype End = Used | Broke | Interrupted

  /** One attempt on a route of the plan, what it asked for and what it cost. */
  datatype Attempt = Attempt(route: nat, end: End, calls: seq<Call>, tokens: int, cost: real)

  function EndOf(r: Reply): End {
    match r
    case Answer(_, _, _) => Used
    case Error(_, _, _) => Broke
    case Cut(_, _) => Interrupted
  }

  /** The attempt with number `k`, on a route. */
  function AttemptOn(w: World, k: nat, route: nat): Attempt {
    var r := w.reply(k);
    Attempt(route, EndOf(r), if r.Answer? then r.calls else [], r.tokens, r.cost)
  }

  /** Every attempt is the world's. */
  ghost predicate InWorld(w: World, attempts: seq<Attempt>) {
    forall k | 0 <= k < |attempts| :: attempts[k] == AttemptOn(w, k, attempts[k].route)
  }

  // What a run of attempts looks like

  function Count(attempts: seq<Attempt>, end: End): nat {
    if attempts == [] then 0
    else Count(attempts[..|attempts| - 1], end) + if attempts[|attempts| - 1].end == end then 1 else 0
  }

  lemma CountGrows(attempts: seq<Attempt>, a: Attempt, end: End)
    ensures Count(attempts + [a], end) == Count(attempts, end) + if a.end == end then 1 else 0
  {
    assert (attempts + [a])[..|attempts|] == attempts;
  }

  /** The route after an attempt: the same after an answer, the next one after an error. */
  function After(a: Attempt): nat {
    if a.end == Used then a.route else a.route + 1
  }

  /** The attempts start on the first route and go down the plan. */
  ghost predicate IsWalk(attempts: seq<Attempt>) {
    && (attempts != [] ==> attempts[0].route == 0)
    && forall i | 0 <= i < |attempts| - 1 :: attempts[i + 1].route == After(attempts[i])
  }

  function Position(attempts: seq<Attempt>): nat {
    if attempts == [] then 0 else After(attempts[|attempts| - 1])
  }

  lemma WalkGrows(attempts: seq<Attempt>, a: Attempt)
    requires IsWalk(attempts) && a.route == Position(attempts)
    ensures IsWalk(attempts + [a]) && Position(attempts + [a]) == After(a)
  {}

  /** A route that was left is never tried again, and none is skipped. */
  lemma {:induction false} WalksGoDown(attempts: seq<Attempt>, i: nat, j: nat)
    requires IsWalk(attempts) && i < j < |attempts|
    ensures attempts[i].route <= attempts[j].route
    ensures attempts[i].end != Used ==> attempts[i].route < attempts[j].route
    ensures attempts[j].route <= attempts[i].route + (j - i)
    decreases j - i
  {
    if i + 1 < j {
      WalksGoDown(attempts, i + 1, j);
    }
  }

  function TokensOf(attempts: seq<Attempt>): int {
    if attempts == [] then 0 else TokensOf(attempts[..|attempts| - 1]) + attempts[|attempts| - 1].tokens
  }

  function CostOf(attempts: seq<Attempt>): real {
    if attempts == [] then 0.0 else CostOf(attempts[..|attempts| - 1]) + attempts[|attempts| - 1].cost
  }

  lemma SumsGrow(attempts: seq<Attempt>, a: Attempt)
    ensures TokensOf(attempts + [a]) == TokensOf(attempts) + a.tokens
    ensures CostOf(attempts + [a]) == CostOf(attempts) + a.cost
  {
    assert (attempts + [a])[..|attempts|] == attempts;
  }

  /** No attempt begins once the budget of tokens or money is used up. */
  ghost predicate WithinBudget(attempts: seq<Attempt>, limits: Limits) {
    forall k | 0 <= k < |attempts| ::
      TokensOf(attempts[..k]) < limits.maxTokens && CostOf(attempts[..k]) < limits.maxCost
  }

  lemma BudgetGrows(attempts: seq<Attempt>, a: Attempt, limits: Limits)
    requires WithinBudget(attempts, limits)
    requires TokensOf(attempts) < limits.maxTokens && CostOf(attempts) < limits.maxCost
    ensures WithinBudget(attempts + [a], limits)
  {
    forall k | 0 <= k < |attempts + [a]|
      ensures TokensOf((attempts + [a])[..k]) < limits.maxTokens && CostOf((attempts + [a])[..k]) < limits.maxCost
    {
      assert (attempts + [a])[..k] == if k == |attempts| then attempts else attempts[..k];
    }
  }

  /** Never three times the same round, before the last one. */
  ghost predicate NoEarlierRepetition(rounds: seq<Round>) {
    forall k | 0 <= k < |rounds| :: Repeats(Texts(rounds[..k])) < 3
  }

  function Max(a: int, b: int): int {
    if a < b then b else a
  }

  /** The selection a turn resolved to: the plan, where it is in it, and the trail so far. */
  class Resolved {
    const routes: nat  // how many routes the plan has
    var nextIndex: nat
    var route: nat
    var trail: seq<Attempt>

    constructor (routes: nat)
      requires routes > 0
      ensures this.routes == routes && nextIndex == 1 && route == 0 && trail == []
    {
      this.routes := routes;
      nextIndex, route, trail := 1, 0, [];
    }

    /** Plan.Next: the next untried route. */
    method Next() returns (next: Option<nat>)
      modifies this`nextIndex
      ensures old(nextIndex) < routes ==> next == Some(old(nextIndex)) && nextIndex == old(nextIndex) + 1
      ensures old(nextIndex) >= routes ==> next == None && nextIndex == old(nextIndex)
    {
      if nextIndex >= routes {
        return None;
      }
      next := Some(nextIndex);
      nextIndex := nextIndex + 1;
    }
  }

  /** The state of a turn between attempts: where it is in the plan, and what it has used. */
  datatype Progress = Progress(
    limits: Limits, routes: nat, nextIndex: nat, route: nat, trail: seq<Attempt>, tokens: int, cost: real)

  function Now(res: Resolved, budget: TurnBudget): Progress
    reads res, budget
  {
    Progress(budget.limits, res.routes, res.nextIndex, res.route, res.trail, budget.tokens, budget.cost)
  }

  /** What holds whenever a model may be tried. */
  ghost predicate Going(p: Progress, attempts: seq<Attempt>) {
    && p.trail == attempts && IsWalk(attempts) && WithinBudget(attempts, p.limits)
    && p.route == Position(attempts) == p.nextIndex - 1 < p.routes
    && Count(attempts, Broke) == p.nextIndex - 1 && Count(attempts, Interrupted) == 0
    && p.tokens == TokensOf(attempts) && p.cost == CostOf(attempts)
  }

  /** What holds once no model will be tried again: at most one attempt more, which was no answer. */
  ghost predicate Over(p: Progress, attempts: seq<Attempt>) {
    && IsWalk(attempts) && WithinBudget(attempts, p.limits)
    && Count(attempts, Broke) + Count(attempts, Interrupted) <= p.routes
    && (p.trail == attempts || (attempts != [] && p.trail == attempts[..|attempts| - 1]))
    && p.tokens == TokensOf(attempts) && p.cost == CostOf(attempts)
  }

  /** The progress after one attempt that is recorded in the trail. */
  function Recorded(p: Progress, a: Attempt): Progress {
    p.(trail := p.trail + [a], tokens := p.tokens + a.tokens, cost := p.cost + a.cost)
  }

  lemma AttemptIsSound(p: Progress, attempts: seq<Attempt>, a: Attempt)
    requires Going(p, attempts) && a.route == p.route
    requires p.tokens < p.limits.maxTokens && p.cost < p.limits.maxCost
    ensures a.end == Used ==> Going(Recorded(p, a), attempts + [a])
    ensures a.end == Broke ==> Over(Recorded(p, a), attempts + [a])
    ensures a.end == Broke && p.nextIndex < p.routes ==>
      Going(Recorded(p, a).(nextIndex := p.nextIndex + 1, route := p.nextIndex), attempts + [a])
    ensures a.end == Interrupted ==> Over(Recorded(p, a).(trail := p.trail), attempts + [a])
    ensures a.end == Broke ==> Count(attempts + [a], Broke) == p.nextIndex <= p.routes
    ensures Count(attempts + [a], Used) == Count(attempts, Used) + if a.end == Used then 1 else 0
  {
    WalkGrows(attempts, a);
    SumsGrow(attempts, a);
    BudgetGrows(attempts, a, p.limits);
    CountGrows(attempts, a, Used);
    CountGrows(attempts, a, Broke);
    CountGrows(attempts, a, Interrupted);
    assert (attempts + [a])[..|attempts|] == attempts;
    hide IsWalk, WithinBudget, Position, Count, TokensOf, CostOf;
  }

  lemma GoingIsOver(p: Progress, attempts: seq<Attempt>)
    requires Going(p, attempts)
    ensures Over(p, attempts)
  {}

  lemma {:induction false} EveryAttemptCounts(attempts: seq<Attempt>)
    ensures |attempts| == Count(attempts, Used) + Count(attempts, Broke) + Count(attempts, Interrupted)
  {
    if attempts != [] {
      EveryAttemptCounts(attempts[..|attempts| - 1]);
    }
  }

  /** Every route but the current one has failed once; once over, every route at most once. */
  lemma AttemptsSoFar(p: Progress, attempts: seq<Attempt>)
    ensures Going(p, attempts) ==> |attempts| < Count(attempts, Used) + p.routes
    ensures Over(p, attempts) ==> |attempts| <= Count(attempts, Used) + p.routes
  {
    EveryAttemptCounts(attempts);
    hide Count, IsWalk, WithinBudget;
  }

  predicate AnswersWith(attempts: seq<Attempt>, calls: seq<Call>) {
    attempts != [] && attempts[|attempts| - 1].end == Used && attempts[|attempts| - 1].calls == calls
  }

  predicate EndsIn(attempts: seq<Attempt>, end: End) {
    attempts != [] && attempts[|attempts| - 1].end == end
  }

  predicate MayRetry(w: World, attempts: seq<Attempt>) {
    attempts != [] && w.reply(|attempts| - 1).Error? && w.reply(|attempts| - 1).retryable
  }

  predicate Exhausted(p: Progress, late: bool, reason: Reason) {
    match reason
    case OutOfTime => late
    case OutOfTokens => !late && p.tokens >= p.limits.maxTokens
    case OutOfMoney => !late && p.tokens < p.limits.maxTokens && p.cost >= p.limits.maxCost
    case _ => false
  }

  /** Why a model call gave up after these attempts. */
  ghost predicate GivesUp(w: World, p: Progress, attempts: seq<Attempt>, f: Failure) {
    match f
    case BudgetReached(reason) => Exhausted(p, w.lateInCall(|attempts|), reason)
    case KeyRefused => w.refused(|attempts|)
    case Cancelled => EndsIn(attempts, Interrupted)
    case ModelError => EndsIn(attempts, Broke) && !MayRetry(w, attempts)
    case NoOtherModel => EndsIn(attempts, Broke) && MayRetry(w, attempts) && Count(attempts, Broke) == p.routes
    case DeadlineExceeded => false
  }

  lemma InWorldGrows(w: World, attempts: seq<Attempt>, route: nat)
    requires InWorld(w, attempts)
    ensures InWorld(w, attempts + [AttemptOn(w, |attempts|, route)])
  {}

  /** The next attempt, and why the call gives up after it if it does. */
  lemma NextAttempt(w: World, p: Progress, attempts: seq<Attempt>)
    requires Going(p, attempts) && InWorld(w, attempts)
    requires p.tokens < p.limits.maxTokens && p.cost < p.limits.maxCost
    ensures
      var (r, a) := (w.reply(|p.trail|), AttemptOn(w, |p.trail|, p.route));
      var (more, now) := (attempts + [a], Recorded(p, a));
      && InWorld(w, more) && Count(more, Used) == Count(attempts, Used) + (if r.Answer? then 1 else 0)
      && (r.Answer? ==> Going(now, more) && AnswersWith(more, r.calls))
      && (r.Cut? ==> Over(now.(trail := p.trail), more) && GivesUp(w, now.(trail := p.trail), more, Cancelled))
      && (r.Error? && !r.retryable ==> Over(now, more) && GivesUp(w, now, more, ModelError))
      && (r.Error? && r.retryable && p.nextIndex >= p.routes ==> Over(now, more) && GivesUp(w, now, more, NoOtherModel))
      && (r.Error? && p.nextIndex < p.routes ==> Going(now.(nextIndex := p.nextIndex + 1, route := p.nextIndex), more))
  {
    hide Going, Over, InWorld, Count;
    var a := AttemptOn(w, |attempts|, p.route);
    TrailSoFar(p, attempts);
    AttemptIsSound(p, attempts, a);
    InWorldGrows(w, attempts, p.route);
  }

  lemma TrailSoFar(p: Progress, attempts: seq<Attempt>)
    requires Going(p, attempts)
    ensures p.trail == attempts && p.nextIndex <= p.routes
  {}

  /** callModel: tries the routes of the plan until one answers. */
  method CallModel(w: World, res: Resolved, budget: TurnBudget, ghost before: seq<Attempt>)
      returns (calls: seq<Call>, failure: Option<Failure>, ghost attempts: seq<Attempt>)
    requires Going(Now(res, budget), before) && InWorld(w, before) && budget.Valid()
    modifies res`nextIndex, res`route, res`trail, budget`tokens, budget`cost
    ensures budget.Valid() && InWorld(w, attempts) && before <= attempts
    ensures Count(attempts, Used) == Count(before, Used) + if failure == None then 1 else 0
    ensures failure == None ==> Going(Now(res, budget), attempts) && AnswersWith(attempts, calls)
    ensures failure.Some? ==> Over(Now(res, budget), attempts) && GivesUp(w, Now(res, budget), attempts, failure.value)
  {
    hide Going, Over, Count, Repeats, Texts, InWorld, AnswersWith, MayRetry, EndsIn, EndOf;
    attempts := before;
    while true
      invariant Going(Now(res, budget), attempts) && InWorld(w, attempts) && budget.Valid()
      invariant before <= attempts && Count(attempts, Used) == Count(before, Used)
      decreases res.routes - res.nextIndex
    {
      ghost var p := Now(res, budget);
      GoingIsOver(p, attempts);
      TrailSoFar(p, attempts);
      var late := w.lateInCall(|res.trail|);
      var reason := budget.StopReason(late);
      if reason.Some? {
        return [], Some(BudgetReached(reason.value)), attempts;
      }
      if w.refused(|res.trail|) {
        return [], Some(KeyRefused), attempts;
      }
      NextAttempt(w, p, attempts);
      hide GivesUp;
      var reply := w.reply(|res.trail|);
      budget.AddUsage(reply.tokens, reply.cost);
      var a := AttemptOn(w, |res.trail|, res.route);
      attempts := attempts + [a];
      if reply.Answer? {
        res.trail := res.trail + [a];
        return reply.calls, None, attempts;
      }
      if reply.Cut? {
        return [], Some(Cancelled), attempts;
      }
      res.trail := res.trail + [a];
      if !reply.retryable {
        return [], Some(ModelError), attempts;
      }
      var next := res.Next();
      if next.None? {
        return [], Some(NoOtherModel), attempts;
      }
      res.route := next.value;
    }
  }

  // The agent loop

  /** The rounds run so far: at most the ceiling, and never three equal ones in a row before now. */
  ghost predicate RoundsOk(rounds: seq<Round>, limits: Limits) {
    && |rounds| <= Max(0, limits.maxToolRounds)
    && (forall k | 0 <= k <= |rounds| :: Repeats(Texts(rounds[..k])) < 3)
    && AllAnswered(rounds)
  }

  lemma RoundsGrow(rounds: seq<Round>, r: Round, limits: Limits)
    requires RoundsOk(rounds, limits) && |rounds| < limits.maxToolRounds && |r.calls| == |r.results|
    ensures NoEarlierRepetition(rounds + [r]) && AllAnswered(rounds + [r]) && |rounds + [r]| <= limits.maxToolRounds
    ensures Repeats(Texts(rounds + [r])) < 3 ==> RoundsOk(rounds + [r], limits)
    ensures Repeats(Texts(rounds + [r])) <= 3
  {
    hide Repeats, Texts;
    var more := rounds + [r];
    forall k | 0 <= k <= |rounds| ensures Repeats(Texts(more[..k])) < 3 {
      assert more[..k] == rounds[..k];
    }
    assert more[..|more|] == more && rounds[..|rounds|] == rounds;
    TextsGrow(rounds, r);
    RepeatsGrow(Texts(rounds), Written(r));
  }

  lemma RoundsSoFar(rounds: seq<Round>, limits: Limits)
    requires RoundsOk(rounds, limits)
    ensures NoEarlierRepetition(rounds) && AllAnswered(rounds) && Repeats(Texts(rounds)) < 3
    ensures |rounds| <= Max(0, limits.maxToolRounds)
  {
    hide Repeats, Texts;
    assert rounds[..|rounds|] == rounds;
  }

  /** Runs every tool the model asked for. */
  method RunTools(w: World, round: nat, calls: seq<Call>) returns (results: seq<string>)
    ensures results == ResultsOf(w, round, |calls|)
  {
    results := [];
    for i := 0 to |calls|
      invariant results == ResultsOf(w, round, i)
    {
      results := results + [w.result(round, i)];
    }
  }

  function ResultsOf(w: World, round: nat, n: nat): (results: seq<string>)
    ensures |results| == n
  {
    if n == 0 then [] else ResultsOf(w, round, n - 1) + [w.result(round, n - 1)]
  }

  /** The answers among some attempts, in order. */
  function Answers(attempts: seq<Attempt>): (calls: seq<seq<Call>>)
    ensures |calls| == Count(attempts, Used)
  {
    if attempts == [] then []
    else
      var last := attempts[|attempts| - 1];
      Answers(attempts[..|attempts| - 1]) + if last.end == Used then [last.calls] else []
  }

  lemma {:induction false} AnswersGrow(attempts: seq<Attempt>, more: seq<Attempt>)
    requires attempts <= more && Count(more, Used) == Count(attempts, Used) + 1 && EndsIn(more, Used)
    ensures Answers(more) == Answers(attempts) + [more[|more| - 1].calls]
  {
    var init := more[..|more| - 1];
    if attempts == more {
    } else {
      assert attempts <= init;
      SameAnswers(attempts, init);
    }
  }

  lemma {:induction false} SameAnswers(attempts: seq<Attempt>, more: seq<Attempt>)
    requires attempts <= more && Count(more, Used) == Count(attempts, Used)
    ensures Answers(more) == Answers(attempts)
    decreases |more|
  {
    if attempts != more {
      var init := more[..|more| - 1];
      assert attempts <= init;
      CountsOnlyGrow(attempts, init);
      SameAnswers(attempts, init);
    }
  }

  lemma {:induction false} CountsOnlyGrow(attempts: seq<Attempt>, more: seq<Attempt>)
    requires attempts <= more
    ensures Count(attempts, Used) <= Count(more, Used)
    decreases |more|
  {
    if attempts != more {
      assert attempts <= more[..|more| - 1];
      CountsOnlyGrow(attempts, more[..|more| - 1]);
    }
  }

  /** Each round ran the calls of one answer and has the results of its tools. */
  ghost predicate RoundsFollow(w: World, attempts: seq<Attempt>, rounds: seq<Round>) {
    && |rounds| <= |Answers(attempts)|
    && forall n | 0 <= n < |rounds| ::
      rounds[n] == Round(Answers(attempts)[n], ResultsOf(w, n, |rounds[n].calls|))
  }

  /** The model's answer with number `n`, among the first attempts in order, was the reply with number `k`. */
  predicate IsAnswer(w: World, attempts: seq<Attempt>, k: nat, n: nat) {
    k < |attempts| && w.reply(k).Answer? && Count(attempts[..k], Used) == n
  }

  /** The round with number `n` ran what the answer with that number asked for, and has each call's own result. */
  ghost predicate IsTheWorlds(w: World, attempts: seq<Attempt>, n: nat, r: Round) {
    && (exists k :: IsAnswer(w, attempts, k, n) && r.calls == w.reply(k).calls)
    && |r.results| == |r.calls|
    && forall i | 0 <= i < |r.calls| :: r.results[i] == w.result(n, i)
  }

  ghost predicate RoundsAreTheWorlds(w: World, attempts: seq<Attempt>, rounds: seq<Round>) {
    forall n | 0 <= n < |rounds| :: IsTheWorlds(w, attempts, n, rounds[n])
  }

  lemma {:induction false} ResultsAre(w: World, round: nat, n: nat, i: nat)
    requires i < n
    ensures ResultsOf(w, round, n)[i] == w.result(round, i)
  {
    if i < n - 1 {
      ResultsAre(w, round, n - 1, i);
    }
  }

  lemma {:induction false} AnswersAre(w: World, attempts: seq<Attempt>, n: nat) returns (k: nat)
    requires InWorld(w, attempts) && n < |Answers(attempts)|
    ensures IsAnswer(w, attempts, k, n) && Answers(attempts)[n] == w.reply(k).calls
  {
    var init := attempts[..|attempts| - 1];
    if n < |Answers(init)| {
      assert forall j | 0 <= j < |init| :: init[j] == attempts[j];
      k := AnswersAre(w, init, n);
      assert attempts[..k] == init[..k];
    } else {
      k := |init|;
    }
  }

  lemma RoundIsTheWorlds(w: World, attempts: seq<Attempt>, n: nat, r: Round)
    requires InWorld(w, attempts) && n < |Answers(attempts)|
    requires r == Round(Answers(attempts)[n], ResultsOf(w, n, |r.calls|))
    ensures IsTheWorlds(w, attempts, n, r)
  {
    hide InWorld, Answers, ResultsOf, Count, IsAnswer;
    var k := AnswersAre(w, attempts, n);
    forall i | 0 <= i < |r.calls| ensures r.results[i] == w.result(n, i) {
      ResultsAre(w, n, |r.calls|, i);
    }
  }

  lemma RoundsFollowTheWorld(w: World, attempts: seq<Attempt>, rounds: seq<Round>)
    requires InWorld(w, attempts) && RoundsFollow(w, attempts, rounds)
    ensures RoundsAreTheWorlds(w, attempts, rounds)
  {
    hide InWorld, Answers, ResultsOf, Count, IsTheWorlds;
    forall n | 0 <= n < |rounds| ensures IsTheWorlds(w, attempts, n, rounds[n]) {
      RoundIsTheWorlds(w, attempts, n, rounds[n]);
    }
  }

  lemma OneAnswerMore(attempts: seq<Attempt>, more: seq<Attempt>, calls: seq<Call>)
    requires attempts <= more && Count(more, Used) == Count(attempts, Used) + 1 && AnswersWith(more, calls)
    ensures Answers(more) == Answers(attempts) + [calls]
  {
    AnswersGrow(attempts, more);
    hide Answers, Count;
  }

  lemma RoundsFollowMore(w: World, attempts: seq<Attempt>, more: seq<Attempt>, rounds: seq<Round>, calls: seq<Call>)
    requires RoundsFollow(w, attempts, rounds) && |rounds| == |Answers(attempts)|
    requires attempts <= more && Count(more, Used) == Count(attempts, Used) + 1 && AnswersWith(more, calls)
    ensures RoundsFollow(w, more, rounds)
    ensures RoundsFollow(w, more, rounds + [Round(calls, ResultsOf(w, |rounds|, |calls|))])
  {
    hide Answers, ResultsOf, Count, AnswersWith;
    OneAnswerMore(attempts, more, calls);
    var longer := rounds + [Round(calls, ResultsOf(w, |rounds|, |calls|))];
    forall n | 0 <= n < |longer|
      ensures longer[n] == Round(Answers(more)[n], ResultsOf(w, n, |longer[n].calls|))
    {
      assert longer[n] == if n < |rounds| then rounds[n] else Round(calls, ResultsOf(w, n, |calls|));
    }
  }

  lemma RoundsStillFollow(w: World, attempts: seq<Attempt>, more: seq<Attempt>, rounds: seq<Round>)
    requires RoundsFollow(w, attempts, rounds) && attempts <= more && Count(more, Used) == Count(attempts, Used)
    ensures RoundsFollow(w, more, rounds)
  {
    SameAnswers(attempts, more);
  }

  /** Why a turn ended with this outcome, after these attempts and rounds. */
  ghost predicate Because(w: World, p: Progress, attempts: seq<Attempt>, rounds: seq<Round>, outcome: Outcome) {
    var n, answers := |rounds|, Count(attempts, Used);
    match outcome
    case Completed => AnswersWith(attempts, []) && answers == n + 1
    case Paused(ToolCeiling) => EndsIn(attempts, Used) && answers == n + 1 && n >= p.limits.maxToolRounds
    case Paused(Repetition) => answers == n && Repeats(Texts(rounds)) == 3
    case Paused(reason) =>
      && answers == n && Repeats(Texts(rounds)) < 3
      && (|| (w.context(n) != Stopped && Exhausted(p, w.lateInRound(n), reason))
          || (w.context(n) == Live && Exhausted(p, w.lateAfterFailure, reason)
              && exists f :: GivesUp(w, p, attempts, f)))
    case Failed(failure) =>
      && answers == n && Repeats(Texts(rounds)) < 3
      && match w.context(n)
         case Stopped => failure == Cancelled
         case TimedOut => failure == DeadlineExceeded && Solvent(p, w.lateInRound(n))
         case Live => GivesUp(w, p, attempts, failure) && Solvent(p, w.lateAfterFailure)
  }

  predicate Solvent(p: Progress, late: bool) {
    !late && p.tokens < p.limits.maxTokens && p.cost < p.limits.maxCost
  }

  /**
    runTurn: models and tools in turn, until the model is done or a limit is reached. At most as many
    attempts as the tool ceiling and the plan's routes together.
   */
  method RunTurn(w: World, res: Resolved, budget: TurnBudget) returns (outcome: Outcome, ghost attempts: seq<Attempt>)
    requires res.routes > 0 && res.nextIndex == 1 && res.route == 0 && res.trail == []
    requires budget.Valid() && budget.rounds == [] && budget.tokens == 0 && budget.cost == 0.0
    modifies res, budget
    ensures budget.Valid() && InWorld(w, attempts) && Over(Now(res, budget), attempts)
    ensures |attempts| <= Max(0, budget.limits.maxToolRounds) + res.routes
    ensures |budget.rounds| <= Max(0, budget.limits.maxToolRounds)
    ensures RoundsAreTheWorlds(w, attempts, budget.rounds) && NoEarlierRepetition(budget.rounds)
    ensures Because(w, Now(res, budget), attempts, budget.rounds, outcome)
  {
    hide Going, Over, Count, Repeats, Texts, RoundsOk, NoEarlierRepetition, AllAnswered, InWorld, RoundsFollow, GivesUp,
         AnswersWith, Answers, ResultsOf, EndsIn, RoundsAreTheWorlds;
    attempts := [];
    StartsGoing(w, Now(res, budget));
    NoRounds(budget.limits);
    while true
      invariant Going(Now(res, budget), attempts) && InWorld(w, attempts) && budget.Valid()
      invariant RoundsOk(budget.rounds, budget.limits) && Count(attempts, Used) == |budget.rounds|
      invariant RoundsFollow(w, attempts, budget.rounds)
      decreases Max(0, budget.limits.maxToolRounds) - |budget.rounds|
    {
      ghost var before := attempts;
      RoundsSoFar(budget.rounds, budget.limits);
      RoundsFollowTheWorld(w, attempts, budget.rounds);
      GoingIsOver(Now(res, budget), attempts);
      AttemptsSoFar(Now(res, budget), attempts);
      var context := w.context(budget.toolRounds);
      var reason := budget.StopReason(w.lateInRound(budget.toolRounds));
      if context != Live {
        outcome := if reason.Some? && context == TimedOut then Paused(reason.value)
          else Failed(if context == TimedOut then DeadlineExceeded else Cancelled);
        return;
      }
      if reason.Some? {
        outcome := Paused(reason.value);
        return;
      }
      var calls, failure;
      calls, failure, attempts := CallModel(w, res, budget, attempts);
      AttemptsSoFar(Now(res, budget), attempts);
      if failure.Some? {
        RoundsStillFollow(w, before, attempts, budget.rounds);
        RoundsFollowTheWorld(w, attempts, budget.rounds);
        reason := budget.StopReason(w.lateAfterFailure);
        outcome := if reason.Some? then Paused(reason.value) else Failed(failure.value);
        return;
      }
      GoingIsOver(Now(res, budget), attempts);
      AnswersAreUsed(attempts, calls);
      RoundsFollowMore(w, before, attempts, budget.rounds, calls);
      RoundsFollowTheWorld(w, attempts, budget.rounds);
      if |calls| == 0 {
        outcome := Completed;
        return;
      }
      if budget.toolRounds >= budget.limits.maxToolRounds {
        outcome := Paused(ToolCeiling);
        return;
      }
      var results := RunTools(w, budget.toolRounds, calls);
      RoundsGrow(budget.rounds, Round(calls, results), budget.limits);
      var repeats := budget.ObserveToolRound(calls, results);
      if repeats >= 3 {
        RoundsFollowTheWorld(w, attempts, budget.rounds);
        outcome := Paused(Repetition);
        return;
      }
    }
  }

  lemma AnswersAreUsed(attempts: seq<Attempt>, calls: seq<Call>)
    requires AnswersWith(attempts, calls)
    ensures EndsIn(attempts, Used) && (|calls| == 0 ==> calls == [])
  {}

  lemma StartsGoing(w: World, p: Progress)
    requires p.routes > 0 && p.nextIndex == 1 && p.route == 0 && p.trail == [] && p.tokens == 0 && p.cost == 0.0
    ensures Going(p, []) && Count([], Used) == 0 && InWorld(w, []) && RoundsFollow(w, [], [])
  {}

  lemma NoRounds(limits: Limits)
    ensures RoundsOk([], limits)
  {}
}
