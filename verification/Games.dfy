/** The market-making practice game: sessions in which a player quotes two-sided prices to the
    interviewer, over exact numbers. A session counts its revealed hints here; the table row that
    lists them as text is in GameManagers. */
module Games {
  import opened Judges

  datatype Scenario = Scenario(
    id: int, category: string, prompt: string, unit: string, trueValue: real, hints: seq<string>)

  datatype GameConfig = GameConfig(maxRounds: int, hintPenalty: real, unitSize: real, noiseEpsilon: real)

  datatype Rules = Rules(scenarios: seq<Scenario>, config: GameConfig)

  datatype Round = Round(number: nat, quote: Quote, result: JudgeResult)

  datatype Play = Play(
    user: int, scenario: int, maxRounds: int, rounds: seq<Round>, position: real, cash: real, hints: nat, active: bool)

  datatype GameError =
    | NoScenarios | UnknownScenario | SessionNotFound | SessionEnded | CrossedQuote | NoHintsLeft

  datatype EndReason = MaxRoundsReached | PlayerClosed

  datatype Message =
    | GameStarted(session: int, scenario: Scenario, started: Play, revealed: seq<string>)
    | GameRoundResult(round: Round, newPosition: real, newCash: real, roundsRemaining: int, over: bool)
    | GameHintRevealed(index: nat, text: string, cost: real, cashLeft: real, hintsRemaining: int)
    | GameEnded(trueValue: real, finalPosition: real, finalCash: real, markToModel: real, reason: EndReason,
        played: seq<Round>)

  datatype Outcome = Sent(messages: seq<Message>) | Rejected(error: GameError)

  /** Every choice the program draws at random is part of the request. Sessions are numbered from 1. */
  datatype Request =
    | StartSession(user: int, category: string, forceNew: bool, pick: nat)
    | SubmitQuote(user: int, session: int, quote: Quote, draw: real)
    | RequestHint(user: int, session: int)
    | EndSession(user: int, session: int)

  /** The first scenario with this id, or the number of scenarios. */
  function FindScenario(scenarios: seq<Scenario>, id: int): (i: nat)
    ensures i <= |scenarios| && (i < |scenarios| ==> scenarios[i].id == id)
    ensures forall j :: 0 <= j < i ==> scenarios[j].id != id
  {
    if scenarios == [] || scenarios[0].id == id then 0 else 1 + FindScenario(scenarios[1..], id)
  }

  predicate Fits(scenarios: seq<Scenario>, category: string, s: Scenario) {
    s in scenarios && (category == "" || s.category == category)
  }

  /** The scenarios of a category; the empty category is all of them. */
  function InCategory(scenarios: seq<Scenario>, category: string): (pool: seq<Scenario>)
    ensures forall s :: s in pool <==> Fits(scenarios, category, s)
  {
    if scenarios == [] then []
    else
      var rest := InCategory(scenarios[..|scenarios| - 1], category);
      var last := scenarios[|scenarios| - 1];
      if category == "" || last.category == category then rest + [last] else rest
  }

  /** The newest active session of a user, or the number of sessions. */
  function ActiveOf(plays: seq<Play>, user: int): (i: nat)
    ensures i <= |plays| && (i < |plays| ==> plays[i].user == user && plays[i].active)
    ensures forall j :: i < j < |plays| ==> !(plays[j].user == user && plays[j].active)
    ensures i == |plays| ==> forall j :: 0 <= j < |plays| ==> !(plays[j].user == user && plays[j].active)
  {
    if plays == [] then 0
    else
      var n := |plays| - 1;
      if plays[n].user == user && plays[n].active then n
      else
        var i := ActiveOf(plays[..n], user);
        if i == n then n + 1 else i
  }

  function Limit(maxRounds: int): nat {
    if maxRounds < 1 then 1 else maxRounds
  }

  /** What the player is worth when every unit is valued at the truth. */
  function MarkToModel(cash: real, position: real, trueValue: real): real {
    cash + position * trueValue
  }

  function Score(p: Play, trueValue: real): real {
    MarkToModel(p.cash, p.position, trueValue)
  }

  function Final(p: Play, trueValue: real, reason: EndReason): Message {
    GameEnded(trueValue, p.position, p.cash, Score(p, trueValue), reason, p.rounds)
  }

  function Announce(rules: Rules, plays: seq<Play>, i: nat): Outcome
    requires i < |plays|
  {
    var at := FindScenario(rules.scenarios, plays[i].scenario);
    if at == |rules.scenarios| then Rejected(UnknownScenario)
    else
      var hints := rules.scenarios[at].hints;
      Sent([GameStarted(i + 1, rules.scenarios[at], plays[i],
          hints[..if plays[i].hints <= |hints| then plays[i].hints else |hints|])])
  }

  /** A session after a judged quote. A BUY fills the player's ask, a SELL the player's bid. */
  function AfterQuote(config: GameConfig, p: Play, quote: Quote, result: JudgeResult): Play {
    var unit := config.unitSize;
    var position := match result.verdict
      case BUY => p.position - unit
      case SELL => p.position + unit
      case _ => p.position;
    var cash := match result.verdict
      case BUY => p.cash + result.fillPrice * unit
      case SELL => p.cash - result.fillPrice * unit
      case _ => p.cash;
    p.(position := position, cash := cash, rounds := p.rounds + [Round(|p.rounds| + 1, quote, result)],
       active := |p.rounds| + 1 < p.maxRounds)
  }

  function AfterHint(config: GameConfig, p: Play): Play {
    p.(cash := p.cash - config.hintPenalty, hints := p.hints + 1)
  }

  predicate Owned(plays: seq<Play>, user: int, session: int) {
    1 <= session <= |plays| && plays[session - 1].user == user
  }

  function Quoted(rules: Rules, p: Play, s: Scenario, quote: Quote, draw: real): (Play, Outcome) {
    var result := JudgeQuote(quote, s.trueValue, rules.config.noiseEpsilon, draw);
    if result.verdict == INVALID then (p, Rejected(CrossedQuote))
    else
      var q := AfterQuote(rules.config, p, quote, result);
      var done := GameRoundResult(q.rounds[|p.rounds|], q.position, q.cash, p.maxRounds - |q.rounds|, !q.active);
      (q, Sent(if q.active then [done] else [done, Final(q, s.trueValue, MaxRoundsReached)]))
  }

  function Hinted(rules: Rules, p: Play, s: Scenario): (Play, Outcome) {
    if p.hints >= |s.hints| then (p, Rejected(NoHintsLeft))
    else
      var q := AfterHint(rules.config, p);
      (q, Sent([GameHintRevealed(p.hints, s.hints[p.hints], rules.config.hintPenalty, q.cash,
          |s.hints| - p.hints - 1)]))
  }

  function Ended(p: Play, s: Scenario): (Play, Outcome) {
    var q := p.(active := false);
    (q, Sent([Final(q, s.trueValue, PlayerClosed)]))
  }

  function Started(rules: Rules, plays: seq<Play>, user: int, category: string, forceNew: bool, pick: nat)
    : (seq<Play>, Outcome)
  {
    var current := ActiveOf(plays, user);
    if !forceNew && current < |plays| then (plays, Announce(rules, plays, current))
    else
      // the old session ends even if no new one can be started
      var kept := if current < |plays| then plays[current := plays[current].(active := false)] else plays;
      var pool := InCategory(rules.scenarios, category);
      if pool == [] then (kept, Rejected(NoScenarios))
      else
        var all := kept + [Play(user, pool[pick % |pool|].id, rules.config.maxRounds, [], 0.0, 0.0, 0, true)];
        (all, Announce(rules, all, |all| - 1))
  }

  /** What a request does to the session it names, once that is the user's, active, and of a known
      scenario. */
  function OnPlay(rules: Rules, p: Play, s: Scenario, request: Request): (Play, Outcome)
    requires !request.StartSession?
  {
    match request
    case SubmitQuote(_, _, quote, draw) => Quoted(rules, p, s, quote, draw)
    case RequestHint(_, _) => Hinted(rules, p, s)
    case EndSession(_, _) => Ended(p, s)
  }

  function Handle(rules: Rules, plays: seq<Play>, request: Request): (seq<Play>, Outcome) {
    if request.StartSession? then
      Started(rules, plays, request.user, request.category, request.forceNew, request.pick)
    else if !Owned(plays, request.user, request.session) then (plays, Rejected(SessionNotFound))
    else
      var i, p := request.session - 1, plays[request.session - 1];
      var at := FindScenario(rules.scenarios, p.scenario);
      if !p.active then (plays, Rejected(SessionEnded))
      else if at == |rules.scenarios| then (plays, Rejected(UnknownScenario))
      else
        var (q, outcome) := OnPlay(rules, p, rules.scenarios[at], request);
        (plays[i := q], outcome)
  }

  // ----- what every session keeps

  /** The interviewer's gain per unit over some rounds. */
  function EdgeSum(rounds: seq<Round>, trueValue: real): real {
    if rounds == [] then 0.0
    else EdgeSum(rounds[..|rounds| - 1], trueValue) + Edge(rounds[|rounds| - 1].result, trueValue)
  }

  function Band(epsilon: real): real {
    if epsilon > 0.0 then epsilon else 0.0
  }

  /** The session's worth is what the recorded rounds and the hints cost it; the rounds are numbered
      in order, are no more than allowed, and cost the interviewer no more than the noise. */
  ghost predicate Balanced(config: GameConfig, p: Play, s: Scenario) {
    && Score(p, s.trueValue)
       == -(config.unitSize * EdgeSum(p.rounds, s.trueValue)) - config.hintPenalty * (p.hints as real)
    && EdgeSum(p.rounds, s.trueValue) >= -(|p.rounds| as real * Band(config.noiseEpsilon))
    && p.hints <= |s.hints|
    && p.maxRounds == config.maxRounds && |p.rounds| <= Limit(p.maxRounds)
    && (p.active ==> |p.rounds| < Limit(p.maxRounds))
    && forall i :: 0 <= i < |p.rounds| ==> p.rounds[i].number == i + 1 && p.rounds[i].quote.bid <= p.rounds[i].quote.ask
  }

  ghost predicate Kept(rules: Rules, p: Play) {
    var at := FindScenario(rules.scenarios, p.scenario);
    at < |rules.scenarios| && Balanced(rules.config, p, rules.scenarios[at])
  }

  ghost predicate AllKept(rules: Rules, plays: seq<Play>) {
    && (forall i :: 0 <= i < |plays| ==> Kept(rules, plays[i]))
    && forall i, j :: 0 <= i < j < |plays| && plays[i].active && plays[j].active ==> plays[i].user != plays[j].user
  }

  /** A quote moves the session's worth by exactly the interviewer's edge. */
  lemma QuoteMovesScore(config: GameConfig, p: Play, quote: Quote, result: JudgeResult, trueValue: real)
    ensures Score(AfterQuote(config, p, quote, result), trueValue)
         == Score(p, trueValue) - config.unitSize * Edge(result, trueValue)
  {
  }

  lemma AfterQuoteBalanced(config: GameConfig, p: Play, s: Scenario, quote: Quote, result: JudgeResult)
    requires Balanced(config, p, s) && p.active && quote.bid <= quote.ask
    requires Edge(result, s.trueValue) >= -Band(config.noiseEpsilon)
    ensures Balanced(config, AfterQuote(config, p, quote, result), s)
  {
    QuoteMovesScore(config, p, quote, result, s.trueValue);
    hide Edge; hide Score; hide Band;
    var q := AfterQuote(config, p, quote, result);
    assert q.rounds[..|q.rounds| - 1] == p.rounds;
    var sum, edge, band := EdgeSum(p.rounds, s.trueValue), Edge(result, s.trueValue), Band(config.noiseEpsilon);
    Distributes(config.unitSize, sum, edge);
    Distributes(band, |p.rounds| as real, 1.0);
  }

  lemma Distributes(a: real, b: real, c: real)
    ensures a * (b + c) == a * b + a * c
  {
  }

  lemma QuoteKeeps(rules: Rules, p: Play, s: Scenario, quote: Quote, draw: real)
    requires Balanced(rules.config, p, s) && p.active
    ensures var q := Quoted(rules, p, s, quote, draw).0;
            && Balanced(rules.config, q, s)
            && (Exact(rules.config) ==> Score(q, s.trueValue) <= Score(p, s.trueValue))
  {
    hide Balanced; hide Score; hide JudgeQuote; hide Edge;
    var config, result := rules.config, JudgeQuote(quote, s.trueValue, rules.config.noiseEpsilon, draw);
    OnlyCrossedInvalid(quote, s.trueValue, config.noiseEpsilon, draw);
    EdgeBound(quote, s.trueValue, config.noiseEpsilon, draw);
    if result.verdict != INVALID {
      AfterQuoteBalanced(config, p, s, quote, result);
      QuoteMovesScore(config, p, quote, result, s.trueValue);
    }
  }

  lemma HintKeeps(rules: Rules, p: Play, s: Scenario)
    requires Balanced(rules.config, p, s)
    ensures Balanced(rules.config, Hinted(rules, p, s).0, s)
    ensures rules.config.hintPenalty >= 0.0 ==> Score(Hinted(rules, p, s).0, s.trueValue) <= Score(p, s.trueValue)
  {
    hide EdgeSum; hide Band; hide Limit;
    Distributes(rules.config.hintPenalty, p.hints as real, 1.0);
  }

  lemma FirstIsFound(scenarios: seq<Scenario>, s: Scenario)
    requires s in scenarios
    ensures FindScenario(scenarios, s.id) < |scenarios|
  {
  }

  /** No request on a session makes it worth more, unless the interviewer's judgement is noisy. */
  predicate Exact(config: GameConfig) {
    config.noiseEpsilon <= 0.0 && config.unitSize >= 0.0 && config.hintPenalty >= 0.0
  }

  lemma OnPlayKeeps(rules: Rules, p: Play, s: Scenario, request: Request)
    requires Balanced(rules.config, p, s) && p.active && !request.StartSession?
    ensures var q := OnPlay(rules, p, s, request).0;
            && Balanced(rules.config, q, s) && q.scenario == p.scenario && q.user == p.user
            && (Exact(rules.config) ==> Score(q, s.trueValue) <= Score(p, s.trueValue))
  {
    hide Balanced; hide Score;
    match request
    case SubmitQuote(_, _, quote, draw) => QuoteKeeps(rules, p, s, quote, draw);
    case RequestHint(_, _) => HintKeeps(rules, p, s);
    case EndSession(_, _) => EndKeeps(rules.config, p, s);
  }

  lemma EndKeeps(config: GameConfig, p: Play, s: Scenario)
    requires Balanced(config, p, s)
    ensures Balanced(config, p.(active := false), s)
    ensures Score(p.(active := false), s.trueValue) == Score(p, s.trueValue)
  {
  }

  lemma FreshBalanced(config: GameConfig, user: int, s: Scenario)
    ensures Balanced(config, Play(user, s.id, config.maxRounds, [], 0.0, 0.0, 0, true), s)
  {
  }

  lemma EndAllKeeps(rules: Rules, plays: seq<Play>, i: nat)
    requires AllKept(rules, plays) && i < |plays|
    ensures AllKept(rules, plays[i := plays[i].(active := false)])
  {
    hide Balanced;
    var p := plays[i];
    EndKeeps(rules.config, p, rules.scenarios[FindScenario(rules.scenarios, p.scenario)]);
  }

  lemma StartKeeps(rules: Rules, plays: seq<Play>, user: int, category: string, forceNew: bool, pick: nat)
    requires AllKept(rules, plays)
    ensures AllKept(rules, Started(rules, plays, user, category, forceNew, pick).0)
  {
    hide Balanced;
    var current := ActiveOf(plays, user);
    if current < |plays| { EndAllKeeps(rules, plays, current); }
    var pool := InCategory(rules.scenarios, category);
    if pool != [] {
      var s := pool[pick % |pool|];
      assert s in pool;
      FirstIsFound(rules.scenarios, s);
      var first := rules.scenarios[FindScenario(rules.scenarios, s.id)];
      FreshBalanced(rules.config, user, first);
    }
  }

  lemma HandleKeeps(rules: Rules, plays: seq<Play>, request: Request)
    requires AllKept(rules, plays)
    ensures AllKept(rules, Handle(rules, plays, request).0)
  {
    hide Balanced; hide OnPlay; hide Started;
    if request.StartSession? {
      StartKeeps(rules, plays, request.user, request.category, request.forceNew, request.pick);
    } else if Owned(plays, request.user, request.session) && plays[request.session - 1].active {
      var p := plays[request.session - 1];
      OnPlayKeeps(rules, p, rules.scenarios[FindScenario(rules.scenarios, p.scenario)], request);
    }
  }

  /** A request changes at most one existing session: an active one, of the user who makes it. It
      keeps the session's user and scenario, and never makes it worth more under exact judgement. */
  lemma HandleChanges(rules: Rules, plays: seq<Play>, request: Request, i: nat)
    requires AllKept(rules, plays) && i < |plays|
    ensures var after := Handle(rules, plays, request).0;
            && |plays| <= |after|
            && (after[i] != plays[i] ==> plays[i].active && plays[i].user == request.user)
            && after[i].scenario == plays[i].scenario
            && (Exact(rules.config) ==> Worth(rules, after[i]) <= Worth(rules, plays[i]))
  {
    hide Balanced; hide OnPlay; hide Score;
    if request.StartSession? {
      var current := ActiveOf(plays, request.user);
      if current < |plays| {
        var p := plays[current];
        EndKeeps(rules.config, p, rules.scenarios[FindScenario(rules.scenarios, p.scenario)]);
      }
    } else if Owned(plays, request.user, request.session) && plays[request.session - 1].active {
      var p := plays[request.session - 1];
      OnPlayKeeps(rules, p, rules.scenarios[FindScenario(rules.scenarios, p.scenario)], request);
    }
  }

  /** The session's mark-to-model worth (0 if its scenario is unknown). */
  function Worth(rules: Rules, p: Play): real {
    var at := FindScenario(rules.scenarios, p.scenario);
    if at == |rules.scenarios| then 0.0 else Score(p, rules.scenarios[at].trueValue)
  }

  // ----- the life of a session

  /** The message tells how the session ended, valued at the truth. */
  predicate Reports(m: Message, p: Play, s: Scenario, reason: EndReason) {
    && m.GameEnded? && m.reason == reason && m.trueValue == s.trueValue
    && m.finalPosition == p.position && m.finalCash == p.cash && m.played == p.rounds
    && m.markToModel == MarkToModel(p.cash, p.position, s.trueValue)
  }

  /** Position and cash after a fill of one unit, at the player's own price. */
  predicate Filled(config: GameConfig, p: Play, q: Play, quote: Quote, verdict: Verdict) {
    match verdict
    case BUY => q.position == p.position - config.unitSize && q.cash == p.cash + quote.ask * config.unitSize
    case SELL => q.position == p.position + config.unitSize && q.cash == p.cash - quote.bid * config.unitSize
    case _ => q.position == p.position && q.cash == p.cash
  }

  /** The session has had one more round, with this quote and judgement, and goes on exactly if that was
      not the last. */
  predicate HadRound(config: GameConfig, p: Play, q: Play, quote: Quote, result: JudgeResult) {
    && q == p.(rounds := q.rounds, position := q.position, cash := q.cash, active := |q.rounds| < p.maxRounds)
    && |q.rounds| == |p.rounds| + 1 && q.rounds[..|p.rounds|] == p.rounds
    && q.rounds[|p.rounds|].number == |q.rounds|
    && q.rounds[|p.rounds|].quote == quote && q.rounds[|p.rounds|].result == result
    && Filled(config, p, q, quote, result.verdict)
  }

  predicate TellsRound(m: Message, q: Play) {
    && m.GameRoundResult? && q.rounds != [] && m.round == q.rounds[|q.rounds| - 1]
    && m.newPosition == q.position && m.newCash == q.cash
    && m.roundsRemaining == q.maxRounds - |q.rounds| && m.over == !q.active
  }

  /** A quote is refused exactly if it is crossed. Else its round is told, and after the last round the
      end of the session too. */
  predicate QuoteAnswer(
      rules: Rules, p: Play, s: Scenario, quote: Quote, draw: real, q: Play, outcome: Outcome) {
    if quote.bid > quote.ask then q == p && outcome == Rejected(CrossedQuote)
    else
      && HadRound(rules.config, p, q, quote, JudgeQuote(quote, s.trueValue, rules.config.noiseEpsilon, draw))
      && outcome.Sent? && |outcome.messages| == (if q.active then 1 else 2)
      && TellsRound(outcome.messages[0], q)
      && (!q.active ==> Reports(outcome.messages[1], q, s, MaxRoundsReached))
  }

  predicate TellsHint(config: GameConfig, m: Message, k: nat, q: Play, s: Scenario) {
    && m.GameHintRevealed? && m.index == k < |s.hints| && m.text == s.hints[k] && m.cost == config.hintPenalty
    && m.cashLeft == q.cash && m.hintsRemaining == |s.hints| - q.hints
  }

  /** A hint is refused exactly if none is left. Else the text is that of the first hint not yet paid
      for; it is paid for, and nothing else changes. */
  predicate HintAnswer(rules: Rules, p: Play, s: Scenario, q: Play, outcome: Outcome) {
    if p.hints >= |s.hints| then q == p && outcome == Rejected(NoHintsLeft)
    else
      && q == p.(cash := p.cash - rules.config.hintPenalty, hints := p.hints + 1)
      && outcome.Sent? && |outcome.messages| == 1 && TellsHint(rules.config, outcome.messages[0], p.hints, q, s)
  }

  predicate EndAnswer(p: Play, s: Scenario, q: Play, outcome: Outcome) {
    && q == p.(active := false)
    && outcome.Sent? && |outcome.messages| == 1 && Reports(outcome.messages[0], q, s, PlayerClosed)
  }

  lemma QuoteAnswered(rules: Rules, p: Play, s: Scenario, quote: Quote, draw: real)
    ensures var (q, outcome) := Quoted(rules, p, s, quote, draw); QuoteAnswer(rules, p, s, quote, draw, q, outcome)
  {
    hide JudgeQuote; hide MarkToModel;
    OnlyCrossedInvalid(quote, s.trueValue, rules.config.noiseEpsilon, draw);
    FillsAtQuote(quote, s.trueValue, rules.config.noiseEpsilon, draw);
  }

  lemma HintAnswered(rules: Rules, p: Play, s: Scenario)
    ensures var (q, outcome) := Hinted(rules, p, s); HintAnswer(rules, p, s, q, outcome)
  {
  }

  /** A request on an active session of the user's changes that session alone, and is answered as said. */
  lemma RequestAnswered(rules: Rules, plays: seq<Play>, request: Request)
    requires AllKept(rules, plays) && !request.StartSession?
    requires 1 <= request.session <= |plays|
    requires plays[request.session - 1].user == request.user && plays[request.session - 1].active
    ensures var i, p := request.session - 1, plays[request.session - 1];
            var (after, outcome) := Handle(rules, plays, request);
            var at := FindScenario(rules.scenarios, p.scenario);
            && |after| == |plays| && at < |rules.scenarios|
            && var q, s := after[i], rules.scenarios[at];
               && after == plays[i := q]
               && match request
                  case SubmitQuote(_, _, quote, draw) => QuoteAnswer(rules, p, s, quote, draw, q, outcome)
                  case RequestHint(_, _) => HintAnswer(rules, p, s, q, outcome)
                  case EndSession(_, _) => EndAnswer(p, s, q, outcome)
  {
    hide Balanced; hide Quoted; hide Hinted; hide QuoteAnswer; hide HintAnswer;
    var p := plays[request.session - 1];
    assert Kept(rules, p);
    var s := rules.scenarios[FindScenario(rules.scenarios, p.scenario)];
    if request.SubmitQuote? { QuoteAnswered(rules, p, s, request.quote, request.draw); }
    if request.RequestHint? { HintAnswered(rules, p, s); }
  }

  predicate Owns(plays: seq<Play>, request: Request, i: nat) {
    i < |plays| && plays[i].user == request.user && (!request.StartSession? ==> request.session == i + 1)
  }

  /** What ends an active session: a forced new start of its user, an uncrossed quote for its last
      round, or a request to end it. Nothing else does, and nothing brings it back. */
  lemma SessionEnds(rules: Rules, plays: seq<Play>, request: Request, i: nat)
    requires AllKept(rules, plays) && i < |plays|
    ensures |plays| <= |Handle(rules, plays, request).0|
    ensures var p, q := plays[i], Handle(rules, plays, request).0[i];
            q.active <==> p.active && !(Owns(plays, request, i) && match request
              case StartSession(_, _, forceNew, _) => forceNew
              case SubmitQuote(_, _, quote, _) => quote.bid <= quote.ask && |p.rounds| + 1 >= p.maxRounds
              case RequestHint(_, _) => false
              case EndSession(_, _) => true)
  {
    hide Balanced; hide Quoted; hide Hinted; hide Announce;
    var p := plays[i];
    if !request.StartSession? && request.session == i + 1 && Owned(plays, request.user, request.session) && p.active {
      var s := rules.scenarios[FindScenario(rules.scenarios, p.scenario)];
      if request.SubmitQuote? { QuoteAnswered(rules, p, s, request.quote, request.draw); }
      if request.RequestHint? { HintAnswered(rules, p, s); }
    }
  }

  predicate TellsEnd(outcome: Outcome) {
    outcome.Sent? && exists k :: 0 <= k < |outcome.messages| && outcome.messages[k].GameEnded?
  }

  /** The end of a session is told exactly when a request on it has ended it, by the last message. A
      forced new start tells nothing of the session that it ends. */
  lemma EndIsTold(rules: Rules, plays: seq<Play>, request: Request)
    requires AllKept(rules, plays)
    ensures var (after, outcome) := Handle(rules, plays, request);
            && (TellsEnd(outcome) <==>
                  && !request.StartSession? && 1 <= request.session <= |plays| <= |after|
                  && plays[request.session - 1].active && !after[request.session - 1].active)
            && (TellsEnd(outcome) ==>
                  var q := after[request.session - 1];
                  var at := FindScenario(rules.scenarios, q.scenario);
                  var reason := if request.EndSession? then PlayerClosed else MaxRoundsReached;
                  && at < |rules.scenarios|
                  && Reports(outcome.messages[|outcome.messages| - 1], q, rules.scenarios[at], reason))
  {
    hide Balanced; hide Quoted; hide Hinted; hide Announce; hide MarkToModel;
    if !request.StartSession? && Owned(plays, request.user, request.session) && plays[request.session - 1].active {
      var p := plays[request.session - 1];
      var s := rules.scenarios[FindScenario(rules.scenarios, p.scenario)];
      if request.SubmitQuote? { QuoteAnswered(rules, p, s, request.quote, request.draw); }
      if request.RequestHint? { HintAnswered(rules, p, s); }
      var outcome := OnPlay(rules, p, s, request).1;
      if outcome.Sent? && outcome.messages[|outcome.messages| - 1].GameEnded? {
        assert TellsEnd(outcome);
      }
    } else if request.StartSession? {
      StartTells(rules, plays, request.user, request.category, request.forceNew, request.pick);
    }
  }

  lemma StartTells(rules: Rules, plays: seq<Play>, user: int, category: string, forceNew: bool, pick: nat)
    ensures !TellsEnd(Started(rules, plays, user, category, forceNew, pick).1)
  {
    hide FindScenario; hide InCategory; hide ActiveOf;
  }

  /** The result told is minus what the interviewer's edges and the hints brought in. */
  lemma ResultTold(rules: Rules, plays: seq<Play>, request: Request)
    requires AllKept(rules, plays) && TellsEnd(Handle(rules, plays, request).1)
    ensures var (after, outcome) := Handle(rules, plays, request);
            && outcome.Sent? && outcome.messages != []
            && !request.StartSession? && 1 <= request.session <= |after|
            && var m, q := outcome.messages[|outcome.messages| - 1], after[request.session - 1];
               m.GameEnded? && m.markToModel
                   == -(rules.config.unitSize * EdgeSum(q.rounds, m.trueValue))
                      - rules.config.hintPenalty * (q.hints as real)
  {
    hide Handle; hide EdgeSum; hide FindScenario;
    HandleKeeps(rules, plays, request);
    EndIsTold(rules, plays, request);
    assert Kept(rules, Handle(rules, plays, request).0[request.session - 1]);
  }

  /** Why a request on a session is refused, in every case; a refusal changes nothing. */
  lemma Refusals(rules: Rules, plays: seq<Play>, request: Request)
    requires AllKept(rules, plays) && !request.StartSession?
    ensures var (after, outcome) := Handle(rules, plays, request);
            var owned := 1 <= request.session <= |plays| && plays[request.session - 1].user == request.user;
            var open := owned && plays[request.session - 1].active;
            && (outcome == Rejected(SessionNotFound) <==> !owned)
            && (outcome == Rejected(SessionEnded) <==> owned && !open)
            && (outcome == Rejected(CrossedQuote) <==>
                  open && request.SubmitQuote? && request.quote.bid > request.quote.ask)
            && (outcome == Rejected(NoHintsLeft) <==>
                  open && request.RequestHint? &&
                  var at := FindScenario(rules.scenarios, plays[request.session - 1].scenario);
                  at < |rules.scenarios| && plays[request.session - 1].hints >= |rules.scenarios[at].hints|)
            && (outcome.Rejected? ==>
                  after == plays && outcome.error in {SessionNotFound, SessionEnded, CrossedQuote, NoHintsLeft})
  {
    hide Balanced; hide Quoted; hide Hinted;
    if Owned(plays, request.user, request.session) && plays[request.session - 1].active {
      var p := plays[request.session - 1];
      var s := rules.scenarios[FindScenario(rules.scenarios, p.scenario)];
      if request.SubmitQuote? { QuoteAnswered(rules, p, s, request.quote, request.draw); }
      if request.RequestHint? { HintAnswered(rules, p, s); }
    }
  }

  /** The message shows session i as it stands, with the hints paid for. */
  predicate Announces(rules: Rules, m: Message, plays: seq<Play>, i: nat) {
    && i < |plays| && m.GameStarted? && m.session == i + 1 && m.started == plays[i]
    && m.scenario in rules.scenarios && m.scenario.id == plays[i].scenario
    && plays[i].hints <= |m.scenario.hints| && m.revealed == m.scenario.hints[..plays[i].hints]
  }

  predicate Current(plays: seq<Play>, user: int, i: nat) {
    i < |plays| && plays[i].active && plays[i].user == user
  }

  lemma CurrentFound(plays: seq<Play>, user: int)
    ensures var k := ActiveOf(plays, user); k < |plays| ==> Current(plays, user, k)
    ensures ActiveOf(plays, user) == |plays| ==> forall i: nat :: !Current(plays, user, i)
  {
  }

  /** Nothing played, nothing owed. */
  predicate Fresh(config: GameConfig, p: Play, user: int) {
    && p.user == user && p.maxRounds == config.maxRounds && p.active
    && p.rounds == [] && p.position == 0.0 && p.cash == 0.0 && p.hints == 0
  }

  lemma Announced(rules: Rules, plays: seq<Play>, i: nat)
    requires AllKept(rules, plays) && i < |plays|
    ensures var outcome := Announce(rules, plays, i);
            outcome.Sent? && |outcome.messages| == 1 && Announces(rules, outcome.messages[0], plays, i)
  {
    assert Kept(rules, plays[i]);
  }

  /** A start shows the user's active session again, unless a new one is forced. Else it appends a fresh
      session on a scenario of the category, and shows it; it is refused exactly if there is no such
      scenario. */
  lemma StartAnswered(rules: Rules, plays: seq<Play>, request: Request)
    requires AllKept(rules, plays) && request.StartSession?
    ensures var (after, outcome) := Handle(rules, plays, request);
            if !request.forceNew && exists i: nat :: Current(plays, request.user, i) then
              && after == plays && outcome.Sent? && |outcome.messages| == 1
              && exists i: nat :: Current(plays, request.user, i) && Announces(rules, outcome.messages[0], plays, i)
            else if forall s :: !Fits(rules.scenarios, request.category, s) then
              |after| == |plays| && outcome == Rejected(NoScenarios)
            else
              && |after| == |plays| + 1
              && Fresh(rules.config, after[|plays|], request.user)
              && (exists s :: Fits(rules.scenarios, request.category, s) && s.id == after[|plays|].scenario)
              && outcome.Sent? && |outcome.messages| == 1 && Announces(rules, outcome.messages[0], after, |plays|)
  {
    hide Balanced; hide Announce; hide Announces; hide Current; hide ActiveOf; hide AllKept;
    HandleKeeps(rules, plays, request);
    CurrentFound(plays, request.user);
    var after := Handle(rules, plays, request).0;
    var current := ActiveOf(plays, request.user);
    var pool := InCategory(rules.scenarios, request.category);
    if !request.forceNew && current < |plays| {
      Announced(rules, plays, current);
    } else if pool != [] {
      assert pool[request.pick % |pool|] in pool;
      Announced(rules, after, |plays|);
    } else {
      forall s ensures !Fits(rules.scenarios, request.category, s) { assert s !in pool; }
    }
  }

  /** Every scenario of the category is the outcome of some draw. */
  lemma AnyScenarioDrawn(rules: Rules, plays: seq<Play>, user: int, category: string, s: Scenario)
    requires Fits(rules.scenarios, category, s)
    ensures exists pick: nat ::
              var after := Handle(rules, plays, Request.StartSession(user, category, true, pick)).0;
              |after| == |plays| + 1 && after[|plays|].scenario == s.id
  {
    hide ActiveOf; hide Announce; hide Fits;
    var pool := InCategory(rules.scenarios, category);
    assert s in pool;
    var pick :| 0 <= pick < |pool| && pool[pick] == s;
    assert pick % |pool| == pick;
    var after := Handle(rules, plays, Request.StartSession(user, category, true, pick)).0;
    assert |after| == |plays| + 1 && after[|plays|].scenario == s.id;
  }

  // ----- whole runs

  function Run(rules: Rules, plays: seq<Play>, requests: seq<Request>): seq<Play>
    decreases |requests|
  {
    if requests == [] then plays else Run(rules, Handle(rules, plays, requests[0]).0, requests[1..])
  }

  /** Every run from the empty tables keeps every session balanced, and no user ever has two active
      sessions. */
  lemma {:induction false} RunKeeps(rules: Rules, plays: seq<Play>, requests: seq<Request>)
    requires AllKept(rules, plays)
    ensures AllKept(rules, Run(rules, plays, requests))
    decreases |requests|
  {
    hide AllKept; hide Handle;
    if requests != [] {
      HandleKeeps(rules, plays, requests[0]);
      RunKeeps(rules, Handle(rules, plays, requests[0]).0, requests[1..]);
    }
  }

  /** The player never profits from an exact interviewer, whatever is quoted and however many hints
      are bought; with noise, the profit is at most the noise on every round played. */
  lemma NeverProfits(rules: Rules, requests: seq<Request>, i: nat)
    requires i < |Run(rules, [], requests)|
    requires rules.config.unitSize >= 0.0 && rules.config.hintPenalty >= 0.0
    ensures var p := Run(rules, [], requests)[i]; var config := rules.config;
            && (Exact(config) ==> Worth(rules, p) <= 0.0)
            && Worth(rules, p) <= |p.rounds| as real * Band(config.noiseEpsilon) * config.unitSize
            && |p.rounds| <= Limit(config.maxRounds)
  {
    hide Balanced; hide Run; hide Score; hide Band;
    RunKeeps(rules, [], requests);
    var p := Run(rules, [], requests)[i];
    assert Kept(rules, p);
    var s := rules.scenarios[FindScenario(rules.scenarios, p.scenario)];
    BalancedBound(rules.config, p, s);
  }

  lemma BalancedBound(config: GameConfig, p: Play, s: Scenario)
    requires Balanced(config, p, s) && config.unitSize >= 0.0 && config.hintPenalty >= 0.0
    ensures Score(p, s.trueValue) <= |p.rounds| as real * Band(config.noiseEpsilon) * config.unitSize
    ensures config.noiseEpsilon <= 0.0 ==> Score(p, s.trueValue) <= 0.0
    ensures |p.rounds| <= Limit(config.maxRounds)
  {
    var loss := |p.rounds| as real * Band(config.noiseEpsilon);
    assert config.unitSize * (EdgeSum(p.rounds, s.trueValue) + loss) >= 0.0;
    assert config.hintPenalty * (p.hints as real) >= 0.0;
  }

  /** Along any run a session's worth only falls under exact judgement, and once ended the session is
      never changed again. */
  lemma {:induction false} RunChanges(rules: Rules, plays: seq<Play>, requests: seq<Request>, i: nat)
    requires AllKept(rules, plays) && i < |plays|
    ensures var after := Run(rules, plays, requests);
            && |plays| <= |after|
            && (!plays[i].active ==> after[i] == plays[i])
            && (Exact(rules.config) ==> Worth(rules, after[i]) <= Worth(rules, plays[i]))
    decreases |requests|
  {
    hide AllKept; hide Handle; hide Worth;
    if requests != [] {
      HandleKeeps(rules, plays, requests[0]);
      HandleChanges(rules, plays, requests[0], i);
      RunChanges(rules, Handle(rules, plays, requests[0]).0, requests[1..], i);
    }
  }
}
