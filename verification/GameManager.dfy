/** The game manager over its two tables: game_sessions, whose rows list the revealed hints as text,
    and game_rounds, kept per session. */
module GameManagers {
  import opened Judges
  import opened Games
  import opened HintLists

  datatype SessionRow = SessionRow(
    user: int, scenario: int, maxRounds: int, currentRound: int, position: real, cash: real, hintsCsv: string,
        active: bool)

  /** The scenario of the session asked for, or why the request is refused. */
  datatype Access = Granted(at: nat) | Refused(error: GameError)

  const INT_MAX := 0x7fff_ffff

  /** 0, 1, ..., k - 1. */
  function UpTo(k: nat): (xs: seq<int32>)
    requires k <= INT_MAX
    ensures |xs| == k && forall i :: 0 <= i < k ==> xs[i] == i
  {
    seq(k, i requires 0 <= i < k => i)
  }

  /** The row and the rounds stored for a session. */
  ghost predicate Stores(row: SessionRow, rounds: seq<Round>, p: Play) {
    && row.user == p.user && row.scenario == p.scenario && row.maxRounds == p.maxRounds
    && row.currentRound == |p.rounds| && rounds == p.rounds
    && row.position == p.position && row.cash == p.cash && row.active == p.active
    && p.hints <= INT_MAX && row.hintsCsv == Csv(UpTo(p.hints))
  }

  /** Counts of hints fit in an int. */
  ghost predicate HintsFit(scenarios: seq<Scenario>) {
    forall i :: 0 <= i < |scenarios| ==> |scenarios[i].hints| <= INT_MAX
  }

  lemma NoHint()
    ensures Csv(UpTo(0)) == ""
  {
  }

  lemma NextHint(k: nat)
    requires k < INT_MAX
    ensures UpTo(k) + [k] == UpTo(k + 1)
  {
  }

  lemma InCategoryAppend(scenarios: seq<Scenario>, i: nat, category: string)
    requires i < |scenarios|
    ensures InCategory(scenarios[..i + 1], category)
         == InCategory(scenarios[..i], category)
            + (if category == "" || scenarios[i].category == category then [scenarios[i]] else [])
  {
    assert scenarios[..i + 1][..i] == scenarios[..i];
  }

  /** What the found index must be. */
  lemma FindScenarioIs(scenarios: seq<Scenario>, id: int, i: nat)
    requires i <= |scenarios| && (i < |scenarios| ==> scenarios[i].id == id)
    requires forall j :: 0 <= j < i ==> scenarios[j].id != id
    ensures i == FindScenario(scenarios, id)
  {
  }

  class GameManager {
    const scenarios: seq<Scenario>
    const config: GameConfig
    var sessions: seq<SessionRow>
    var rounds: seq<seq<Round>>
    ghost var plays: seq<Play>

    ghost function TheRules(): Rules {
      Rules(scenarios, config)
    }

    ghost predicate Valid()
      reads this
    {
      && |sessions| == |plays| && |rounds| == |plays| && HintsFit(scenarios) && AllKept(TheRules(), plays)
      && forall i :: 0 <= i < |plays| ==> Stores(sessions[i], rounds[i], plays[i])
    }

    constructor (scenarios: seq<Scenario>, config: GameConfig)
      requires HintsFit(scenarios)
      ensures Valid() && plays == [] && TheRules() == Rules(scenarios, config)
    {
      this.scenarios, this.config := scenarios, config;
      sessions, rounds, plays := [], [], [];
    }

    method PickScenario(category: string, pick: nat) returns (found: bool, s: Scenario)
      ensures var pool := InCategory(scenarios, category);
              && found == (pool != [])
              && (found ==> s == pool[pick % |pool|])
    {
      var pool: seq<Scenario> := [];
      for i := 0 to |scenarios|
        invariant pool == InCategory(scenarios[..i], category)
      {
        InCategoryAppend(scenarios, i, category);
        if category == "" || scenarios[i].category == category { pool := pool + [scenarios[i]]; }
      }
      assert scenarios[..|scenarios|] == scenarios;
      found := pool != [];
      s := if found then pool[pick % |pool|] else Scenario(0, "", "", "", 0.0, []);
    }

    method ScenarioOf(id: int) returns (at: nat)
      ensures at == FindScenario(scenarios, id)
    {
      at := 0;
      while at < |scenarios|
        invariant at <= |scenarios|
        invariant forall j :: 0 <= j < at ==> scenarios[j].id != id
      {
        if scenarios[at].id == id {
          FindScenarioIs(scenarios, id, at);
          return;
        }
        at := at + 1;
      }
      FindScenarioIs(scenarios, id, at);
    }

    // The newest active row of a user, as the query for it selects.
    method ActiveSession(user: int) returns (i: nat)
      requires Valid()
      ensures i == ActiveOf(plays, user)
    {
      i := |sessions|;
      while i > 0
        invariant i <= |sessions|
        invariant forall j :: i <= j < |sessions| ==> !(plays[j].user == user && plays[j].active)
      {
        i := i - 1;
        assert Stores(sessions[i], rounds[i], plays[i]);
        if sessions[i].user == user && sessions[i].active { return; }
      }
      i := |sessions|;
    }

    // The texts of the hints that a row lists.
    method RevealedHints(row: SessionRow, ghost p: Play, s: Scenario) returns (texts: seq<string>)
      requires Stores(row, p.rounds, p) && p.hints <= |s.hints|
      ensures texts == s.hints[..p.hints]
    {
      var r := ParseHintsCsv(row.hintsCsv);
      RoundTrip(UpTo(p.hints));
      var revealed := r.value;
      texts := [];
      for k := 0 to |revealed|
        invariant texts == s.hints[..k]
      {
        if 0 <= revealed[k] < |s.hints| { texts := texts + [s.hints[revealed[k]]]; }
      }
    }

    method SessionStarted(i: nat) returns (outcome: Outcome)
      requires Valid() && i < |plays|
      ensures outcome == Announce(TheRules(), plays, i)
    {
      assert Stores(sessions[i], rounds[i], plays[i]) && Kept(TheRules(), plays[i]);
      var row := sessions[i];
      var at := ScenarioOf(row.scenario);
      var texts := RevealedHints(row, plays[i], scenarios[at]);
      outcome := Sent([GameStarted(i + 1, scenarios[at],
          Play(row.user, row.scenario, row.maxRounds, rounds[i], row.position, row.cash, |texts|, row.active), texts)]);
    }

    // end_game_session.
    method EndRow(i: nat)
      requires Valid() && i < |plays|
      modifies this
      ensures Valid() && plays == old(plays)[i := old(plays)[i].(active := false)]
    {
      EndAllKeeps(TheRules(), plays, i);
      sessions := sessions[i := sessions[i].(active := false)];
      plays := plays[i := plays[i].(active := false)];
    }

    method StartSession(user: int, category: string, forceNew: bool, pick: nat) returns (outcome: Outcome)
      requires Valid()
      modifies this
      ensures Valid()
      ensures (plays, outcome) == Handle(TheRules(), old(plays), Request.StartSession(user, category, forceNew, pick))
    {
      hide AllKept; hide Announce; hide Csv;
      HandleKeeps(TheRules(), plays, Request.StartSession(user, category, forceNew, pick));
      var active := ActiveSession(user);
      if !forceNew && active < |sessions| {
        outcome := SessionStarted(active);
        return;
      }
      if active < |sessions| { EndRow(active); }
      var found, s := PickScenario(category, pick);
      if !found { return Rejected(NoScenarios); }
      NoHint();
      sessions := sessions + [SessionRow(user, s.id, config.maxRounds, 0, 0.0, 0.0, "", true)];
      rounds := rounds + [[]];
      plays := plays + [Play(user, s.id, config.maxRounds, [], 0.0, 0.0, 0, true)];
      outcome := SessionStarted(|sessions| - 1);
    }

    // get_game_session with the checks on what it finds, and the session's scenario.
    method RequireActiveSession(user: int, session: int) returns (access: Access)
      requires Valid()
      ensures access ==
        if !Owned(plays, user, session) then Refused(SessionNotFound)
        else if !plays[session - 1].active then Refused(SessionEnded)
        else Granted(FindScenario(scenarios, plays[session - 1].scenario))
      ensures access.Granted? ==> access.at < |scenarios|
    {
      if !(1 <= session <= |sessions|) { return Refused(SessionNotFound); }
      assert Stores(sessions[session - 1], rounds[session - 1], plays[session - 1])
          && Kept(TheRules(), plays[session - 1]);
      if sessions[session - 1].user != user { return Refused(SessionNotFound); }
      if !sessions[session - 1].active { return Refused(SessionEnded); }
      var at := ScenarioOf(sessions[session - 1].scenario);
      access := Granted(at);
    }

    method SubmitQuote(user: int, session: int, quote: Quote, draw: real) returns (outcome: Outcome)
      requires Valid()
      modifies this
      ensures Valid()
      ensures (plays, outcome) == Handle(TheRules(), old(plays), Request.SubmitQuote(user, session, quote, draw))
    {
      hide AllKept; hide JudgeQuote; hide MarkToModel; hide Csv;
      HandleKeeps(TheRules(), plays, Request.SubmitQuote(user, session, quote, draw));
      var access := RequireActiveSession(user, session);
      if access.Refused? { return Rejected(access.error); }
      var i, at := session - 1, access.at;
      var row, trueValue := sessions[i], scenarios[at].trueValue;
      assert Stores(row, rounds[i], plays[i]);

      var result := JudgeQuote(quote, trueValue, config.noiseEpsilon, draw);
      assert plays[i := plays[i]] == plays;
      if result.verdict == INVALID { return Rejected(CrossedQuote); }

      var newPosition, newCash := row.position, row.cash;
      if result.verdict == BUY {
        newPosition := newPosition - config.unitSize;
        newCash := newCash + result.fillPrice * config.unitSize;
      } else if result.verdict == SELL {
        newPosition := newPosition + config.unitSize;
        newCash := newCash - result.fillPrice * config.unitSize;
      }
      var number := row.currentRound + 1;
      var round := Round(number, quote, result);
      var over := number >= row.maxRounds;
      rounds := rounds[i := rounds[i] + [round]];
      sessions := sessions[i := row.(currentRound := number, position := newPosition, cash := newCash,
          active := !over)];
      ghost var p := AfterQuote(config, plays[i], quote, result);
      plays := plays[i := p];
      var done := GameRoundResult(round, newPosition, newCash, row.maxRounds - number, over);
      assert done == GameRoundResult(p.rounds[row.currentRound], p.position, p.cash, p.maxRounds - |p.rounds|,
          !p.active);
      if over {
        outcome := Sent([done, GameEnded(trueValue, newPosition, newCash, MarkToModel(newCash, newPosition, trueValue),
            MaxRoundsReached, rounds[i])]);
        assert outcome == Sent([done, Final(p, trueValue, MaxRoundsReached)]);
      } else {
        outcome := Sent([done]);
      }
      assert (p, outcome) == Quoted(TheRules(), old(plays)[i], scenarios[at], quote, draw);
    }

    method RequestHint(user: int, session: int) returns (outcome: Outcome)
      requires Valid()
      modifies this
      ensures Valid()
      ensures (plays, outcome) == Handle(TheRules(), old(plays), Request.RequestHint(user, session))
    {
      hide AllKept; hide Csv; hide Listed;
      HandleKeeps(TheRules(), plays, Request.RequestHint(user, session));
      var access := RequireActiveSession(user, session);
      if access.Refused? { return Rejected(access.error); }
      var i, at := session - 1, access.at;
      var row, hints := sessions[i], scenarios[at].hints;
      assert Stores(row, rounds[i], plays[i]);

      var parsed := ParseHintsCsv(row.hintsCsv);
      RoundTrip(UpTo(plays[i].hints));
      var revealed := parsed.value;
      var next := |revealed|;
      assert plays[i := plays[i]] == plays;
      if next >= |hints| { return Rejected(NoHintsLeft); }
      var newCash := row.cash - config.hintPenalty;
      NextHint(next);
      var csv := HintsToCsv(revealed + [next]);
      sessions := sessions[i := row.(cash := newCash, hintsCsv := csv)];
      plays := plays[i := AfterHint(config, plays[i])];
      outcome := Sent([GameHintRevealed(next, hints[next], config.hintPenalty, newCash, |hints| - next - 1)]);
    }

    method EndSession(user: int, session: int) returns (outcome: Outcome)
      requires Valid()
      modifies this
      ensures Valid()
      ensures (plays, outcome) == Handle(TheRules(), old(plays), Request.EndSession(user, session))
    {
      hide AllKept; hide Csv;
      var access := RequireActiveSession(user, session);
      if access.Refused? { return Rejected(access.error); }
      var i, at := session - 1, access.at;
      assert Stores(sessions[i], rounds[i], plays[i]);
      EndRow(i);
      var row, trueValue := sessions[i], scenarios[at].trueValue;
      assert Stores(row, rounds[i], plays[i]);
      outcome := Sent([GameEnded(trueValue, row.position, row.cash, MarkToModel(row.cash, row.position, trueValue),
          PlayerClosed, rounds[i])]);
    }
  }
}
