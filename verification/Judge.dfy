/** The market-making interviewer: a pure judge of two-sided quotes, over exact numbers. */
module Judges {

  datatype Verdict = BUY | SELL | PASS | INVALID

  datatype Quote = Quote(bid: real, ask: real)

  /** fillPrice means something only when the verdict is BUY or SELL. */
  datatype JudgeResult = JudgeResult(verdict: Verdict, fillPrice: real)

  function Abs(x: real): real {
    if x < 0.0 then -x else x
  }

  function JudgeQuote(q: Quote, trueValue: real, epsilon: real, draw: real): JudgeResult {
    if q.bid > q.ask then JudgeResult(INVALID, 0.0)
    else
      var askEdge := trueValue - q.ask;
      var bidEdge := q.bid - trueValue;
      var nearAsk := Abs(askEdge) <= epsilon;
      var nearBid := Abs(bidEdge) <= epsilon;
      if epsilon > 0.0 && (nearAsk || nearBid) then
        if draw < 0.5 then JudgeResult(PASS, 0.0)
        else if nearAsk && askEdge >= bidEdge then JudgeResult(BUY, q.ask)
        else if nearBid then JudgeResult(SELL, q.bid)
        else JudgeResult(PASS, 0.0)
      else if askEdge > 0.0 && askEdge >= bidEdge then JudgeResult(BUY, q.ask)
      else if bidEdge > 0.0 then JudgeResult(SELL, q.bid)
      else JudgeResult(PASS, 0.0)
  }

  /** What the interviewer gains per unit: it buys below, or sells above, the true value. */
  function Edge(result: JudgeResult, trueValue: real): real {
    match result.verdict
    case BUY => trueValue - result.fillPrice
    case SELL => result.fillPrice - trueValue
    case _ => 0.0
  }

  /** The better of the two sides for the interviewer. */
  function BestEdge(q: Quote, trueValue: real): real {
    if trueValue - q.ask >= q.bid - trueValue then trueValue - q.ask else q.bid - trueValue
  }

  /** Some price of the quote is within epsilon of the true value. */
  predicate InBand(q: Quote, trueValue: real, epsilon: real) {
    epsilon > 0.0 && (-epsilon <= trueValue - q.ask <= epsilon || -epsilon <= q.bid - trueValue <= epsilon)
  }

  /** Without noise, and outside the band with it, the interviewer trades exactly when a side gives
      it a strictly positive edge, and then takes that edge. */
  lemma Deterministic(q: Quote, trueValue: real, epsilon: real, draw: real)
    requires q.bid <= q.ask && !InBand(q, trueValue, epsilon)
    ensures var result := JudgeQuote(q, trueValue, epsilon, draw);
            && (result.verdict == BUY <==> q.ask < trueValue) && (result.verdict == SELL <==> trueValue < q.bid)
            && (result.verdict == PASS <==> q.bid <= trueValue <= q.ask)
            && Edge(result, trueValue) == if BestEdge(q, trueValue) > 0.0 then BestEdge(q, trueValue) else 0.0
  {
  }

  /** In the band the coin alone decides whether there is a trade, and it is on the better side, at the
      player's price: the branch that passes after the coin said to trade is never taken. */
  lemma CoinDecides(q: Quote, trueValue: real, epsilon: real, draw: real)
    requires q.bid <= q.ask && InBand(q, trueValue, epsilon)
    ensures var result := JudgeQuote(q, trueValue, epsilon, draw);
            && (result.verdict == PASS <==> draw < 0.5)
            && (draw >= 0.5 ==> result == if q.bid - trueValue <= trueValue - q.ask then JudgeResult(BUY, q.ask)
                                          else JudgeResult(SELL, q.bid))
            && (draw >= 0.5 ==> Edge(result, trueValue) == BestEdge(q, trueValue) >= -epsilon)
  {
  }

  /** A crossed quote is the only invalid one. */
  lemma OnlyCrossedInvalid(q: Quote, trueValue: real, epsilon: real, draw: real)
    ensures JudgeQuote(q, trueValue, epsilon, draw).verdict == INVALID <==> q.bid > q.ask
  {
  }

  /** It buys at the player's ask and sells at the player's bid. */
  lemma FillsAtQuote(q: Quote, trueValue: real, epsilon: real, draw: real)
    ensures var result := JudgeQuote(q, trueValue, epsilon, draw);
            && (result.verdict == BUY ==> result.fillPrice == q.ask)
            && (result.verdict == SELL ==> result.fillPrice == q.bid)
  {
  }

  /** The interviewer never loses more than the noise allows. */
  lemma EdgeBound(q: Quote, trueValue: real, epsilon: real, draw: real)
    ensures Edge(JudgeQuote(q, trueValue, epsilon, draw), trueValue) >= if epsilon > 0.0 then -epsilon else 0.0
  {
  }
}
