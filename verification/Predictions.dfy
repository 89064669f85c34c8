/** Predictions, and the rule that turns one into an outcome. */
module Predictions {

  datatype Decision = Skip | Enter | Hold

  datatype Prediction = Prediction(
    predictionId: string, targetRoundId: string, decision: Decision, confidence: real, targetMult: real,
    createdAtMs: int)

  datatype Verdict = Pending | Win | Loss | Void | Stale | Duplicate

  datatype Outcome = Outcome(
    predictionId: string, roundId: string, result: Verdict, actualMult: real, targetMult: real,
    resolvedAtMs: int, isWin: bool)

  function MakeOutcome(p: Prediction, actualMult: real, now: int): Outcome {
    var blank := Outcome(p.predictionId, p.targetRoundId, Pending, actualMult, p.targetMult, now, false);
    if p.decision != Enter then blank.(result := Void)
    else if actualMult >= p.targetMult && p.targetMult > 0.0 then blank.(result := Win, isWin := true)
    else blank.(result := Loss)
  }
}
