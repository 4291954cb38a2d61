/** Both model scores and their weighted combination (isolation_forest.py, lstm_model.py and
    scorer.py), in real arithmetic, with the raw model outputs as inputs. */
module Scoring {

  /** A model's raw output, or nothing when no model is loaded or inference fails. */
  datatype Raw = NoOutput | Output(value: real)

  const NEUTRAL: real := 0.5
  const ISO_WEIGHT: real := 0.6
  const LSTM_WEIGHT: real := 0.4

  function Clip(x: real): real {
    if x < 0.0 then 0.0 else if x > 1.0 then 1.0 else x
  }

  /** decision_function is lower for stranger vectors, hence the inversion. */
  function IsolationScore(raw: Raw): real {
    match raw
    case NoOutput => NEUTRAL
    case Output(value) => Clip(0.5 - value)
  }

  function LstmScore(raw: Raw): real {
    match raw
    case NoOutput => NEUTRAL
    case Output(value) => Clip(value)
  }

  function Distance(x: real, y: real): real {
    if x < y then y - x else x - y
  }

  /** The sequence score is the point of [0, 1] nearest to the model's output, and the isolation score
      the one nearest to 0.5 minus the output; so a vector on the forest's boundary (an output of 0)
      scores as neutrally as one for which there is no model. */
  lemma ScoresAreNearest(value: real, y: real)
    requires 0.0 <= y <= 1.0
    ensures 0.0 <= LstmScore(Output(value)) <= 1.0 && 0.0 <= IsolationScore(Output(value)) <= 1.0
    ensures Distance(LstmScore(Output(value)), value) <= Distance(y, value)
    ensures Distance(IsolationScore(Output(value)) + value, 0.5) <= Distance(y + value, 0.5)
    ensures IsolationScore(Output(0.0)) == IsolationScore(NoOutput) == LstmScore(NoOutput) == 0.5
  {
  }

  function Combined(iso: real, lstm: real): real {
    ISO_WEIGHT * iso + LSTM_WEIGHT * lstm
  }
}
