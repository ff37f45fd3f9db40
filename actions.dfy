/**
 * One unit of commanded robot behaviour (the `Action` dataclass of model.py).
 */
module Actions {

  /** A parameter value: the numbers and strings an intent carries (distance, unit, angle). */
  datatype ParamValue = Number(num: real) | Text(text: string)

  /**
   * An action: the identifier the robot echoes back on completion, the intent
   * verb, and its parameters.
   */
  datatype Action = Action(actionId: string, intent: string, params: map<string, ParamValue>)
}
