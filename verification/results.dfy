/** Results of the clock model: a value, or the error the program raises. */
module Results {

  datatype Option<+T> = None | Some(value: T)

  /** The exceptions the clock model, its units and its adjusters can raise. */
  datatype Error =
    | UnknownUnitKind(name: string)   // ClockModelError for an unrecognised kind in the units section
    | MissingParameter(kind: string)  // KeyError or IndexError reading the params section
    | NoWiredInput                    // IndexError: a divider or output read with no wired input
    | NoSuchPort(slot: int)           // KeyError: no port under the multiplexor's active slot
    | DivisionByZero                  // ZeroDivisionError in a divider
    | NoOutputUnit                    // IndexError: the model has no output unit
    | EmptyPortRange                  // ValueError: a random port drawn for a multiplexor without ports
    | PopulationTooSmall              // IndexError: fewer than two members to pick parents from

  datatype Result<+T> = Ok(value: T) | Err(error: Error)

  /** What a procedure without a return value ends with. */
  datatype Outcome = Pass | Fail(error: Error)
}
