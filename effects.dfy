/**
 * What the run-time decorators observe of the world: thrown exceptions, the
 * outcome of a call (a value or an exception), and the inputs Temporal hands
 * to interceptors.
 */
module Effects {
  import opened Wrappers
  import opened Definitions

  /** The exception classes the decorators test with `instanceof`. */
  datatype Kind =
    | EntityManagerClosed      // Doctrine\ORM\Exception\EntityManagerClosed
    | DriverError              // Doctrine\DBAL\Exception\DriverException
    | DbalError                // any other Doctrine\DBAL\Exception
    | InvalidArgument          // InvalidArgumentException
    | DataConverterError       // Temporal\Exception\DataConverterException
    | OtherError

  /** A thrown exception: its class, `getMessage()` and `getCode()`. */
  datatype Failure = Failure(kind: Kind, message: string, code: int)

  /** `instanceof Doctrine\DBAL\Exception`: driver exceptions are DBAL exceptions too. */
  predicate IsDbal(f: Failure) {
    f.kind == DriverError || f.kind == DbalError
  }

  /** A call either returns a value or throws. */
  datatype Outcome<T> = Returned(value: T) | Threw(failure: Failure)

  /** An activity invocation: its header entries and its arguments. */
  datatype ActivityInput = ActivityInput(header: seq<(string, Value)>, args: seq<Value>)

  /** A workflow's `panic`/`complete` input: the failure it carries, if any. */
  datatype WorkflowCallInput = WorkflowCallInput(failure: Option<Failure>, result: seq<Value>)
}
