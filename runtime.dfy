/** The process-wide effects of the retry loop: sleeping and logging. Both are recorded in
    ghost sequences, so that contracts can speak of the sleeps taken and the warnings logged. */
module Runtime {
  import opened Wrappers
  import opened Http

  /** `time.Sleep`: every duration (in nanoseconds) slept, in order. */
  class Clock {
    ghost var slept: seq<nat>

    constructor ()
      ensures slept == []
    {
      slept := [];
    }

    method Sleep(d: nat)
      modifies this
      ensures slept == old(slept) + [d]
    {
      slept := slept + [d];
    }
  }

  /** The fields of one "Failed executing HTTP call" warning: the request's method (`verb`) and URL,
      the status code (absent when there is no response), the attempt number, the delay
      announced for the retry, and the transport error, if any. */
  datatype Warning = Warning(
    verb: string,
    url: string,
    status: Option<int>,
    attempt: nat,
    retryIn: nat,
    failure: Option<TransportError>)

  /** The logrus logger: every warning emitted, in order. */
  class Logger {
    ghost var warnings: seq<Warning>

    constructor ()
      ensures warnings == []
    {
      warnings := [];
    }

    method Warn(w: Warning)
      modifies this
      ensures warnings == old(warnings) + [w]
    {
      warnings := warnings + [w];
    }
  }
}
