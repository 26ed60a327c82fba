/**
 * What `main` decides before it starts serving: the read and write timeouts
 * from the `read_timeout` and `write_timeout` settings, each with a
 * ten-second fallback, and the process-wide state store.
 */
module Startup {
  import opened Wrappers
  import opened DurationConfig
  import opened StateStore

  const DefaultTimeout: Duration := 10 * Second

  /** The process state `main` sets up: the package-level store and the server's timeouts. */
  class Process {
    var stateStore: Option<Store>
    var readTimeout: Duration
    var writeTimeout: Duration

    /** Before `main` runs: no store, zero timeouts. */
    constructor ()
      ensures stateStore == None && readTimeout == 0 && writeTimeout == 0
    {
      stateStore := None;
      readTimeout := 0;
      writeTimeout := 0;
    }

    /**
     * `main` up to `ListenAndServe`.  The environment values, the outcome of
     * opening the durable store and `time.ParseDuration` are inputs.
     */
    method Start(readEnv: string, writeEnv: string, open: OpenOutcome,
                 parseDuration: string -> Option<Duration>)
      requires stateStore == None
      modifies this
      ensures readTimeout == ParseIntOrDurationValue(readEnv, DefaultTimeout, parseDuration)
      ensures writeTimeout == ParseIntOrDurationValue(writeEnv, DefaultTimeout, parseDuration)
      ensures stateStore == Some(SelectStore(open))
    {
      readTimeout := ParseIntOrDurationValue(readEnv, DefaultTimeout, parseDuration);
      writeTimeout := ParseIntOrDurationValue(writeEnv, DefaultTimeout, parseDuration);
      stateStore := Some(SelectStore(open));
    }
  }
}
