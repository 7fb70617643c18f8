/**
 * The outside world as the importer sees it: every external command, HTTP
 * call and prompt is an oracle whose reply is given up front, and Python's
 * exceptions are values.
 */
module Environment {
  import opened Wrappers

  /** The reply of one external call made through `_run_command` (or `input()`):
      its captured, stripped output; a failure (`CalledProcessError`, or
      `EOFError` for the prompt); or a `KeyboardInterrupt` while it was blocked. */
  datatype Reply = Output(text: string) | Failed | Interrupted

  /** Just enough of a decoded JSON value: a string, or anything else. */
  datatype Json = JString(text: string) | JOther
  type JsonObject = map<string, Json>

  datatype World = World(
    lookup: string -> Reply,               // `which <dep>`
    tokenStatus: Reply,                    // status code of GET /user
    probeStatus: Reply,                    // status code of GET /repos/<user>/<name>
    answer: Reply,                         // the overwrite prompt's raw answer
    userInfo: Reply,                       // body of GET /users/<user>
    createReply: Reply,                    // body of the creating POST
    parse: string -> Option<JsonObject>,   // `json.loads`; None is `JSONDecodeError`
    clone: Reply,                          // `git clone --mirror`
    cloneLeavesDir: bool,                  // a failed or interrupted clone leaves a partial directory
    push: Reply,                           // `git push --mirror`
    patch: Reply,                          // the default-branch PATCH
    pid: nat)                              // `os.getpid()`

  /** What can unwind out of a step: `sys.exit(code)`, Ctrl-C, or any other exception. */
  datatype Signal = SystemExit(code: int) | KeyboardInterrupt | Exception

  /** A step either returns a value or raises. */
  datatype Step<T> = Done(value: T) | Raised(signal: Signal)

  /** How the process ends. */
  datatype Outcome = Success | Exit(code: int)

  /** The exception a failed call raises. */
  function Fault(r: Reply): (s: Signal)
    requires !r.Output?
    ensures s == KeyboardInterrupt <==> r.Interrupted?
    ensures s == Exception <==> r.Failed?
  {
    if r.Interrupted? then KeyboardInterrupt else Exception
  }

  /** `import_repo`'s handlers: `SystemExit` is not an `Exception`, so an inner
      `sys.exit(code)` leaves with its own code; Ctrl-C and every other exception
      exit with 1. */
  function ExitFor(s: Signal): (o: Outcome)
    ensures o.Exit?
    ensures o.code == 0 <==> s == SystemExit(0)
    ensures !s.SystemExit? ==> o == Exit(1)
    ensures s.SystemExit? ==> o == Exit(s.code)
  {
    match s
    case SystemExit(code) => Exit(code)
    case KeyboardInterrupt => Exit(1)
    case Exception => Exit(1)
  }
}
