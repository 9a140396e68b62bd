# cmdline: a verified model of the Exec process handle

Package `cmdline` wraps one operating-system process in an `Exec` object that several
threads can drive: a constructor that tokenises a command line, `Start`/`Stop`, the blocking
`Run`, two timed runners that kill the process once the watched stream goes quiet
(`RunTimeoutStderr`, `RunTimeoutStdout`), `SigInt`, `IsRunning` and three pipe accessors.
Every method is a guarded transition of one boolean, `running`, taken under a mutex.

The model has three modules:

- `Fields` (fields.dfy): Go's `strings.Fields`, the tokeniser the constructor uses, with
  white space as Go's `unicode.IsSpace` defines it. It is characterised completely: `Fields(s)
  == ts` exactly when every token is a non-empty run without white space and `s` is those tokens
  laid out with white-space runs around them, non-empty between them (`FieldsCharacterised`).
  Joining tokens with a blank and tokenising again gives them back (`FieldsOfJoin`).
- `Watchdog` (watchdog.dfy): the kill test `run != 0 && now - run > secs` that both timed
  runners poll, and their reader loop, which stamps the clock into `run` before every read and
  stops at the first read that fails.
- `Cmdline` (cmdline.dfy): the `Exec` class. `running` is a field. `started` is a second field
  that stands for "`cmd.Process` is set", which happens after the first successful spawn. The
  immutable command line, `Path` and `Args` are `const` fields. Each os/exec call a method makes
  (spawn, wait, kill, signal, pipe creation, read) is not modelled. The method takes what the call
  returned as a parameter of type `Sys<T>`: `Done(value)` for a nil error, `Failed(cause)`
  otherwise. Results are `Result<T>`, where `Ok` stands for a nil Go error and `Err` carries
  `AlreadyRunning`, `NotRunning`, `NotKilling`, `PipeRunning` or a propagated `System(cause)`.
  The invariant `Valid()` holds after every method: `Args` are the tokens of the command line,
  `Path` is the first of them, and `running ==> started`.

Points where the code's behaviour is easy to misread, and where the model follows the code:

- The timed runners return nil whenever the pipe was obtained. The results of the spawn
  (cmdline.go:116), the reads and the final wait (cmdline.go:124) are discarded. Only the pipe
  error is ever returned (cmdline.go:126).
- The watchdog arms when the reader loop starts, not after the first line of output.
  `run` is stamped before each read (cmdline.go:118), so a process that prints nothing is killed
  once `secs` seconds pass (`Watchdog.SilentStartIsWatched`).
- When `Stop`'s kill fails, `running` has already been cleared (cmdline.go:219), so the
  handle reports not running after `NOT_KILLING_ERROR`. Only a failed wait sets it back to true.
- `SigInt` signals `cmd.Process` whatever the state of the handle. That pointer is nil until a
  spawn has succeeded. Go then dereferences nil, so the model requires `started`.
- `cmd.Run` is os/exec's spawn followed by a wait. `Run` therefore takes the two outcomes
  separately and returns the spawn error if there is one, the wait error otherwise.

## Model

| member | source | states |
|---|---|---|
| `Fields.Fields` | cmdline.go:41 | every token strings.Fields returns is non-empty and free of white space |
| `Fields.FieldsOfLayout` | cmdline.go:41 | tokenising admissible white space around and between words gives exactly those words |
| `Fields.GapsLayout` | cmdline.go:41 | every command line is its own tokens laid out with its own white-space runs, with one run more than tokens |
| `Fields.GapsSeparate` | cmdline.go:41 | the white-space runs of a command line are all white space and, between tokens, non-empty |
| `Fields.FieldsCharacterised` | cmdline.go:41 | Fields(s) == ts if and only if ts are words and s is an admissible layout of them (both directions) |
| `Fields.FieldsEmptyIff` | cmdline.go:41-42 | the command line has a first token exactly when it is not all white space |
| `Fields.FieldsOfJoin` | cmdline.go:41 | round trip: tokenising words joined by a white-space separator gives the words |
| `Fields.FieldsOfNormalised` | cmdline.go:41 | collapsing a command line's white space to single blanks keeps its tokens |
| `Cmdline.Exec.Cmdline` | cmdline.go:32-46 | Args are the tokens of the command line, Path is Args[0], the handle is not running; a command line with no token is excluded |
| `Cmdline.Exec.SigInt` | cmdline.go:49-54 | running becomes false whatever it was, and the signal's error is returned unchanged |
| `Cmdline.Exec.IsRunning` | cmdline.go:57-62 | returns the flag and changes nothing |
| `Cmdline.Exec.Run` | cmdline.go:65-81 | when running, ALREADY_RUNNING and nothing changes; otherwise running is false on return and the spawn's error, else the wait's, is returned |
| `Cmdline.Exec.RunWatched` | cmdline.go:90-133 | when running, ALREADY_RUNNING and nothing changes; otherwise running is false on return and the result is nil exactly when the pipe was obtained; the number of chunks read is the index of the first failed read when the pipe was obtained, and zero when it was not |
| `Cmdline.Exec.RunTimeoutStderr` | cmdline.go:86-134 | when running, ALREADY_RUNNING and nothing changes; otherwise running is false on return and the result is nil if and only if the stderr pipe was obtained, the pipe's error otherwise |
| `Cmdline.Exec.RunTimeoutStdout` | cmdline.go:139-187 | when running, ALREADY_RUNNING and nothing changes; otherwise running is false on return and the result is nil if and only if the stdout pipe was obtained, the pipe's error otherwise |
| `Cmdline.Exec.Start` | cmdline.go:193-206 | when running, ALREADY_RUNNING and nothing changes; otherwise running becomes true exactly when the spawn succeeded and the spawn's error is returned |
| `Cmdline.Exec.Stop` | cmdline.go:211-229 | not running: NOT_RUNNING, nothing changes; kill fails: NOT_KILLING and not running; kill succeeds: the wait's error is returned and running is true again exactly when the wait failed; whenever it was running, a spawn had succeeded, so Kill and Wait have a process to act on |
| `Cmdline.Exec.StderrPipe` | cmdline.go:233-245 | PIPE_RUNNING when running, otherwise exactly what os/exec returned; running is never touched |
| `Cmdline.Exec.StdoutPipe` | cmdline.go:249-261 | PIPE_RUNNING when running, otherwise exactly what os/exec returned; running is never touched |
| `Cmdline.Exec.StdinPipe` | cmdline.go:265-277 | PIPE_RUNNING when running, otherwise exactly what os/exec returned; running is never touched |
| `Cmdline.MessagesDistinct` | cmdline.go:199-240 | the four package errors have four different texts, so callers can branch on the cause |
| `Cmdline.StopFreshHandle` | cmdline.go:211-218 | stopping a freshly constructed handle is always refused with NOT_RUNNING |
| `Cmdline.StartTwice` | cmdline.go:193-206 | of two starts on one handle, the second is refused with ALREADY_RUNNING exactly when the first succeeded |
| `Cmdline.PipeAroundStart` | cmdline.go:249-261 | a pipe asked for before Start is what os/exec gave; after a successful Start it is refused with PIPE_RUNNING |
| `Cmdline.StartStop` | cmdline.go:193-229 | Start, then a Stop whose kill and wait succeed, returns nil and leaves IsRunning false |
| `Cmdline.TimedRunThenRun` | cmdline.go:139-187 | a timed run that obtained its pipe returns nil and leaves the handle ready, so a following Run is not refused |
| `Watchdog.ShouldKill` | cmdline.go:100-101 | kill exactly when a stamp is recorded (run != 0) and more than secs seconds have passed since it; cmdline.go:153-154 is the same test in the stdout runner |
| `Watchdog.UnarmedNeverKills` | cmdline.go:100-102 | with no stamp recorded (run == 0) the watchdog never kills |
| `Watchdog.KillBoundary` | cmdline.go:100-102 | the timeout is strict: no kill exactly secs seconds after the stamp, a kill one second later |
| `Watchdog.KillMonotone` | cmdline.go:100-102 | once a poll would kill, every later poll with the same stamp would too |
| `Watchdog.FreshStampSpares` | cmdline.go:100-102 | within secs seconds of a stamp the watchdog does not kill |
| `Watchdog.FirstFailure` | cmdline.go:117-123 | the read that ends the loop is a failed one and every read before it succeeded |
| `Watchdog.ReadUntilClosed` | cmdline.go:117-123 | the loop stops at the first failed read, having read every chunk before it; during the i-th read `run` holds the stamp taken just before it, and finally the stamp of the failed read |
| `Watchdog.SilentStartIsWatched` | cmdline.go:100-119 | while the reader loop's first read is still pending, before any output, a poll kills exactly when more than secs seconds have passed since the loop stamped `run` |

## Left out

- The os/exec calls themselves (Start, Run, Wait, Process.Kill, Process.Signal and the three pipe constructors). They are foreign code, so their outcomes are parameters. This includes os/exec's own rules, such as a pipe requested twice or a second Start on one command.
- The mutex, the goroutines and every interleaving, including a Stop that races a Run between its two critical sections. Each method is modelled as one sequential call, and the flag's transient value inside Run is not observable in the model.
- Cmdline.Exec.RunTimeoutStderr: the watchdog goroutine (cmdline.go:98-112) is not modelled as a concurrent loop. Its kill decision is `Watchdog.ShouldKill`, and the effect of a kill shows up only in which read fails. The unsynchronised sharing of `run` is left out too. `secs` and `delim` feed only the watchdog and ReadString, so the model does not use them.
- Cmdline.Exec.RunTimeoutStdout: the same as RunTimeoutStderr, for cmdline.go:151-165.
- Cmdline.Exec.RunWatched: requires that some read eventually fails. The Go loop does not end otherwise, and a process that never closes its stream is not modelled.
- Time: `time.Now`, `time.Sleep` and the one-second polling period. Clock values are integers given to the model, and Go's int64 arithmetic on Unix seconds is taken as unbounded.
- `bufio.ReadString` and the byte streams. A read is modelled only as its stamp and whether it failed.
- Cmdline.Exec.Cmdline: the Go panic on a command line without tokens becomes a precondition, and `FieldsEmptyIff` says which inputs it excludes. `exec.Command("")` and its lookup of the path are not modelled.
- Cmdline.Exec.SigInt: the nil-pointer panic before the first successful spawn becomes the precondition `started`.
- Fields.Fields: works on Unicode code points. Go's decoding of UTF-8 bytes, and the replacement of invalid bytes by U+FFFD, are not modelled.
