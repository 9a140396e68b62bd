/** The Exec object of package cmdline: one OS process behind a mutex and a `running` flag.
    Every public method is one guarded transition of that flag. The os/exec calls a method
    makes are not modelled; what they returned is given to the method as a parameter. */
module Cmdline {
  import Fields
  import Watchdog

  /** The delimiter the timed runners read up to. */
  newtype byte = x: int | 0 <= x < 256

  /** The text of an error an os/exec call returned. */
  type OsError = string

  /** What an os/exec call returned: a value and a nil error, or a non-nil error. */
  datatype Sys<T> = Done(value: T) | Failed(cause: OsError)

  /** The errors the methods return: the package's own four, or one passed on from os/exec. */
  datatype Error = AlreadyRunning | NotRunning | NotKilling | PipeRunning | System(cause: OsError)

  /** A Go (value, error) pair: Ok stands for a nil error. */
  datatype Result<T> = Ok(value: T) | Err(error: Error)

  /** The io.ReadCloser or io.WriteCloser os/exec hands out for a standard stream. */
  datatype Pipe = Pipe(id: nat)

  /** The text of each error, as fmt.Errorf builds it. */
  function Message(e: Error): (m: string)
    ensures e.System? ==> m == e.cause
  {
    match e
    case AlreadyRunning => "cmdline: ALREADY_RUNNING_ERROR"
    case NotRunning => "cmdline: NOT_RUNNING_ERROR"
    case NotKilling => "cmdline: NOT_KILLING_ERROR"
    case PipeRunning => "cmdline: PIPE_RUNNING_ERROR"
    case System(cause) => cause
  }

  /** Callers can tell the package's own errors apart by their text. */
  lemma MessagesDistinct(a: Error, b: Error)
    requires !a.System? && !b.System?
    requires Message(a) == Message(b)
    ensures a == b
  {
  }

  /** Hands an os/exec error back to the caller unchanged. */
  function Propagate<T>(s: Sys<T>): (r: Result<T>)
    ensures r.Ok? <==> s.Done?
    ensures s.Done? ==> r.value == s.value
    ensures s.Failed? ==> r.error == System(s.cause)
  {
    match s
    case Done(v) => Ok(v)
    case Failed(c) => Err(System(c))
  }

  class Exec {
    /** The complete command line, as given to the constructor. */
    const cmdline: string
    /** cmd.Path: the first token of the command line. */
    const path: string
    /** cmd.Args: all the tokens, the path included. */
    const args: seq<string>
    /** The flag every method reads and writes under the lock. */
    var running: bool
    /** cmd.Process is set: a spawn has succeeded on this handle. */
    var started: bool

    ghost predicate Valid()
      reads this
    {
      && args == Fields.Fields(cmdline)
      && args != []
      && path == args[0]
      && (running ==> started)
    }

    /** The constructor: tokenise the command line and take the first token as the path.
        Go indexes the first token unchecked, so a command line without one is excluded. */
    constructor Cmdline(line: string)
      requires Fields.Fields(line) != []
      ensures Valid()
      ensures cmdline == line && args == Fields.Fields(line) && path == args[0]
      ensures !running && !started
    {
      cmdline := line;
      running := false;
      var tokens := Fields.Fields(line);
      path := tokens[0];
      args := tokens;
      started := false;
    }

    /** Send SIGINT and mark the handle stopped, whatever its state. The signal goes to
        cmd.Process, which Go dereferences: before the first successful spawn it is nil. */
    method SigInt(signal: Sys<()>) returns (r: Result<()>)
      requires Valid()
      requires started
      modifies this`running
      ensures Valid()
      ensures !running
      ensures r == Propagate(signal)
    {
      running := false;
      r := Propagate(signal);
    }

    /** Report the flag; changes nothing. */
    method IsRunning() returns (b: bool)
      ensures b == running
    {
      b := running;
    }

    /** Mark the handle running, spawn and wait (os/exec's cmd.Run), mark it stopped. */
    method Run(spawn: Sys<()>, wait: Sys<()>) returns (r: Result<()>)
      requires Valid()
      modifies this`running, this`started
      ensures Valid()
      ensures old(running) ==> r == Err(AlreadyRunning) && running && started == old(started)
      ensures !old(running) ==> !running && started == (old(started) || spawn.Done?)
      ensures !old(running) ==> r == if spawn.Failed? then Propagate(spawn) else Propagate(wait)
    {
      if running {
        return Err(AlreadyRunning);
      }
      running := true;
      if spawn.Done? {
        started := true;
        r := Propagate(wait);
      } else {
        r := Propagate(spawn);
      }
      running := false;
    }

    /** The body shared by the two timed runners, given the outcome of asking for the watched
        stream's pipe: spawn, run the reader loop until a read fails, wait, mark the handle
        stopped. The spawn's and the wait's errors are discarded; only the pipe's is returned.
        `lines` counts the chunks the reader loop read: none when the loop did not run. */
    method RunWatched(pipe: Sys<Pipe>, spawn: Sys<()>, attempts: seq<Watchdog.Read>)
      returns (r: Result<()>, ghost lines: nat)
      requires Valid()
      requires pipe.Done? ==> Watchdog.EventuallyFails(attempts)
      modifies this`running, this`started
      ensures Valid()
      ensures old(running) ==> r == Err(AlreadyRunning) && running && started == old(started)
      ensures !old(running) ==> !running && started == (old(started) || (pipe.Done? && spawn.Done?))
      ensures !old(running) ==> r == if pipe.Failed? then Err(System(pipe.cause)) else Ok(())
      ensures !old(running) && pipe.Done? ==> lines == Watchdog.FirstFailure(attempts)
      ensures old(running) || pipe.Failed? ==> lines == 0
    {
      lines := 0;
      if running {
        r := Err(AlreadyRunning);
        return;
      }
      running := true;
      if pipe.Done? {
        if spawn.Done? {
          started := true;
        }
        var run, read, stamps := Watchdog.ReadUntilClosed(attempts);
        lines := read;
        r := Ok(());
      } else {
        r := Err(System(pipe.cause));
      }
      running := false;
    }

    /** Run, killing the process once it writes nothing to stderr for more than secs seconds. */
    method RunTimeoutStderr(secs: int, delim: byte, stderr: Sys<Pipe>, spawn: Sys<()>, attempts: seq<Watchdog.Read>)
      returns (r: Result<()>)
      requires Valid()
      requires stderr.Done? ==> Watchdog.EventuallyFails(attempts)
      modifies this`running, this`started
      ensures Valid()
      ensures old(running) ==> r == Err(AlreadyRunning) && running && started == old(started)
      ensures !old(running) ==> !running && started == (old(started) || (stderr.Done? && spawn.Done?))
      ensures !old(running) ==> (r == Ok(()) <==> stderr.Done?)
      ensures !old(running) && stderr.Failed? ==> r == Err(System(stderr.cause))
    {
      ghost var lines;
      r, lines := RunWatched(stderr, spawn, attempts);
    }

    /** Run, killing the process once it writes nothing to stdout for more than secs seconds. */
    method RunTimeoutStdout(secs: int, delim: byte, stdout: Sys<Pipe>, spawn: Sys<()>, attempts: seq<Watchdog.Read>)
      returns (r: Result<()>)
      requires Valid()
      requires stdout.Done? ==> Watchdog.EventuallyFails(attempts)
      modifies this`running, this`started
      ensures Valid()
      ensures old(running) ==> r == Err(AlreadyRunning) && running && started == old(started)
      ensures !old(running) ==> !running && started == (old(started) || (stdout.Done? && spawn.Done?))
      ensures !old(running) ==> (r == Ok(()) <==> stdout.Done?)
      ensures !old(running) && stdout.Failed? ==> r == Err(System(stdout.cause))
    {
      ghost var lines;
      r, lines := RunWatched(stdout, spawn, attempts);
    }

    /** Spawn without waiting; the handle is running exactly when the spawn succeeded. */
    method Start(spawn: Sys<()>) returns (r: Result<()>)
      requires Valid()
      modifies this`running, this`started
      ensures Valid()
      ensures old(running) ==> r == Err(AlreadyRunning) && running && started == old(started)
      ensures !old(running) ==> running == spawn.Done? && r == Propagate(spawn)
      ensures !old(running) ==> started == (old(started) || spawn.Done?)
    {
      if running {
        return Err(AlreadyRunning);
      }
      r := Propagate(spawn);
      if spawn.Done? {
        started := true;
        running := true;
      }
    }

    /** Kill and reap. The flag is cleared before the kill and set again only if the wait fails.
        Kill and Wait go through cmd.Process; they are reached only when running, and Valid()'s
        `running ==> started` is why that pointer is then set. */
    method Stop(kill: Sys<()>, wait: Sys<()>) returns (r: Result<()>)
      requires Valid()
      modifies this`running
      ensures Valid()
      ensures old(running) ==> started
      ensures !old(running) ==> r == Err(NotRunning) && !running
      ensures old(running) && kill.Failed? ==> r == Err(NotKilling) && !running
      ensures old(running) && kill.Done? ==> r == Propagate(wait) && (running <==> wait.Failed?)
    {
      if !running {
        return Err(NotRunning);
      }
      running := false;
      if kill.Failed? {
        return Err(NotKilling);
      }
      r := Propagate(wait);
      if wait.Failed? {
        running := true;
      }
    }

    /** Ask for the process's stderr; only before it runs. */
    method StderrPipe(made: Sys<Pipe>) returns (r: Result<Pipe>)
      ensures running ==> r == Err(PipeRunning)
      ensures !running ==> r == Propagate(made)
    {
      if running {
        return Err(PipeRunning);
      }
      r := Propagate(made);
    }

    /** Ask for the process's stdout; only before it runs. */
    method StdoutPipe(made: Sys<Pipe>) returns (r: Result<Pipe>)
      ensures running ==> r == Err(PipeRunning)
      ensures !running ==> r == Propagate(made)
    {
      if running {
        return Err(PipeRunning);
      }
      r := Propagate(made);
    }

    /** Ask for the process's stdin; only before it runs. */
    method StdinPipe(made: Sys<Pipe>) returns (r: Result<Pipe>)
      ensures running ==> r == Err(PipeRunning)
      ensures !running ==> r == Propagate(made)
    {
      if running {
        return Err(PipeRunning);
      }
      r := Propagate(made);
    }
  }

  /** A fresh handle is not running, so stopping it is refused. */
  method StopFreshHandle(line: string, kill: Sys<()>, wait: Sys<()>) returns (r: Result<()>)
    requires Fields.Fields(line) != []
    ensures r == Err(NotRunning)
  {
    var e := new Exec.Cmdline(line);
    r := e.Stop(kill, wait);
  }

  /** Of two starts on one handle at most one launches: once the first succeeds, the second is refused. */
  method StartTwice(line: string, first: Sys<()>, second: Sys<()>) returns (r1: Result<()>, r2: Result<()>)
    requires Fields.Fields(line) != []
    ensures r1 == Propagate(first)
    ensures r1.Ok? ==> r2 == Err(AlreadyRunning)
    ensures r1.Err? ==> r2 == Propagate(second)
  {
    var e := new Exec.Cmdline(line);
    r1 := e.Start(first);
    r2 := e.Start(second);
  }

  /** Pipes are refused once the process has been started, and handed out before. */
  method PipeAroundStart(line: string, spawn: Sys<()>, before: Sys<Pipe>, after: Sys<Pipe>)
    returns (p1: Result<Pipe>, p2: Result<Pipe>)
    requires Fields.Fields(line) != []
    requires spawn.Done?
    ensures p1 == Propagate(before)
    ensures p2 == Err(PipeRunning)
  {
    var e := new Exec.Cmdline(line);
    p1 := e.StdoutPipe(before);
    var s := e.Start(spawn);
    p2 := e.StdoutPipe(after);
  }

  /** A started process that is killed and reaped leaves the handle not running. */
  method StartStop(line: string, spawn: Sys<()>, kill: Sys<()>, wait: Sys<()>) returns (r: Result<()>, after: bool)
    requires Fields.Fields(line) != []
    requires spawn.Done? && kill.Done? && wait.Done?
    ensures r.Ok?
    ensures !after
  {
    var e := new Exec.Cmdline(line);
    var s := e.Start(spawn);
    r := e.Stop(kill, wait);
    after := e.IsRunning();
  }

  /** A timed run that got its pipe returns nil and leaves the handle ready for another run. */
  method TimedRunThenRun(line: string, pipe: Sys<Pipe>, spawn: Sys<()>, attempts: seq<Watchdog.Read>,
                         spawn2: Sys<()>, wait2: Sys<()>)
    returns (r1: Result<()>, r2: Result<()>)
    requires Fields.Fields(line) != []
    requires pipe.Done? && Watchdog.EventuallyFails(attempts)
    ensures r1 == Ok(())
    ensures r2 != Err(AlreadyRunning)
  {
    var e := new Exec.Cmdline(line);
    r1 := e.RunTimeoutStdout(5, 10, pipe, spawn, attempts);
    r2 := e.Run(spawn2, wait2);
  }
}
