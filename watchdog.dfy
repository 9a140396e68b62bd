/** The sequential pieces of the timed runners: the watchdog's kill decision and
    the reader loop that stamps the time before every read. */
module Watchdog {

  /** The watchdog's test on every poll: kill once a stamp has been recorded (run != 0)
      and more than secs seconds have passed since it. */
  predicate ShouldKill(run: int, now: int, secs: int) {
    run != 0 && now - run > secs
  }

  /** No stamp, no kill: before the reader loop's first stamp the watchdog never fires. */
  lemma UnarmedNeverKills(now: int, secs: int)
    ensures !ShouldKill(0, now, secs)
  {
  }

  /** The window is strict: exactly secs seconds after the stamp the watchdog still waits,
      one second later it kills. */
  lemma KillBoundary(run: int, secs: int)
    requires run != 0
    ensures !ShouldKill(run, run + secs, secs)
    ensures ShouldKill(run, run + secs + 1, secs)
  {
  }

  /** Once the watchdog would kill, it would kill at every later poll with the same stamp. */
  lemma KillMonotone(run: int, now: int, later: int, secs: int)
    requires ShouldKill(run, now, secs)
    requires now <= later
    ensures ShouldKill(run, later, secs)
  {
  }

  /** A fresh stamp disarms the watchdog for secs seconds (when secs is not negative). */
  lemma FreshStampSpares(stamp: int, now: int, secs: int)
    requires secs >= 0
    requires stamp <= now <= stamp + secs
    ensures !ShouldKill(stamp, now, secs)
  {
  }

  /** One turn of the reader loop: the clock value stamped into run before the read,
      and whether ReadString returned without an error. */
  datatype Read = Read(at: int, ok: bool)

  /** The stream ends: some read fails (the process closed it or was killed). */
  predicate EventuallyFails(attempts: seq<Read>) {
    exists i :: 0 <= i < |attempts| && !attempts[i].ok
  }

  /** Index of the read that ends the loop. */
  function FirstFailure(attempts: seq<Read>): (k: nat)
    requires EventuallyFails(attempts)
    ensures k < |attempts| && !attempts[k].ok
    ensures forall j :: 0 <= j < k ==> attempts[j].ok
  {
    if !attempts[0].ok then 0
    else
      assert EventuallyFails(attempts[1..]) by {
        var i :| 0 <= i < |attempts| && !attempts[i].ok;
        assert attempts[1..][i - 1] == attempts[i];
      }
      1 + FirstFailure(attempts[1..])
  }

  /** The reader loop: stamp the time, read one delimited chunk, stop at the first failed read.
      Returns the last stamp, the number of chunks read, and the value `run` held during each
      call of ReadString, which is what the watchdog sees while that read is pending. */
  method ReadUntilClosed(attempts: seq<Read>) returns (run: int, lines: nat, stamps: seq<int>)
    requires EventuallyFails(attempts)
    ensures lines == FirstFailure(attempts)
    ensures forall j :: 0 <= j < lines ==> attempts[j].ok
    ensures |stamps| == lines + 1
    ensures forall j :: 0 <= j < |stamps| ==> stamps[j] == attempts[j].at
    ensures run == stamps[lines]
  {
    var i := 0;
    run := attempts[0].at;
    stamps := [run];
    while attempts[i].ok
      invariant 0 <= i < |attempts|
      invariant forall j :: 0 <= j < i ==> attempts[j].ok
      invariant exists f :: i <= f < |attempts| && !attempts[f].ok
      invariant |stamps| == i + 1
      invariant forall j :: 0 <= j < |stamps| ==> stamps[j] == attempts[j].at
      invariant run == stamps[i]
      decreases |attempts| - i
    {
      i := i + 1;
      run := attempts[i].at;
      stamps := stamps + [run];
    }
    lines := i;
  }

  /** A process that is silent from the start is still watched. The reader loop stamps `run`
      before its first read, so while that read is pending, before any output has arrived, a
      poll kills exactly when more than secs seconds have passed since the loop began. */
  method SilentStartIsWatched(attempts: seq<Read>, secs: int, now: int) returns (kill: bool)
    requires EventuallyFails(attempts)
    requires attempts[0].at != 0
    ensures kill <==> now - attempts[0].at > secs
  {
    var run, lines, stamps := ReadUntilClosed(attempts);
    kill := ShouldKill(stamps[0], now, secs);
  }
}
