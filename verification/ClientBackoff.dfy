/** When the run task tries again, and how long it waits before it does. */
module ClientBackoff {
  import opened Common
  import opened ClientSession

  // ----- When a run ends -----

  /** The attempt came away with the one error that is never retried. */
  predicate Unauthorized(a: Attempt) {
    a == LoginFails(ServerError(true)) || (a.Session? && a.readError == ServerError(true))
  }

  predicate TriedAgain(cfg: Config, a: Attempt) {
    cfg.reconnect && !Unauthorized(a)
  }

  /** The attempts made are a stretch from the start of the script. With `reconnect` off it is the first
      one alone; otherwise it ends with the first unauthorized one, or with the script. */
  lemma {:induction false} WhenRunEnds(cfg: Config, script: seq<Attempt>)
    ensures var n := |Made(cfg, script)|;
      && n <= |script| && Made(cfg, script) == script[..n]
      && (script != [] ==> n >= 1)
      && (forall i :: 0 <= i < n - 1 ==> TriedAgain(cfg, script[i]))
      && (n < |script| ==> !TriedAgain(cfg, script[n - 1]))
      && Retried(cfg, script) == if n >= 1 && !TriedAgain(cfg, script[n - 1]) then n - 1 else n
  {
    if script != [] && ShouldRetry(cfg, Outcome(script[0])) {
      WhenRunEnds(cfg, script[1..]);
      var n := |Made(cfg, script[1..])|;
      assert Made(cfg, script) == [script[0]] + Made(cfg, script[1..]);
      assert script[..n + 1] == [script[0]] + script[1..][..n];
      forall i | 0 <= i < n ensures TriedAgain(cfg, script[i]) {
        assert i >= 1 ==> script[i] == script[1..][i - 1];
      }
      assert n >= 1 ==> script[n] == script[1..][n - 1];
    }
  }

  // ----- The pauses -----

  function Pow2(n: nat): nat {
    if n == 0 then 1 else 2 * Pow2(n - 1)
  }

  /** The n-th pause between attempts, counting from 0. */
  function Backoff(cfg: Config, n: nat): nat {
    if n == 0 then cfg.initialDelay else Min(cfg.initialDelay * Pow2(n), cfg.maxDelay)
  }

  lemma BackoffDoubles(cfg: Config, n: nat)
    requires ValidConfig(cfg)
    ensures Doubled(cfg, Backoff(cfg, n)) == Backoff(cfg, n + 1)
  {
  }

  function Sleeps(log: seq<Entry>): seq<nat> {
    if log == [] then []
    else
      var e := log[|log| - 1];
      Sleeps(log[..|log| - 1]) + if e.Slept? then [e.delay] else []
  }

  lemma SleepsAppend(log: seq<Entry>, e: Entry)
    ensures Sleeps(log + [e]) == Sleeps(log) + if e.Slept? then [e.delay] else []
  {
  }

  lemma {:induction false} AwakeMeanwhile(log: seq<Entry>, es: seq<Entry>)
    requires forall e :: e in es ==> !e.Slept?
    ensures Sleeps(log + es) == Sleeps(log)
  {
    if es == [] {
      assert log + es == log;
    } else {
      var front, last := es[..|es| - 1], es[|es| - 1];
      AwakeMeanwhile(log, front);
      assert log + es == (log + front) + [last];
      SleepsAppend(log + front, last);
    }
  }

  lemma ConnectSleeps(cfg: Config, log: seq<Entry>, a: Attempt)
    ensures Sleeps(Connect(cfg, log, a)) == Sleeps(log)
  {
    hide Sleeps, Seen;
    if a.Session? {
      SessionIsPlain(cfg, a.frames);
    }
    AwakeMeanwhile(log, AttemptEntries(cfg, Seen(log), a));
  }

  lemma RetrySleeps(log: seq<Entry>, d: nat)
    ensures Sleeps(Retry(log, d)) == Sleeps(log) + [d]
  {
    assert Retry(log, d) == log + [ErrorEvent] + [Slept(d)];
    SleepsAppend(log, ErrorEvent);
    SleepsAppend(log + [ErrorEvent], Slept(d));
  }

  function BackoffFrom(cfg: Config, n: nat, count: nat): (s: seq<nat>)
    ensures |s| == count && forall i :: 0 <= i < count ==> s[i] == Backoff(cfg, n + i)
  {
    seq<nat>(count, i requires 0 <= i < count => Backoff(cfg, n + i))
  }

  lemma BackoffSplit(cfg: Config, n: nat, k: nat)
    ensures BackoffFrom(cfg, n, k + 1) == [Backoff(cfg, n)] + BackoffFrom(cfg, n + 1, k)
  {
  }

  lemma {:induction false} PlaySleeps(cfg: Config, log: seq<Entry>, script: seq<Attempt>, n: nat)
    requires ValidConfig(cfg)
    ensures Sleeps(Play(cfg, log, script, Backoff(cfg, n)))
         == Sleeps(log) + BackoffFrom(cfg, n, Retried(cfg, script))
    decreases script
  {
    hide Sleeps, Connect, Retry, Backoff, Doubled, BackoffFrom;
    if script != [] {
      var t := Connect(cfg, log, script[0]);
      ConnectSleeps(cfg, log, script[0]);
      if ShouldRetry(cfg, Outcome(script[0])) {
        var d := Backoff(cfg, n);
        RetrySleeps(t, d);
        BackoffDoubles(cfg, n);
        PlaySleeps(cfg, Retry(t, d), script[1..], n + 1);
        BackoffSplit(cfg, n, Retried(cfg, script[1..]));
      }
    }
  }

  /** The pauses of a whole run: one per retried attempt, doubling up to the maximum. A session that
      logged in successfully does not reset them. */
  lemma BackoffOfRun(cfg: Config, script: seq<Attempt>)
    requires ValidConfig(cfg)
    ensures Sleeps(Play(cfg, [], script, cfg.initialDelay))
         == BackoffFrom(cfg, 0, Retried(cfg, script))
  {
    PlaySleeps(cfg, [], script, 0);
  }
}
