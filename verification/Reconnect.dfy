// internal/client/client.go: the reconnect loop (Run, runOnce) with the
// events it emits, and its backoff. Cancellation, dials and sessions are
// answered by an environment, one Turn per attempt.
module Reconnect {
  import opened Bytes

  // ---- backoff ----

  const SECOND := 1_000_000_000      // time.Duration counts nanoseconds
  const CAP := 30 * SECOND

  function Pow2(k: nat): nat {
    if k == 0 then 1 else 2 * Pow2(k - 1)
  }

  /** Go's int64 arithmetic. */
  function Wrap64(x: int): int {
    var r := x % 0x1_0000_0000_0000_0000;
    if r >= 0x8000_0000_0000_0000 then r - 0x1_0000_0000_0000_0000 else r
  }

  /** backoff(attempt). 2^(attempt-1) is exact in float64; what converting it
      to int64 gives from 2^63 on depends on the machine, and is `odd` here. */
  function Backoff(attempt: nat, odd: int): int
    requires attempt >= 1
  {
    var secs := if attempt <= 63 then Pow2(attempt - 1) else odd;
    var d := Wrap64(secs * SECOND);
    if d > CAP then CAP else d
  }

  /** An exponential backoff in seconds capped at 30s. */
  function Intended(attempt: nat): int
    requires attempt >= 1
  {
    if attempt <= 5 then Pow2(attempt - 1) * SECOND else CAP
  }

  lemma {:induction false} Pow2Grows(k: nat, l: nat)
    requires k <= l
    ensures Pow2(k) <= Pow2(l)
  {
    if k == l {
    } else {
      Pow2Grows(k, l - 1);
    }
  }

  lemma Pow2Values()
    ensures Pow2(4) == 16 && Pow2(5) == 32 && Pow2(33) == 8589934592
  {
    assert Pow2(10) == 1024;
    assert Pow2(20) == 1048576;
    assert Pow2(30) == 1073741824;
  }

  /** Intended is min(2^(attempt-1), 30) seconds. */
  lemma IntendedIsMin(attempt: nat)
    requires attempt >= 1
    ensures Intended(attempt) == 1_000_000_000 * if Pow2(attempt - 1) < 30 then Pow2(attempt - 1) else 30
  {
    Pow2Values();
    if attempt > 5 {
      Pow2Grows(5, attempt - 1);
    } else {
      Pow2Grows(attempt - 1, 4);
    }
  }

  /** The attempts past 34 at which the overflowing product happens to be
      positive again, and so is capped as intended. */
  predicate LuckyOverflow(attempt: nat) {
    attempt in {38, 42, 43, 46, 48, 51, 52, 54}
  }

  lemma WrapTwice(x: int)
    ensures Wrap64(2 * x) == Wrap64(2 * Wrap64(x))
  {
    var y := Wrap64(x);
    var q := if y < 0 then x / 0x1_0000_0000_0000_0000 + 1 else x / 0x1_0000_0000_0000_0000;
    assert x == q * 0x1_0000_0000_0000_0000 + y;
    var p, r := (2 * x) / 0x1_0000_0000_0000_0000, (2 * x) % 0x1_0000_0000_0000_0000;
    assert 2 * y == (p - 2 * q) * 0x1_0000_0000_0000_0000 + r;
  }

  /** The products int64 arithmetic gives for attempts 34 to 63. */
  const PRODUCTS: seq<int> := [
    8589934592000000000, -1266874889709551616, -2533749779419103232, -5067499558838206464,
    8311744956033138688, -1823254161643274240, -3646508323286548480, -7293016646573096960,
    3860710780563357696, 7721421561126715392, -3003900951456120832, -6007801902912241664,
    6431140267885068288, -5584463537939415040, 7277816997830721536, -3891110078048108544,
    -7782220156096217088, 2882303761517117440, 5764607523034234880, -6917529027641081856,
    4611686018427387904, -9223372036854775808, 0, 0,
    0, 0, 0, 0,
    0, 0
  ]

  lemma TableDoubles(i: nat)
    requires i < 29
    ensures Wrap64(2 * PRODUCTS[i]) == PRODUCTS[i + 1]
  {
  }

  lemma FirstProduct(k: nat)
    requires k == 33
    ensures Wrap64(Pow2(k) * SECOND) == PRODUCTS[0]
  {
    Pow2Values();
  }

  lemma {:induction false} ProductAt(i: nat)
    requires i <= 29
    ensures Wrap64(Pow2(33 + i) * SECOND) == PRODUCTS[i]
  {
    if i == 0 {
      FirstProduct(33 + i);
    } else {
      ProductAt(i - 1);
      WrapTwice(Pow2(33 + (i - 1)) * SECOND);
      assert Pow2(33 + i) == 2 * Pow2(33 + (i - 1));
      TableDoubles(i - 1);
    }
  }

  lemma EarlyBackoff(attempt: nat, odd: int)
    requires 1 <= attempt <= 34
    ensures Backoff(attempt, odd) == Intended(attempt)
  {
    var secs := Pow2(attempt - 1);
    EarlySeconds(attempt);
    assert Wrap64(secs * SECOND) == secs * SECOND;
  }

  lemma EarlySeconds(attempt: nat)
    requires 1 <= attempt <= 34
    ensures 1 <= Pow2(attempt - 1) <= 8589934592
    ensures attempt <= 5 ==> Pow2(attempt - 1) <= 16
    ensures attempt > 5 ==> Pow2(attempt - 1) >= 32
  {
    Pow2Values();
    Pow2Grows(0, attempt - 1);
    Pow2Grows(attempt - 1, 33);
    if attempt <= 5 {
      Pow2Grows(attempt - 1, 4);
    } else {
      Pow2Grows(5, attempt - 1);
    }
  }

  /** The wait before the next attempt is the intended one exactly for attempts
      1 to 34 and for the lucky ones up to 63. At the other attempts up to 63
      it is not positive: the loop retries at once. From 64 on it depends on
      how the machine converts a float64 that is out of range. */
  lemma BackoffIntendedIff(attempt: nat, odd: int)
    requires attempt >= 1
    ensures attempt <= 63 ==> (Backoff(attempt, odd) == Intended(attempt) <==> attempt <= 34 || LuckyOverflow(attempt))
    ensures 35 <= attempt <= 63 && !LuckyOverflow(attempt) ==> Backoff(attempt, odd) <= 0
    ensures attempt >= 64 ==> (Backoff(attempt, odd) == Intended(attempt) <==> Wrap64(odd * SECOND) >= CAP)
  {
    if attempt <= 34 {
      EarlyBackoff(attempt, odd);
    } else if attempt <= 63 {
      ProductAt(attempt - 34);
      LateBackoff(attempt, PRODUCTS[attempt - 34]);
    }
  }

  lemma LateBackoff(attempt: nat, product: int)
    requires 35 <= attempt <= 63 && product == PRODUCTS[attempt - 34]
    ensures product > CAP <==> LuckyOverflow(attempt)
    ensures product > CAP || product <= 0
  {
  }

  // ---- the loop ----

  datatype Event = Connecting | Connected | Reconnecting | Stopped | Failed

  /** Why one tunnel could not be set up. */
  datatype SetupError = AuthRejected | OtherError

  /** What one call of runOnce meets. `errors` are the errors of the tunnels
      that could not be set up, in the order they arrive. */
  datatype Attempt = Attempt(dialed: bool, multiplexed: bool, errors: seq<SetupError>, cancelledWhileServing: bool)

  datatype Outcome = Clean | Rejected | Broken

  /** One turn of the loop, as the environment answers it. */
  datatype Turn = Turn(cancelledBefore: bool, attempt: Attempt, cancelledAfter: bool, cancelledInWait: bool)

  predicate SetUp(a: Attempt) {
    a.dialed && a.multiplexed && a.errors == []
  }

  /** Only the first error to arrive decides. */
  function RunOnce(a: Attempt): Outcome {
    if !a.dialed || !a.multiplexed then Broken
    else if a.errors != [] then (if a.errors[0].AuthRejected? then Rejected else Broken)
    else if a.cancelledWhileServing then Clean
    else Broken
  }

  /** How a turn ends. */
  datatype Verdict = StoppedBefore | StoppedAfter | FailedAfter | StoppedInWait | Again

  function Judge(max: int, attempt: nat, t: Turn): Verdict {
    if t.cancelledBefore then StoppedBefore
    else if RunOnce(t.attempt).Clean? || t.cancelledAfter then StoppedAfter
    else if RunOnce(t.attempt).Rejected? || (max > 0 && attempt >= max) then FailedAfter
    else if t.cancelledInWait then StoppedInWait
    else Again
  }

  /** A round of the grammar: Connecting, Connected if the tunnels came up. */
  function Round(t: Turn): seq<Event> {
    if SetUp(t.attempt) then [Connecting, Connected] else [Connecting]
  }

  function Events(v: Verdict, t: Turn): seq<Event> {
    match v
    case StoppedBefore => [Stopped]
    case StoppedAfter => Round(t) + [Stopped]
    case FailedAfter => Round(t) + [Failed]
    case StoppedInWait => Round(t) + [Reconnecting, Stopped]
    case Again => Round(t) + [Reconnecting]
  }

  /** `trace` after a turn, event by event as the loop emits them. */
  function Emit(trace: seq<Event>, v: Verdict, t: Turn): seq<Event> {
    match v
    case StoppedBefore => trace + [Stopped]
    case StoppedAfter => trace + Round(t) + [Stopped]
    case FailedAfter => trace + Round(t) + [Failed]
    case StoppedInWait => trace + Round(t) + [Reconnecting] + [Stopped]
    case Again => trace + Round(t) + [Reconnecting]
  }

  lemma RoundEmitted(trace: seq<Event>, t: Turn)
    ensures trace + Round(t) == if SetUp(t.attempt) then trace + [Connecting] + [Connected] else trace + [Connecting]
  {
  }

  lemma EmitAppends(trace: seq<Event>, v: Verdict, t: Turn)
    ensures Emit(trace, v, t) == trace + Events(v, t)
  {
  }

  /** What a run did: its events, its waits, its dials, whether it returned. */
  datatype Log = Log(trace: seq<Event>, waits: seq<int>, dials: nat, finished: bool)

  /** The run from the turn after `done` attempts on. */
  function Outlook(max: int, odd: int, env: seq<Turn>, done: nat): Log
    decreases |env|
  {
    if env == [] then Log([], [], 0, false)
    else
      var t := env[0];
      var v := Judge(max, done + 1, t);
      var rest := if v.Again? then Outlook(max, odd, env[1..], done + 1) else Log([], [], 0, true);
      Log(Events(v, t) + rest.trace,
          (if v.Again? || v.StoppedInWait? then [Backoff(done + 1, odd)] else []) + rest.waits,
          (if v.StoppedBefore? then 0 else 1) + rest.dials,
          rest.finished)
  }

  /** Where a run stands after `attempt` attempts that are answered by the
      first turns of `env`, with what it has emitted and waited so far. */
  ghost predicate Reached(max: int, odd: int, env: seq<Turn>, attempt: nat, trace: seq<Event>, waits: seq<int>) {
    attempt <= |env| && Outlook(max, odd, env, 0) == Then(Log(trace, waits, attempt, false), Outlook(max, odd, env[attempt..], attempt))
  }

  /** A log continued by another one. */
  function Then(log: Log, rest: Log): Log {
    Log(log.trace + rest.trace, log.waits + rest.waits, log.dials + rest.dials, rest.finished)
  }

  lemma TurnEnds(max: int, odd: int, env: seq<Turn>, attempt: nat, trace: seq<Event>, waits: seq<int>, log: Log)
    requires Reached(max, odd, env, attempt, trace, waits) && attempt < |env|
    requires !Judge(max, attempt + 1, env[attempt]).Again?
    requires log.finished
    requires log.trace == Emit(trace, Judge(max, attempt + 1, env[attempt]), env[attempt])
    requires log.waits == waits + if Judge(max, attempt + 1, env[attempt]).StoppedInWait? then [Backoff(attempt + 1, odd)] else []
    requires log.dials == attempt + if env[attempt].cancelledBefore then 0 else 1
    ensures log == Outlook(max, odd, env, 0)
  {
    assert env[attempt..][0] == env[attempt];
    EmitAppends(trace, Judge(max, attempt + 1, env[attempt]), env[attempt]);
  }

  lemma TurnRepeats(max: int, odd: int, env: seq<Turn>, attempt: nat, trace: seq<Event>, waits: seq<int>, more: seq<Event>)
    requires Reached(max, odd, env, attempt, trace, waits) && attempt < |env|
    requires Judge(max, attempt + 1, env[attempt]).Again?
    requires more == Emit(trace, Again, env[attempt])
    ensures Reached(max, odd, env, attempt + 1, more, waits + [Backoff(attempt + 1, odd)])
  {
    assert env[attempt..][0] == env[attempt];
    assert env[attempt..][1..] == env[attempt + 1..];
    var rest := Outlook(max, odd, env[attempt + 1..], attempt + 1);
    EmitAppends(trace, Again, env[attempt]);
    Associates(trace, Events(Again, env[attempt]), rest.trace);
    Associates(waits, [Backoff(attempt + 1, odd)], rest.waits);
  }

  /** One turn of the loop, as far as it emits events. */
  method OneTurn(max: int, t: Turn, done: nat, trace: seq<Event>) returns (v: Verdict, after: seq<Event>)
    ensures v == Judge(max, done + 1, t) && after == Emit(trace, v, t)
  {
    if t.cancelledBefore {
      return StoppedBefore, trace + [Stopped];
    }
    var attempt := done + 1;
    after := trace + [Connecting];
    var err := RunOnce(t.attempt);
    if SetUp(t.attempt) {
      after := after + [Connected];
    }
    RoundEmitted(trace, t);
    if err.Clean? {
      return StoppedAfter, after + [Stopped];
    }
    if t.cancelledAfter {
      return StoppedAfter, after + [Stopped];
    }
    if err.Rejected? {
      return FailedAfter, after + [Failed];
    }
    if max > 0 && attempt >= max {
      return FailedAfter, after + [Failed];
    }
    after := after + [Reconnecting];
    if t.cancelledInWait {
      return StoppedInWait, after + [Stopped];
    }
    v := Again;
  }

  /** Run, answered by `env`; it does not return when `env` is exhausted. */
  method Run(max: int, odd: int, env: seq<Turn>) returns (log: Log)
    ensures log == Outlook(max, odd, env, 0)
  {
    var trace: seq<Event> := [];
    var waits: seq<int> := [];
    var attempt := 0;
    while attempt < |env|
      invariant Reached(max, odd, env, attempt, trace, waits)
    {
      var v, after := OneTurn(max, env[attempt], attempt, trace);
      if v.StoppedBefore? {
        log := Log(after, waits, attempt, true);
        TurnEnds(max, odd, env, attempt, trace, waits, log);
        return;
      }
      if v.StoppedAfter? || v.FailedAfter? {
        log := Log(after, waits, attempt + 1, true);
        TurnEnds(max, odd, env, attempt, trace, waits, log);
        return;
      }
      var backoff := Backoff(attempt + 1, odd);
      if v.StoppedInWait? {
        log := Log(after, waits + [backoff], attempt + 1, true);
        TurnEnds(max, odd, env, attempt, trace, waits, log);
        return;
      }
      TurnRepeats(max, odd, env, attempt, trace, waits, after);
      trace, waits, attempt := after, waits + [backoff], attempt + 1;
    }
    log := Log(trace, waits, attempt, false);
  }

  // ---- the language of traces ----

  predicate IsRound(r: seq<Event>) {
    r == [Connecting, Reconnecting] || r == [Connecting, Connected, Reconnecting]
  }

  predicate IsTail(r: seq<Event>) {
    r == [] || r == [Connecting] || r == [Connecting, Connected]
  }

  /** (Connecting Connected? Reconnecting)* (Connecting Connected?)? end */
  ghost predicate Shape(trace: seq<Event>, rounds: seq<seq<Event>>, tail: seq<Event>, end: Event) {
    && (forall i :: 0 <= i < |rounds| ==> IsRound(rounds[i]))
    && IsTail(tail) && (end.Stopped? || end.Failed?)
    && trace == Flatten(rounds) + tail + [end]
  }

  /** A run's rounds, and what follows the last one. */
  function Rounds(max: int, env: seq<Turn>, done: nat): seq<seq<Event>>
    decreases |env|
  {
    if env == [] then []
    else match Judge(max, done + 1, env[0])
      case Again => [Round(env[0]) + [Reconnecting]] + Rounds(max, env[1..], done + 1)
      case StoppedInWait => [Round(env[0]) + [Reconnecting]]
      case _ => []
  }

  function Tail(max: int, env: seq<Turn>, done: nat): seq<Event>
    decreases |env|
  {
    if env == [] then []
    else match Judge(max, done + 1, env[0])
      case Again => Tail(max, env[1..], done + 1)
      case StoppedAfter => Round(env[0])
      case FailedAfter => Round(env[0])
      case _ => []
  }

  function End(max: int, env: seq<Turn>, done: nat): Event
    decreases |env|
  {
    if env == [] then Stopped
    else match Judge(max, done + 1, env[0])
      case Again => End(max, env[1..], done + 1)
      case FailedAfter => Failed
      case _ => Stopped
  }

  lemma {:induction false} RunShape(max: int, odd: int, env: seq<Turn>, done: nat)
    requires Outlook(max, odd, env, done).finished
    ensures Shape(Outlook(max, odd, env, done).trace, Rounds(max, env, done), Tail(max, env, done), End(max, env, done))
    decreases |env|
  {
    var t, rounds := env[0], Rounds(max, env, done);
    match Judge(max, done + 1, t)
    case Again =>
      RunShape(max, odd, env[1..], done + 1);
      var more := Rounds(max, env[1..], done + 1);
      assert rounds[1..] == more;
      Regroup(rounds[0], Flatten(more), Tail(max, env, done), [End(max, env, done)]);
    case StoppedInWait =>
      assert Flatten(rounds) == rounds[0] + Flatten(rounds[1..]);
    case _ =>
  }

  lemma {:induction false} RoundsConnected(max: int, odd: int, env: seq<Turn>, done: nat, k: nat)
    ensures |Rounds(max, env, done)| == |Outlook(max, odd, env, done).waits|
    ensures Outlook(max, odd, env, done).dials == |Rounds(max, env, done)| + if Tail(max, env, done) == [] then 0 else 1
    ensures Outlook(max, odd, env, done).dials <= |env|
    ensures k < |Rounds(max, env, done)| ==> (Connected in Rounds(max, env, done)[k] <==> Serves(env[k].attempt))
    ensures Tail(max, env, done) != [] ==> (Connected in Tail(max, env, done) <==> Serves(env[|Rounds(max, env, done)|].attempt))
    decreases |env|
  {
    if env == [] || !Judge(max, done + 1, env[0]).Again? {
    } else {
      RoundsConnected(max, odd, env[1..], done + 1, if k == 0 then 0 else k - 1);
    }
  }

  /** All tunnels came up. */
  predicate Serves(a: Attempt) {
    a.dialed && a.multiplexed && a.errors == []
  }

  /** Every run that returns emits a trace of that language: exactly one
      terminal event, and it is the last one. There is one Connecting for each
      dial, and Connected follows it exactly if all tunnels came up. */
  lemma TraceShape(max: int, odd: int, env: seq<Turn>, done: nat)
    returns (rounds: seq<seq<Event>>, tail: seq<Event>, end: Event)
    requires Outlook(max, odd, env, done).finished
    ensures Shape(Outlook(max, odd, env, done).trace, rounds, tail, end)
    ensures |rounds| == |Outlook(max, odd, env, done).waits|
    ensures Outlook(max, odd, env, done).dials == |rounds| + (if tail == [] then 0 else 1) <= |env|
    ensures forall k :: 0 <= k < |rounds| ==> (Connected in rounds[k] <==> Serves(env[k].attempt))
    ensures tail != [] ==> (Connected in tail <==> Serves(env[|rounds|].attempt))
  {
    rounds, tail, end := Rounds(max, env, done), Tail(max, env, done), End(max, env, done);
    RunShape(max, odd, env, done);
    RoundsConnected(max, odd, env, done, 0);
    forall k | 0 <= k < |rounds| ensures Connected in rounds[k] <==> Serves(env[k].attempt) {
      RoundsConnected(max, odd, env, done, k);
    }
  }

  /** With MaxAttempts m > 0 a run dials at most m times and, given m turns,
      returns; it waits once between two attempts. */
  lemma {:induction false} BoundedAttempts(max: int, odd: int, env: seq<Turn>, done: nat)
    ensures var log := Outlook(max, odd, env, done);
      && (max > 0 && done < max ==> done + log.dials <= max)
      && (max > 0 && done < max && |env| >= max - done ==> log.finished)
      && |log.waits| <= log.dials <= |log.waits| + 1 && log.dials <= |env|
    decreases |env|
  {
    if env == [] || !Judge(max, done + 1, env[0]).Again? {
    } else {
      BoundedAttempts(max, odd, env[1..], done + 1);
    }
  }

  /** The n-th wait of a run is the n-th backoff. */
  lemma {:induction false} WaitsBackOff(max: int, odd: int, env: seq<Turn>, done: nat, n: nat)
    requires n < |Outlook(max, odd, env, done).waits|
    ensures Outlook(max, odd, env, done).waits[n] == Backoff(done + n + 1, odd)
    decreases |env|
  {
    if n == 0 {
    } else {
      WaitsBackOff(max, odd, env[1..], done + 1, n - 1);
    }
  }

  /** A session that ends in a rejection is the last one: no dial follows. */
  lemma {:induction false} RejectionIsFinal(max: int, odd: int, env: seq<Turn>, done: nat, k: nat)
    requires k < Outlook(max, odd, env, done).dials && k < |env|
    requires RunOnce(env[k].attempt).Rejected?
    ensures Outlook(max, odd, env, done).dials == k + 1 && Outlook(max, odd, env, done).finished
    decreases |env|
  {
    if k == 0 {
    } else {
      RejectionIsFinal(max, odd, env[1..], done + 1, k - 1);
    }
  }

  /** The first tunnel to fail was refused by the server. */
  predicate RejectedFirst(a: Attempt) {
    a.dialed && a.multiplexed && a.errors != [] && a.errors[0] == AuthRejected
  }

  /** The run was cancelled when the session ended, or right after it. */
  predicate Cancelled(t: Turn) {
    t.cancelledAfter || (Serves(t.attempt) && t.attempt.cancelledWhileServing)
  }

  /** After any session the loop dials again - also after a dial that failed and
      a session that was dropped - unless it was cancelled, or the server refused
      the first tunnel to fail, or the attempts are used up. */
  lemma {:induction false} DialsAgainIff(max: int, odd: int, env: seq<Turn>, done: nat, k: nat)
    requires k < Outlook(max, odd, env, done).dials && k + 1 < |env| && !env[k + 1].cancelledBefore
    ensures Outlook(max, odd, env, done).dials > k + 1 <==>
      !Cancelled(env[k]) && !env[k].cancelledInWait && !RejectedFirst(env[k].attempt) && !(max > 0 && done + k + 1 >= max)
    decreases |env|
  {
    if k == 0 {
      assert env[1..][0] == env[1];
    } else {
      DialsAgainIff(max, odd, env[1..], done + 1, k - 1);
    }
  }

  /** How a run ends. It goes on as long as it is answered; it ends in Failed
      exactly when, without a cancellation, its last session was refused or used
      up the attempts; and it ends in Stopped only by a cancellation. */
  lemma {:induction false} EndsIff(max: int, odd: int, env: seq<Turn>, done: nat)
    ensures var log := Outlook(max, odd, env, done);
      && log.dials <= |env| && (!log.finished ==> log.dials == |env|)
      && (log.finished ==> log.trace != [])
      && (log.finished && log.trace[|log.trace| - 1] == Failed <==> log.dials > 0 && EndsFailed(max, env[log.dials - 1], done + log.dials))
      && (log.finished && log.trace[|log.trace| - 1] == Stopped ==> StoppedBy(env, log.dials))
    decreases |env|
  {
    if env == [] {
    } else if Judge(max, done + 1, env[0]).Again? {
      EndsIff(max, odd, env[1..], done + 1);
      var rest := Outlook(max, odd, env[1..], done + 1);
      assert rest.dials > 0 ==> env[1..][rest.dials - 1] == env[rest.dials];
      assert rest.dials < |env[1..]| ==> env[1..][rest.dials] == env[rest.dials + 1];
    }
  }

  predicate EndsFailed(max: int, t: Turn, attempt: nat) {
    !Cancelled(t) && (RejectedFirst(t.attempt) || (max > 0 && attempt >= max))
  }

  /** A cancellation after the last of `dials` sessions, or before the next one. */
  predicate StoppedBy(env: seq<Turn>, dials: nat)
    requires dials <= |env|
  {
    || (dials > 0 && (Cancelled(env[dials - 1]) || env[dials - 1].cancelledInWait))
    || (dials < |env| && env[dials].cancelledBefore)
  }

  /** Some tunnel's token was rejected in this session. */
  predicate Rejects(a: Attempt) {
    a.dialed && a.multiplexed && AuthRejected in a.errors
  }

  /** But a session may hide a rejection. After any session in which a token was
      rejected, the loop dials again - with that same token - exactly when
      another tunnel's error arrived first and the attempts are not used up. */
  lemma {:induction false} RejectionRetriedIff(max: int, odd: int, env: seq<Turn>, done: nat, k: nat)
    requires k < Outlook(max, odd, env, done).dials && k + 1 < |env|
    requires Rejects(env[k].attempt) && !env[k].cancelledAfter && !env[k].cancelledInWait && !env[k + 1].cancelledBefore
    ensures Outlook(max, odd, env, done).dials > k + 1 <==>
      env[k].attempt.errors[0] != AuthRejected && !(max > 0 && done + k + 1 >= max)
    decreases |env|
  {
    if k == 0 {
      assert env[1..][0] == env[1];
    } else {
      RejectionRetriedIff(max, odd, env[1..], done + 1, k - 1);
    }
  }

  /** For example in a run of two sessions with two tunnels each. */
  lemma RejectionRetried(t: Turn)
    requires t == Turn(false, Attempt(true, true, [OtherError, AuthRejected], false), false, false)
    ensures Rejects(t.attempt) && Outlook(0, 0, [t, t], 0).dials == 2
  {
    assert t.attempt.errors[1] == AuthRejected;
    RejectionRetriedIff(0, 0, [t, t], 0, 0);
    BoundedAttempts(0, 0, [t, t], 0);
  }
}
