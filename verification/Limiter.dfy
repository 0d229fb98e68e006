/** Token buckets: the per-host limiter of service commands, whose sweep forgets full
    buckets, and the global limiters of registrations and dictionary lookups. Times are
    real seconds of a monotone clock. */
module Limiter {
  import opened Text

  /** The two refill rates in use: 0.5 and 1.0 tokens per second. */
  datatype Rate = HalfPerSecond | OnePerSecond

  /** Size and refill rate of a bucket. */
  datatype Limits = Limits(burst: real, rate: Rate) {
    /** What a bucket gains in `d` seconds. */
    function Gain(d: real): real {
      if rate == HalfPerSecond then d / 2.0 else d
    }
  }

  ghost predicate Sane(l: Limits) {
    l.burst >= 1.0
  }

  const CMD := Limits(15.0, HalfPerSecond)
  const REG := Limits(8.0, HalfPerSecond)
  const DICT := Limits(6.0, OnePerSecond)
  const CMD_WARN_EVERY := 30.0
  const CMD_SWEEP_EVERY := 60.0

  datatype Bucket = Bucket(tokens: real, last: real, lastWarn: Option<real>)

  datatype Verdict = Allow | Warn | Drop

  /** `duration_since`, which saturates at zero. */
  function Elapsed(now: real, past: real): real {
    if now >= past then now - past else 0.0
  }

  function Min(x: real, y: real): real {
    if x <= y then x else y
  }

  function Refilled(l: Limits, b: Bucket, now: real): real {
    Min(b.tokens + l.Gain(Elapsed(now, b.last)), l.burst)
  }

  function Full(l: Limits, now: real): Bucket {
    Bucket(l.burst, now, None)
  }

  /** One command against one bucket. */
  function Use(l: Limits, b: Bucket, now: real): (Bucket, Verdict) {
    var tokens := Refilled(l, b, now);
    if tokens >= 1.0 then (Bucket(tokens - 1.0, now, b.lastWarn), Allow)
    else if b.lastWarn.None? || Elapsed(now, b.lastWarn.value) >= CMD_WARN_EVERY
    then (Bucket(tokens, now, Some(now)), Warn)
    else (Bucket(tokens, now, b.lastWarn), Drop)
  }

  datatype Command = Command(key: string, now: real)

  ghost predicate Monotone(run: seq<Command>) {
    forall i, j :: 0 <= i <= j < |run| ==> run[i].now <= run[j].now
  }

  // ----- The limiter that never forgets ------------------------------------------

  function BucketAfter(l: Limits, run: seq<Command>, key: string): Option<Bucket> {
    if run == [] then None
    else
      var front, cmd := run[..|run| - 1], run[|run| - 1];
      if cmd.key == key then Some(Use(l, Entry(l, BucketAfter(l, front, key), cmd.now), cmd.now).0)
      else BucketAfter(l, front, key)
  }

  /** `entry(key).or_insert(full)`. */
  function Entry(l: Limits, b: Option<Bucket>, now: real): Bucket {
    if b.Some? then b.value else Full(l, now)
  }

  /** Its verdict on the last command of a run. */
  function Simple(l: Limits, run: seq<Command>): Verdict
    requires run != []
  {
    var cmd := run[|run| - 1];
    Use(l, Entry(l, BucketAfter(l, run[..|run| - 1], cmd.key), cmd.now), cmd.now).1
  }

  // ----- The limiter that sweeps ----------------------------------------------------

  datatype State = State(buckets: map<string, Bucket>, lastSweep: Option<real>)

  const START := State(map[], None)

  function NotFull(l: Limits, b: Bucket, now: real): bool {
    b.tokens + l.Gain(Elapsed(now, b.last)) < l.burst
  }

  function Swept(l: Limits, s: State, now: real): State {
    if s.lastSweep.Some? && Elapsed(now, s.lastSweep.value) < CMD_SWEEP_EVERY then s
    else State(map k | k in s.buckets && NotFull(l, s.buckets[k], now) :: s.buckets[k], Some(now))
  }

  function Lookup(m: map<string, Bucket>, key: string): Option<Bucket> {
    if key in m then Some(m[key]) else None
  }

  function Check(l: Limits, s: State, cmd: Command): (State, Verdict) {
    var swept := Swept(l, s, cmd.now);
    var (b, v) := Use(l, Entry(l, Lookup(swept.buckets, cmd.key), cmd.now), cmd.now);
    (State(swept.buckets[cmd.key := b], swept.lastSweep), v)
  }

  function StateAfter(l: Limits, run: seq<Command>): State {
    if run == [] then START else Check(l, StateAfter(l, run[..|run| - 1]), run[|run| - 1]).0
  }

  function Sweeping(l: Limits, run: seq<Command>): Verdict
    requires run != []
  {
    Check(l, StateAfter(l, run[..|run| - 1]), run[|run| - 1]).1
  }

  // ----- The sweep is lossless for what is allowed -----------------------------------

  /** Buckets present agree in level and time; a missing one would be full. */
  ghost predicate SameLevels(l: Limits, run: seq<Command>, m: map<string, Bucket>, now: real) {
    forall k ::
      var b := BucketAfter(l, run, k);
      && (k in m ==> b.Some? && m[k].tokens == b.value.tokens && m[k].last == b.value.last)
      && (k !in m && b.Some? ==> Refilled(l, b.value, now) == l.burst)
  }

  /** Time moves on and the tanks stay within their limits. */
  ghost predicate InRange(l: Limits, run: seq<Command>, k: string) {
    var b := BucketAfter(l, run, k);
    b.Some? ==> 0.0 <= b.value.tokens <= l.burst && run != [] && b.value.last <= run[|run| - 1].now
  }

  lemma {:induction false} BucketsInRange(l: Limits, run: seq<Command>, k: string)
    requires Sane(l) && Monotone(run)
    ensures InRange(l, run, k)
  {
    if run != [] {
      var front, cmd := run[..|run| - 1], run[|run| - 1];
      BucketsInRange(l, front, k);
      if cmd.key == k {
        UseInRange(l, Entry(l, BucketAfter(l, front, k), cmd.now), cmd.now);
      }
    }
  }

  lemma UseInRange(l: Limits, b: Bucket, now: real)
    requires Sane(l) && 0.0 <= b.tokens <= l.burst
    ensures var b' := Use(l, b, now).0; 0.0 <= b'.tokens <= l.burst && b'.last == now
  {
  }

  /** A bucket that would be full stays so. */
  lemma FullStaysFull(l: Limits, b: Bucket, now: real, later: real)
    requires Sane(l) && now <= later && Refilled(l, b, now) == l.burst
    ensures Refilled(l, b, later) == l.burst
  {
  }

  lemma SweepKeepsLevels(l: Limits, run: seq<Command>, s: State, then_: real, now: real)
    requires Sane(l) && then_ <= now && SameLevels(l, run, s.buckets, then_)
    ensures SameLevels(l, run, Swept(l, s, now).buckets, now)
  {
    var m := Swept(l, s, now).buckets;
    forall k
      ensures var b := BucketAfter(l, run, k);
        && (k in m ==> b.Some? && m[k].tokens == b.value.tokens && m[k].last == b.value.last)
        && (k !in m && b.Some? ==> Refilled(l, b.value, now) == l.burst)
    {
      var b := BucketAfter(l, run, k);
      if b.Some? && k !in s.buckets {
        FullStaysFull(l, b.value, then_, now);
      }
    }
  }

  /** The two buckets of a command lead to the same tokens and to the same Allow. */
  lemma SameUse(l: Limits, a: Bucket, b: Bucket, now: real)
    requires Refilled(l, a, now) == Refilled(l, b, now)
    ensures var (a', v), (b', w) := Use(l, a, now), Use(l, b, now);
            a'.tokens == b'.tokens && a'.last == b'.last && (v == Allow <==> w == Allow)
  {
  }

  lemma SwapEntry(l: Limits, run: seq<Command>, m: map<string, Bucket>, key: string, now: real)
    requires Sane(l) && Monotone(run) && (run != [] ==> run[|run| - 1].now <= now) && SameLevels(l, run, m, now)
    ensures Refilled(l, Entry(l, Lookup(m, key), now), now) == Refilled(l, Entry(l, BucketAfter(l, run, key), now), now)
  {
    assert key in m ==> BucketAfter(l, run, key).Some?;
    assert key !in m && BucketAfter(l, run, key).Some? ==> Refilled(l, BucketAfter(l, run, key).value, now) == l.burst;
  }

  lemma CheckKeepsLevels(l: Limits, front: seq<Command>, cmd: Command)
    requires Sane(l) && Monotone(front) && (front != [] ==> front[|front| - 1].now <= cmd.now)
    requires SameLevels(l, front, StateAfter(l, front).buckets, TimeOf(front, cmd.now))
    ensures SameLevels(l, front + [cmd], Check(l, StateAfter(l, front), cmd).0.buckets, cmd.now)
    ensures Check(l, StateAfter(l, front), cmd).1 == Allow <==> Simple(l, front + [cmd]) == Allow
  {
    var s, run := StateAfter(l, front), front + [cmd];
    assert run[..|run| - 1] == front;
    SweepKeepsLevels(l, front, s, TimeOf(front, cmd.now), cmd.now);
    var m := Swept(l, s, cmd.now).buckets;
    SwapEntry(l, front, m, cmd.key, cmd.now);
    SameUse(l, Entry(l, Lookup(m, cmd.key), cmd.now), Entry(l, BucketAfter(l, front, cmd.key), cmd.now), cmd.now);
    assert forall k :: k != cmd.key ==> BucketAfter(l, run, k) == BucketAfter(l, front, k);
  }

  function TimeOf(run: seq<Command>, now: real): real {
    if run == [] then now else run[|run| - 1].now
  }

  lemma {:induction false} LevelsAgree(l: Limits, run: seq<Command>, now: real)
    requires Sane(l) && Monotone(run)
    ensures SameLevels(l, run, StateAfter(l, run).buckets, TimeOf(run, now))
  {
    if run != [] {
      var front, cmd := run[..|run| - 1], run[|run| - 1];
      LevelsAgree(l, front, cmd.now);
      assert run == front + [cmd];
      CheckKeepsLevels(l, front, cmd);
    }
  }

  /** The sweeping limiter allows exactly the commands the limiter that never forgets
      allows, on every timestamped command sequence. */
  lemma SweepIsLossless(l: Limits, run: seq<Command>)
    requires Sane(l) && Monotone(run) && run != []
    ensures Sweeping(l, run) == Allow <==> Simple(l, run) == Allow
  {
    var front, cmd := run[..|run| - 1], run[|run| - 1];
    LevelsAgree(l, front, cmd.now);
    assert run == front + [cmd];
    CheckKeepsLevels(l, front, cmd);
  }

  // ----- How much is allowed -----------------------------------------------------------

  /** Commands of `key` from index `i` on that the sweeping limiter allowed. */
  function Allowed(l: Limits, run: seq<Command>, key: string, i: nat): nat {
    if |run| <= i then 0
    else
      Allowed(l, run[..|run| - 1], key, i)
      + if run[|run| - 1].key == key && Sweeping(l, run) == Allow then 1 else 0
  }

  ghost predicate Speaks(run: seq<Command>, key: string, i: nat) {
    exists j :: i <= j < |run| && run[j].key == key
  }

  /** What was allowed since index i plus what is left is covered by a full bucket and
      the refill since then. */
  ghost predicate Paid(l: Limits, run: seq<Command>, key: string, i: nat) {
    i < |run| &&
    if Speaks(run, key, i) then
      var b := BucketAfter(l, run, key);
      b.Some? && Allowed(l, run, key, i) as real + b.value.tokens <= l.burst + l.Gain(b.value.last - run[i].now)
    else Allowed(l, run, key, i) == 0
  }

  lemma UsePays(l: Limits, b: Bucket, now: real, n: nat, since: real)
    requires Sane(l) && b.last <= now
    requires n as real + b.tokens <= l.burst + l.Gain(b.last - since)
    ensures var (b', v) := Use(l, b, now);
            (n + if v == Allow then 1 else 0) as real + b'.tokens <= l.burst + l.Gain(now - since)
  {
  }

  lemma FirstUsePays(l: Limits, b: Bucket, now: real, since: real)
    requires Sane(l) && since <= now
    ensures var (b', v) := Use(l, b, now);
            (if v == Allow then 1.0 else 0.0) + b'.tokens <= l.burst + l.Gain(now - since)
  {
  }

  lemma {:induction false} EveryCommandIsPaid(l: Limits, run: seq<Command>, key: string, i: nat)
    requires Sane(l) && Monotone(run) && i < |run|
    ensures Paid(l, run, key, i)
  {
    var front, cmd := run[..|run| - 1], run[|run| - 1];
    SweepIsLossless(l, run);
    BucketsInRange(l, front, key);
    if i < |front| {
      EveryCommandIsPaid(l, front, key, i);
      assert front[i].now == run[i].now;
    }
    if cmd.key == key {
      assert Speaks(run, key, i);
      if i < |front| && Speaks(front, key, i) {
        UsePays(l, BucketAfter(l, front, key).value, cmd.now, Allowed(l, front, key, i), run[i].now);
      } else {
        FirstUsePays(l, Entry(l, BucketAfter(l, front, key), cmd.now), cmd.now, run[i].now);
      }
    } else {
      assert Speaks(run, key, i) ==> i < |front| && Speaks(front, key, i);
      assert i < |front| && Speaks(front, key, i) ==> Speaks(run, key, i) by {
        if i < |front| && Speaks(front, key, i) {
          var j :| i <= j < |front| && front[j].key == key;
          assert run[j].key == key;
        }
      }
    }
  }

  /** In every run and every stretch of it lasting at most W seconds, one host gets at
      most burst + rate * W commands through, sweeps and re-created buckets included. */
  lemma RateIsBounded(l: Limits, run: seq<Command>, key: string, i: nat, w: real)
    requires Sane(l) && Monotone(run) && i < |run| && run[|run| - 1].now - run[i].now <= w
    ensures Allowed(l, run, key, i) as real <= l.burst + l.Gain(w)
  {
    EveryCommandIsPaid(l, run, key, i);
    BucketsInRange(l, run, key);
    if Speaks(run, key, i) {
      var b := BucketAfter(l, run, key).value;
    }
  }

  /** The command limiter: 15 at once and one every two seconds after that. */
  lemma CommandRate(run: seq<Command>, key: string, i: nat, w: real)
    requires Monotone(run) && i < |run| && run[|run| - 1].now - run[i].now <= w
    ensures Allowed(CMD, run, key, i) as real <= 15.0 + w / 2.0
  {
    RateIsBounded(CMD, run, key, i, w);
  }

  /** A limiter without keys: everything counts against the one bucket. */
  ghost predicate Unkeyed(run: seq<Command>) {
    forall i :: 0 <= i < |run| ==> run[i].key == ""
  }

  /** What a limiter that never sweeps granted from moment `i` on. */
  function Granted(l: Limits, run: seq<Command>, i: nat): nat {
    if |run| <= i then 0 else Granted(l, run[..|run| - 1], i) + if Simple(l, run) == Allow then 1 else 0
  }

  lemma {:induction false} GrantedIsAllowed(l: Limits, run: seq<Command>, i: nat)
    requires Sane(l) && Monotone(run) && Unkeyed(run)
    ensures Granted(l, run, i) == Allowed(l, run, "", i)
  {
    hide Sweeping, Simple;
    if |run| > i {
      var front := run[..|run| - 1];
      assert Monotone(front) && Unkeyed(front);
      GrantedIsAllowed(l, front, i);
      SweepIsLossless(l, run);
    }
  }

  /** The same bound for the limiters of registrations and lookups, whoever asks. */
  lemma GlobalRate(l: Limits, run: seq<Command>, i: nat, w: real)
    requires Sane(l) && Monotone(run) && Unkeyed(run) && i < |run| && run[|run| - 1].now - run[i].now <= w
    ensures Granted(l, run, i) as real <= l.burst + l.Gain(w)
  {
    GrantedIsAllowed(l, run, i);
    RateIsBounded(l, run, "", i, w);
  }

  /** Registrations: at most 8, and then one every two seconds, altogether. */
  lemma RegistrationRate(run: seq<Command>, i: nat, w: real)
    requires Monotone(run) && Unkeyed(run) && i < |run| && run[|run| - 1].now - run[i].now <= w
    ensures Granted(REG, run, i) as real <= 8.0 + w / 2.0
  {
    GlobalRate(REG, run, i, w);
  }

  // ----- Nobody is refused without a burst -------------------------------------------------

  /** Tokens left plus commands allowed since i make up for the refill since `since`. */
  ghost predicate Funded(l: Limits, run: seq<Command>, key: string, i: nat, since: real) {
    var b := BucketAfter(l, run, key);
    b.Some? ==>
      b.value.tokens + Allowed(l, run, key, i) as real >= Min(l.burst, l.Gain(b.value.last - since))
  }

  lemma {:induction false} EveryTokenIsFunded(l: Limits, run: seq<Command>, key: string, i: nat, since: real)
    requires Sane(l) && Monotone(run) && forall j :: 0 <= j < i && j < |run| ==> run[j].now <= since
    ensures Funded(l, run, key, i, since)
  {
    if run != [] {
      var front, cmd := run[..|run| - 1], run[|run| - 1];
      forall j | 0 <= j < i && j < |front| ensures front[j].now <= since {
        assert front[j] == run[j];
      }
      EveryTokenIsFunded(l, front, key, i, since);
      BucketsInRange(l, front, key);
      SweepIsLossless(l, run);
    }
  }

  /** A refused host had at least a full bucket of commands allowed within the time it
      takes to fill one: for the command limiter, 15 within the last 30 seconds. */
  lemma RefusalNeedsBurst(l: Limits, run: seq<Command>, i: nat, since: real)
    requires Sane(l) && Monotone(run) && run != [] && Sweeping(l, run) != Allow
    requires forall j :: 0 <= j < i && j < |run| ==> run[j].now <= since
    requires l.Gain(run[|run| - 1].now - since) >= l.burst
    ensures Allowed(l, run, run[|run| - 1].key, i) as real > l.burst - 1.0
  {
    var key := run[|run| - 1].key;
    EveryTokenIsFunded(l, run, key, i, since);
    SweepIsLossless(l, run);
  }

  /** A host whose command is refused had 15 allowed within the last 30 seconds. */
  lemma CommandRefusal(run: seq<Command>, i: nat, since: real)
    requires Monotone(run) && run != [] && Sweeping(CMD, run) != Allow
    requires forall j :: 0 <= j < i && j < |run| ==> run[j].now <= since
    requires run[|run| - 1].now - since >= 30.0
    ensures Allowed(CMD, run, run[|run| - 1].key, i) >= 15
  {
    RefusalNeedsBurst(CMD, run, i, since);
  }

  lemma GlobalRefusal(l: Limits, run: seq<Command>, i: nat, since: real)
    requires Sane(l) && Monotone(run) && Unkeyed(run) && run != [] && Simple(l, run) != Allow
    requires forall j :: 0 <= j < i && j < |run| ==> run[j].now <= since
    requires l.Gain(run[|run| - 1].now - since) >= l.burst
    ensures Granted(l, run, i) as real > l.burst - 1.0
  {
    SweepIsLossless(l, run);
    RefusalNeedsBurst(l, run, i, since);
    GrantedIsAllowed(l, run, i);
  }

  /** No registration is refused unless 8 were granted within the last 16 seconds. */
  lemma RegistrationRefusal(run: seq<Command>, i: nat, since: real)
    requires Monotone(run) && Unkeyed(run) && run != [] && Simple(REG, run) != Allow
    requires forall j :: 0 <= j < i && j < |run| ==> run[j].now <= since
    requires run[|run| - 1].now - since >= 16.0
    ensures Granted(REG, run, i) >= 8
  {
    GlobalRefusal(REG, run, i, since);
  }

  /** Lookups: at most 6 and then one every second, and none refused unless 6 were granted
      within the last 6 seconds. */
  lemma LookupRate(run: seq<Command>, i: nat, w: real)
    requires Monotone(run) && Unkeyed(run) && i < |run| && run[|run| - 1].now - run[i].now <= w
    ensures Granted(DICT, run, i) as real <= 6.0 + w
  {
    GlobalRate(DICT, run, i, w);
  }

  lemma LookupRefusal(run: seq<Command>, i: nat, since: real)
    requires Monotone(run) && Unkeyed(run) && run != [] && Simple(DICT, run) != Allow
    requires forall j :: 0 <= j < i && j < |run| ==> run[j].now <= since
    requires run[|run| - 1].now - since >= 6.0
    ensures Granted(DICT, run, i) >= 6
  {
    GlobalRefusal(DICT, run, i, since);
  }

  // ----- Who is warned, told by the verdicts given ----------------------------------------

  /** Command `i` drew a warning for `key` from the limiter that never forgets. */
  ghost predicate WarnedAt(l: Limits, run: seq<Command>, key: string, i: int) {
    0 <= i < |run| && run[i].key == key && Simple(l, run[..i + 1]) == Warn
  }

  function LastWarning(l: Limits, run: seq<Command>, key: string): Option<real> {
    if run == [] then None
    else if run[|run| - 1].key == key && Simple(l, run) == Warn then Some(run[|run| - 1].now)
    else LastWarning(l, run[..|run| - 1], key)
  }

  lemma {:induction false} LastWarnIs(l: Limits, run: seq<Command>, key: string)
    ensures LastWarning(l, run, key) ==
            match BucketAfter(l, run, key) case None => None case Some(b) => b.lastWarn
  {
    if run != [] {
      LastWarnIs(l, run[..|run| - 1], key);
    }
  }

  lemma {:induction false} LastWarningIs(l: Limits, run: seq<Command>, key: string) returns (i: nat)
    ensures LastWarning(l, run, key).Some? ==>
              && WarnedAt(l, run, key, i) && run[i].now == LastWarning(l, run, key).value
              && forall j :: i < j < |run| ==> !WarnedAt(l, run, key, j)
    ensures LastWarning(l, run, key).None? ==> forall j :: !WarnedAt(l, run, key, j)
  {
    hide Simple;
    i := 0;
    if run != [] {
      var front := run[..|run| - 1];
      assert run[..|run|] == run;
      var i' := LastWarningIs(l, front, key);
      forall j | 0 <= j < |front| ensures WarnedAt(l, run, key, j) == WarnedAt(l, front, key, j) {
        assert run[..j + 1] == front[..j + 1];
      }
      i := if WarnedAt(l, run, key, |run| - 1) then |run| - 1 else i';
    }
  }

  /** A refused command is warned about exactly when no warning of that host lies less than
      30 seconds back. */
  lemma WarnIff(l: Limits, run: seq<Command>)
    requires Monotone(run) && run != []
    ensures var last := |run| - 1;
            Simple(l, run) == Warn <==>
              && Simple(l, run) != Allow
              && forall i :: i < last && WarnedAt(l, run, run[last].key, i) ==> run[last].now - run[i].now >= 30.0
  {
    var front, last := run[..|run| - 1], |run| - 1;
    var key := run[last].key;
    LastWarnIs(l, front, key);
    var i := LastWarningIs(l, front, key);
    forall j | 0 <= j < last ensures WarnedAt(l, run, key, j) == WarnedAt(l, front, key, j) {
      assert run[..j + 1] == front[..j + 1];
    }
    assert LastWarning(l, front, key).Some? ==> WarnedAt(l, run, key, i);
  }

  /** When the last sweep took place, by the times of the commands alone. */
  function SweepTime(run: seq<Command>): Option<real> {
    if run == [] then None
    else
      var before, now := SweepTime(run[..|run| - 1]), run[|run| - 1].now;
      if before.Some? && now - before.value < 60.0 then before else Some(now)
  }

  /** Command `j` set off a sweep, and `key` had a full bucket to lose by then. */
  ghost predicate ForgottenAt(l: Limits, run: seq<Command>, key: string, j: int) {
    && 0 <= j < |run|
    && (SweepTime(run[..j]).None? || run[j].now - SweepTime(run[..j]).value >= 60.0)
    && var b := BucketAfter(l, run[..j], key);
       b.Some? && b.value.tokens + l.Gain(run[j].now - b.value.last) >= l.burst
  }

  /** Command `i` drew a warning for `key` from the sweeping limiter. */
  ghost predicate ToldAt(l: Limits, run: seq<Command>, key: string, i: int) {
    0 <= i < |run| && run[i].key == key && Sweeping(l, run[..i + 1]) == Warn
  }

  ghost predicate ForgottenSince(l: Limits, run: seq<Command>, key: string, i: int) {
    exists j :: i < j < |run| && ForgottenAt(l, run, key, j)
  }

  /** The last warning the sweeping limiter still knows of. */
  ghost function KnownWarning(l: Limits, run: seq<Command>, key: string): Option<real> {
    if run == [] then None
    else
      var last := |run| - 1;
      if run[last].key == key && Sweeping(l, run) == Warn then Some(run[last].now)
      else if ForgottenAt(l, run, key, last) then None
      else KnownWarning(l, run[..last], key)
  }

  lemma {:induction false} SweepTimeIs(l: Limits, run: seq<Command>)
    requires Monotone(run)
    ensures StateAfter(l, run).lastSweep == SweepTime(run)
    ensures SweepTime(run).Some? ==> run != [] && SweepTime(run).value <= run[|run| - 1].now
  {
    hide Use;
    if run != [] {
      SweepTimeIs(l, run[..|run| - 1]);
    }
  }

  /** A sweep drops a host's bucket exactly when the history says it had refilled. */
  lemma SweptIffForgotten(l: Limits, front: seq<Command>, cmd: Command, key: string)
    requires Sane(l) && Monotone(front + [cmd])
    ensures var s := StateAfter(l, front);
            key in Swept(l, s, cmd.now).buckets <==> key in s.buckets && !ForgottenAt(l, front + [cmd], key, |front|)
  {
    MonotoneFront(front, cmd);
    SweepTimeIs(l, front);
    LevelsAgree(l, front, cmd.now);
    BucketsInRange(l, front, key);
    assert (front + [cmd])[..|front|] == front;
  }

  lemma {:induction false} KnownWarningIs(l: Limits, run: seq<Command>, key: string)
    requires Sane(l) && Monotone(run)
    ensures var m := StateAfter(l, run).buckets;
            KnownWarning(l, run, key) == if key in m then m[key].lastWarn else None
  {
    hide ForgottenAt, NotFull;
    if run != [] {
      var front, cmd := run[..|run| - 1], run[|run| - 1];
      assert run == front + [cmd];
      KnownWarningIs(l, front, key);
      SweptIffForgotten(l, front, cmd, key);
    }
  }

  lemma ForgottenLonger(l: Limits, front: seq<Command>, cmd: Command, key: string, j: int)
    requires j < |front|
    ensures ForgottenAt(l, front + [cmd], key, j) == ForgottenAt(l, front, key, j)
    ensures ToldAt(l, front + [cmd], key, j) == ToldAt(l, front, key, j)
  {
    hide Sweeping, BucketAfter;
    if 0 <= j {
      assert (front + [cmd])[..j] == front[..j] && (front + [cmd])[..j + 1] == front[..j + 1];
    }
  }

  /** A warning counts until its host's bucket is forgotten. */
  ghost predicate StillKnown(l: Limits, run: seq<Command>, key: string, i: int) {
    ToldAt(l, run, key, i) && !ForgottenSince(l, run, key, i)
  }

  lemma StillKnownLonger(l: Limits, front: seq<Command>, cmd: Command, key: string, i: int)
    requires i < |front|
    ensures StillKnown(l, front + [cmd], key, i) <==>
            StillKnown(l, front, key, i) && !ForgottenAt(l, front + [cmd], key, |front|)
  {
    hide ForgottenAt, ToldAt;
    ForgottenLonger(l, front, cmd, key, i);
    forall j | i < j < |front| ensures ForgottenAt(l, front + [cmd], key, j) == ForgottenAt(l, front, key, j) {
      ForgottenLonger(l, front, cmd, key, j);
    }
  }

  lemma {:induction false} KnownWarningMeans(l: Limits, run: seq<Command>, key: string) returns (i: nat)
    ensures KnownWarning(l, run, key).Some? ==>
              && StillKnown(l, run, key, i) && run[i].now == KnownWarning(l, run, key).value
              && forall j :: i < j < |run| ==> !StillKnown(l, run, key, j)
    ensures KnownWarning(l, run, key).None? ==> forall j :: 0 <= j < |run| ==> !StillKnown(l, run, key, j)
  {
    hide ForgottenAt, Sweeping;
    i := 0;
    if run != [] {
      var front, cmd := run[..|run| - 1], run[|run| - 1];
      assert run == front + [cmd] && run[..|run|] == run;
      var i' := KnownWarningMeans(l, front, key);
      forall j | 0 <= j < |front|
        ensures StillKnown(l, run, key, j) <==> StillKnown(l, front, key, j) && !ForgottenAt(l, run, key, |front|)
      {
        StillKnownLonger(l, front, cmd, key, j);
      }
      i := if ToldAt(l, run, key, |front|) then |front| else i';
    }
  }

  lemma ForgottenNow(l: Limits, run: seq<Command>, key: string)
    requires run != [] && ForgottenAt(l, run, key, |run| - 1)
    ensures forall i :: i < |run| - 1 ==> ForgottenSince(l, run, key, i)
  {
  }

  lemma ToldNow(l: Limits, front: seq<Command>, cmd: Command)
    requires Sane(l) && Monotone(front + [cmd])
    ensures var run := front + [cmd];
            var known := if ForgottenAt(l, run, cmd.key, |front|) then None else KnownWarning(l, front, cmd.key);
            Sweeping(l, run) == Warn <==> Sweeping(l, run) != Allow && (known.None? || cmd.now - known.value >= 30.0)
  {
    hide ForgottenAt, NotFull, KnownWarning;
    MonotoneFront(front, cmd);
    assert (front + [cmd])[..|front|] == front;
    KnownWarningIs(l, front, cmd.key);
    SweptIffForgotten(l, front, cmd, cmd.key);
  }

  /** Of the sweeping limiter: a refused command is warned about exactly when every warning
      it gave that host less than 30 seconds back has been forgotten since by a sweep. */
  lemma SweepingWarnIff(l: Limits, run: seq<Command>)
    requires Sane(l) && Monotone(run) && run != []
    ensures var last := |run| - 1;
            var key := run[last].key;
            Sweeping(l, run) == Warn <==>
              && Sweeping(l, run) != Allow
              && forall i :: i < last && ToldAt(l, run, key, i) && run[last].now - run[i].now < 30.0 ==>
                   ForgottenSince(l, run, key, i)
  {
    hide ForgottenAt, Sweeping, KnownWarning, ForgottenSince;
    var front, cmd, last := run[..|run| - 1], run[|run| - 1], |run| - 1;
    var key := cmd.key;
    assert run == front + [cmd];
    ToldNow(l, front, cmd);
    if ForgottenAt(l, run, key, last) {
      ForgottenNow(l, run, key);
    }
    var i := KnownWarningMeans(l, front, key);
    forall j | 0 <= j < last
      ensures StillKnown(l, run, key, j) <==> StillKnown(l, front, key, j) && !ForgottenAt(l, run, key, last)
      ensures ToldAt(l, run, key, j) == ToldAt(l, front, key, j)
    {
      StillKnownLonger(l, front, cmd, key, j);
      ForgottenLonger(l, front, cmd, key, j);
    }
  }

  /** Given the same verdicts so far, the two limiters differ on a command if and only if it
      is refused, the host was warned less than 30 seconds ago, and a sweep forgot it since. */
  lemma DiffersIff(l: Limits, run: seq<Command>)
    requires Sane(l) && Monotone(run) && run != [] && AgreeThroughout(l, run[..|run| - 1])
    ensures var last := |run| - 1;
            var key := run[last].key;
            Sweeping(l, run) != Simple(l, run) <==>
              && Simple(l, run) != Allow
              && exists i :: i < last && WarnedAt(l, run, key, i) && run[last].now - run[i].now < 30.0
                             && ForgottenSince(l, run, key, i)
  {
    hide ForgottenAt, Sweeping, Simple, ForgottenSince;
    var last := |run| - 1;
    var key := run[last].key;
    SweepIsLossless(l, run);
    WarnIff(l, run);
    SweepingWarnIff(l, run);
    forall i | 0 <= i < last ensures WarnedAt(l, run, key, i) == ToldAt(l, run, key, i) {
      assert run[..last][..i + 1] == run[..i + 1];
    }
    if i, j :| 0 <= i < j < last && WarnedAt(l, run, key, i) && WarnedAt(l, run, key, j)
               && run[last].now - run[i].now < 30.0 {
      OnceInThirty(l, run, key, i, j);
    }
  }

  lemma OnceInThirty(l: Limits, run: seq<Command>, key: string, i: int, j: int)
    requires Monotone(run) && 0 <= i < j < |run| && WarnedAt(l, run, key, i) && WarnedAt(l, run, key, j)
    ensures run[j].now - run[i].now >= 30.0
  {
    hide Simple;
    var upto := run[..j + 1];
    assert Monotone(upto);
    WarnIff(l, upto);
    assert upto[..i + 1] == run[..i + 1] && upto[j] == run[j] && upto[i] == run[i];
    assert WarnedAt(l, upto, key, i);
  }

  // ----- What the sweep does forget: the last warning ---------------------------------------

  /** The two limiters gave the same verdicts on every command of the run. */
  ghost predicate AgreeThroughout(l: Limits, run: seq<Command>) {
    forall n :: 0 < n <= |run| ==> Sweeping(l, run[..n]) == Simple(l, run[..n])
  }

  /** A warned bucket was short of a token at the time. */
  ghost predicate WarnedWhenShort(run: seq<Command>, key: string) {
    var b := BucketAfter(CMD, run, key);
    b.Some? && b.value.lastWarn.Some? ==>
      var w := b.value.lastWarn.value;
      w <= b.value.last && b.value.tokens < 1.0 + (b.value.last - w) / 2.0
  }

  lemma {:induction false} WarningsAreShort(run: seq<Command>, key: string)
    requires Monotone(run)
    ensures WarnedWhenShort(run, key)
  {
    if run != [] {
      WarningsAreShort(run[..|run| - 1], key);
      BucketsInRange(CMD, run[..|run| - 1], key);
    }
  }

  /** A bucket in the map remembers the host's warning, or it was re-created more than
      28 seconds after it. */
  ghost predicate Remembers(run: seq<Command>, m: map<string, Bucket>, key: string) {
    var b := BucketAfter(CMD, run, key);
    key in m && b.Some? ==>
      || m[key].lastWarn == b.value.lastWarn
      || (m[key].lastWarn.None? && b.value.lastWarn.Some? && b.value.lastWarn.value + 28.0 < b.value.last)
  }

  /** The bucket a command finds in the sweeping limiter, and in the simple one. */
  function FoundSwept(front: seq<Command>, cmd: Command): Bucket {
    Entry(CMD, Lookup(Swept(CMD, StateAfter(CMD, front), cmd.now).buckets, cmd.key), cmd.now)
  }

  function FoundSimple(front: seq<Command>, cmd: Command): Bucket {
    Entry(CMD, BucketAfter(CMD, front, cmd.key), cmd.now)
  }

  lemma MonotoneFront(front: seq<Command>, cmd: Command)
    requires Monotone(front + [cmd])
    ensures Monotone(front) && (front != [] ==> front[|front| - 1].now <= cmd.now)
  {
    var run := front + [cmd];
    forall i, j | 0 <= i <= j < |front| ensures front[i].now <= front[j].now {
      assert run[i] == front[i] && run[j] == front[j];
    }
    assert front != [] ==> run[|front| - 1] == front[|front| - 1] && run[|front|] == cmd;
  }

  lemma FoundRemembers(front: seq<Command>, cmd: Command)
    requires Monotone(front + [cmd])
    ensures Remembers(front, StateAfter(CMD, front).buckets, cmd.key) ==>
            var a, b := FoundSwept(front, cmd), FoundSimple(front, cmd);
            && Refilled(CMD, a, cmd.now) == Refilled(CMD, b, cmd.now)
            && (a.lastWarn == b.lastWarn
                || (a.lastWarn.None? && b.lastWarn.Some? && b.lastWarn.value + 28.0 < cmd.now))
  {
    var s := StateAfter(CMD, front);
    MonotoneFront(front, cmd);
    LevelsAgree(CMD, front, cmd.now);
    SweepKeepsLevels(CMD, front, s, TimeOf(front, cmd.now), cmd.now);
    SwapEntry(CMD, front, Swept(CMD, s, cmd.now).buckets, cmd.key, cmd.now);
    WarningsAreShort(front, cmd.key);
    BucketsInRange(CMD, front, cmd.key);
    assert SameLevels(CMD, front, Swept(CMD, s, cmd.now).buckets, cmd.now);
    var b := BucketAfter(CMD, front, cmd.key);
    assert cmd.key !in Swept(CMD, s, cmd.now).buckets && b.Some? ==> Refilled(CMD, b.value, cmd.now) == 15.0;
  }

  lemma MemoryStep(front: seq<Command>, cmd: Command)
    requires Monotone(front + [cmd]) && Remembers(front, StateAfter(CMD, front).buckets, cmd.key)
    requires Sweeping(CMD, front + [cmd]) == Simple(CMD, front + [cmd])
    ensures Remembers(front + [cmd], StateAfter(CMD, front + [cmd]).buckets, cmd.key)
  {
    var run := front + [cmd];
    assert run[..|run| - 1] == front;
    MonotoneFront(front, cmd);
    FoundRemembers(front, cmd);
    var a, b := FoundSwept(front, cmd), FoundSimple(front, cmd);
    assert StateAfter(CMD, run).buckets[cmd.key] == Use(CMD, a, cmd.now).0;
    assert BucketAfter(CMD, run, cmd.key) == Some(Use(CMD, b, cmd.now).0);
  }

  lemma {:induction false} MemoryHolds(run: seq<Command>, key: string)
    requires Monotone(run) && AgreeThroughout(CMD, run)
    ensures Remembers(run, StateAfter(CMD, run).buckets, key)
  {
    if run != [] {
      var front, cmd := run[..|run| - 1], run[|run| - 1];
      assert run == front + [cmd];
      AgreeFront(run);
      MemoryHolds(front, key);
      if key == cmd.key {
        assert run[..|run|] == run;
        MemoryStep(front, cmd);
      } else {
        OtherKeyRemembers(front, cmd, key);
      }
    }
  }

  lemma OtherKeyRemembers(front: seq<Command>, cmd: Command, key: string)
    requires Remembers(front, StateAfter(CMD, front).buckets, key) && key != cmd.key
    ensures Remembers(front + [cmd], StateAfter(CMD, front + [cmd]).buckets, key)
  {
    assert (front + [cmd])[..|front + [cmd]| - 1] == front;
  }

  lemma AgreeFront(run: seq<Command>)
    requires run != [] && AgreeThroughout(CMD, run)
    ensures AgreeThroughout(CMD, run[..|run| - 1])
  {
    var front := run[..|run| - 1];
    forall n | 0 < n <= |front| ensures Sweeping(CMD, front[..n]) == Simple(CMD, front[..n]) {
      assert front[..n] == run[..n];
    }
  }

  /** The first command on which the two limiters differ at all is refused by both; the
      sweeping one warns where the other stays silent; and it comes more than 28 and
      less than 30 seconds after the host's last warning. */
  lemma FirstDifference(run: seq<Command>) returns (i: nat)
    requires Monotone(run) && run != [] && AgreeThroughout(CMD, run[..|run| - 1])
    requires Sweeping(CMD, run) != Simple(CMD, run)
    ensures Sweeping(CMD, run) == Warn && Simple(CMD, run) == Drop
    ensures var last := |run| - 1;
            && WarnedAt(CMD, run, run[last].key, i) && i < last && 28.0 < run[last].now - run[i].now < 30.0
            && forall j :: i < j < last ==> !WarnedAt(CMD, run, run[last].key, j)
  {
    var front, cmd := run[..|run| - 1], run[|run| - 1];
    assert run == front + [cmd];
    MonotoneFront(front, cmd);
    MemoryHolds(front, cmd.key);
    FoundRemembers(front, cmd);
    LastWarnIs(CMD, front, cmd.key);
    i := LastWarningIs(CMD, front, cmd.key);
    forall j | 0 <= j < |front| ensures WarnedAt(CMD, run, cmd.key, j) == WarnedAt(CMD, front, cmd.key, j) {
      assert run[..j + 1] == front[..j + 1];
    }
  }

  // A run that shows the difference: a host is warned at 31.9 s with 0.95 tokens left, its
  // bucket is full and swept at 60.05 s, and a second burst at 61 s is warned again.

  function Repeat(key: string, now: real, n: nat): seq<Command> {
    seq(n, _ => Command(key, now))
  }

  /** Both limiters hold `key` at the same level, and no sweep is due before `until`. */
  ghost predicate Holding(run: seq<Command>, key: string, swept: Bucket, simple: Bucket, sweptAt: real) {
    && Lookup(StateAfter(CMD, run).buckets, key) == Some(swept)
    && BucketAfter(CMD, run, key) == Some(simple)
    && StateAfter(CMD, run).lastSweep == Some(sweptAt)
  }

  lemma OneMore(run: seq<Command>, cmd: Command)
    ensures StateAfter(CMD, run + [cmd]) == Check(CMD, StateAfter(CMD, run), cmd).0
    ensures Sweeping(CMD, run + [cmd]) == Check(CMD, StateAfter(CMD, run), cmd).1
    ensures BucketAfter(CMD, run + [cmd], cmd.key) == Some(Use(CMD, FoundSimple(run, cmd), cmd.now).0)
    ensures Simple(CMD, run + [cmd]) == Use(CMD, FoundSimple(run, cmd), cmd.now).1
    ensures forall k :: k != cmd.key ==> BucketAfter(CMD, run + [cmd], k) == BucketAfter(CMD, run, k)
  {
    assert (run + [cmd])[..|run + [cmd]| - 1] == run;
  }

  lemma HoldMore(run: seq<Command>, key: string, now: real, a: Bucket, b: Bucket, sweptAt: real)
    requires Holding(run, key, a, b, sweptAt) && sweptAt <= now < sweptAt + 60.0
    ensures Holding(run + [Command(key, now)], key, Use(CMD, a, now).0, Use(CMD, b, now).0, sweptAt)
    ensures Sweeping(CMD, run + [Command(key, now)]) == Use(CMD, a, now).1
    ensures Simple(CMD, run + [Command(key, now)]) == Use(CMD, b, now).1
  {
    OneMore(run, Command(key, now));
  }

  lemma TakeOne(b: Bucket, now: real, n: nat)
    requires b.last == now && n as real + 1.0 <= b.tokens <= 15.0
    ensures Use(CMD, b.(tokens := b.tokens - n as real), now).0 == b.(tokens := b.tokens - (n + 1) as real)
  {
  }

  lemma {:induction false} Drain(run: seq<Command>, key: string, now: real, n: nat, a: Bucket, b: Bucket, sweptAt: real)
    requires Holding(run, key, a, b, sweptAt) && sweptAt <= now < sweptAt + 60.0
    requires a.last == now && b.last == now && a.tokens == b.tokens && n as real <= a.tokens <= 15.0
    ensures Holding(run + Repeat(key, now, n), key,
                    a.(tokens := a.tokens - n as real), b.(tokens := b.tokens - n as real), sweptAt)
  {
    hide Holding, Use;
    if n == 0 {
      assert run + Repeat(key, now, 0) == run;
    } else {
      TakeOne(a, now, n - 1);
      TakeOne(b, now, n - 1);
      Drain(run, key, now, n - 1, a, b, sweptAt);
      var r := run + Repeat(key, now, n - 1);
      assert run + Repeat(key, now, n) == r + [Command(key, now)];
      HoldMore(r, key, now, a.(tokens := a.tokens - (n - 1) as real), b.(tokens := b.tokens - (n - 1) as real), sweptAt);
    }
  }

  lemma FirstBurst() returns (run: seq<Command>)
    ensures run == [Command("other", 0.0)] + [Command("host", 30.0)] + Repeat("host", 30.0, 14) + [Command("host", 31.9)]
    ensures Holding(run, "host", Bucket(0.95, 31.9, Some(31.9)), Bucket(0.95, 31.9, Some(31.9)), 0.0)
  {
    var r0 := [Command("other", 0.0)];
    assert [] + r0 == r0;
    OneMore([], Command("other", 0.0));
    var r1 := r0 + [Command("host", 30.0)];
    OneMore(r0, Command("host", 30.0));
    Drain(r1, "host", 30.0, 14, Bucket(14.0, 30.0, None), Bucket(14.0, 30.0, None), 0.0);
    var r2 := r1 + Repeat("host", 30.0, 14);
    HoldMore(r2, "host", 31.9, Bucket(0.0, 30.0, None), Bucket(0.0, 30.0, None), 0.0);
    run := r2 + [Command("host", 31.9)];
  }

  lemma SweptAway(r: seq<Command>) returns (run: seq<Command>)
    requires Holding(r, "host", Bucket(0.95, 31.9, Some(31.9)), Bucket(0.95, 31.9, Some(31.9)), 0.0)
    ensures run == r + [Command("other", 60.05)] + [Command("host", 61.0)]
    ensures Holding(run, "host", Bucket(14.0, 61.0, None), Bucket(14.0, 61.0, Some(31.9)), 60.05)
  {
    var r4 := r + [Command("other", 60.05)];
    OneMore(r, Command("other", 60.05));
    assert "host" !in StateAfter(CMD, r4).buckets;
    OneMore(r4, Command("host", 61.0));
    run := r4 + [Command("host", 61.0)];
  }

  lemma WarningForgotten() returns (run: seq<Command>)
    ensures Monotone(run) && run != [] && Sweeping(CMD, run) == Warn && Simple(CMD, run) == Drop
  {
    var r3 := FirstBurst();
    var r5 := SweptAway(r3);
    Drain(r5, "host", 61.0, 14, Bucket(14.0, 61.0, None), Bucket(14.0, 61.0, Some(31.9)), 60.05);
    var r6 := r5 + Repeat("host", 61.0, 14);
    HoldMore(r6, "host", 61.0, Bucket(0.0, 61.0, None), Bucket(0.0, 61.0, Some(31.9)), 60.05);
    run := r6 + [Command("host", 61.0)];
  }

  // ----- The limiters as objects -----------------------------------------------------------

  class CmdLimiter {
    var buckets: map<string, Bucket>
    var lastSweep: Option<real>
    ghost var run: seq<Command>      // every command checked so far

    ghost predicate Valid()
      reads this
    {
      State(buckets, lastSweep) == StateAfter(CMD, run)
    }

    constructor ()
      ensures Valid() && run == []
    {
      buckets, lastSweep, run := map[], None, [];
    }

    /** Drop buckets that have refilled, at most once a minute. */
    method Sweep(now: real)
      modifies this`buckets, this`lastSweep
      ensures State(buckets, lastSweep) == Swept(CMD, old(State(buckets, lastSweep)), now)
    {
      if lastSweep.Some? && Elapsed(now, lastSweep.value) < CMD_SWEEP_EVERY {
        return;
      }
      lastSweep := Some(now);
      buckets := map k | k in buckets && NotFull(CMD, buckets[k], now) :: buckets[k];
    }

    method CheckAt(key: string, now: real) returns (v: Verdict)
      requires Valid()
      modifies this
      ensures Valid() && run == old(run) + [Command(key, now)]
      ensures v == Sweeping(CMD, run)
    {
      hide StateAfter, Sweeping, Swept;
      ghost var s := StateAfter(CMD, run);
      Sweep(now);
      var b := if key in buckets then buckets[key] else Full(CMD, now);
      var tokens := Min(b.tokens + CMD.Gain(Elapsed(now, b.last)), CMD.burst);
      if tokens >= 1.0 {
        b := Bucket(tokens - 1.0, now, b.lastWarn);
        v := Allow;
      } else if b.lastWarn.None? || Elapsed(now, b.lastWarn.value) >= CMD_WARN_EVERY {
        b := Bucket(tokens, now, Some(now));
        v := Warn;
      } else {
        b := Bucket(tokens, now, b.lastWarn);
        v := Drop;
      }
      buckets := buckets[key := b];
      assert (State(buckets, lastSweep), v) == Check(CMD, s, Command(key, now));
      OneMore(run, Command(key, now));
      run := run + [Command(key, now)];
    }
  }

  /** The registration and dictionary limiters: one bucket, never swept. */
  lemma OneMoreUnkeyed(run: seq<Command>, now: real, last: real)
    requires Monotone(run) && Unkeyed(run) && last <= now && forall i :: 0 <= i < |run| ==> run[i].now <= last
    ensures var run' := run + [Command("", now)];
            Monotone(run') && Unkeyed(run') && forall i :: 0 <= i < |run'| ==> run'[i].now <= now
  {
  }

  class GlobalLimiter {
    const limits: Limits
    var tokens: real
    var last: real
    ghost var run: seq<Command>

    ghost predicate Valid()
      reads this
    {
      && Sane(limits) && Monotone(run) && Unkeyed(run)
      && (forall i :: 0 <= i < |run| ==> run[i].now <= last)
      && match BucketAfter(limits, run, "")
         case None => tokens == limits.burst
         case Some(b) => b.tokens == tokens && b.last == last
    }

    constructor (limits: Limits, now: real)
      requires Sane(limits)
      ensures Valid() && run == [] && this.limits == limits && last == now
    {
      this.limits, tokens, last, run := limits, limits.burst, now, [];
    }

    method TryTake(now: real) returns (ok: bool)
      requires Valid() && last <= now
      modifies this
      ensures Valid() && run == old(run) + [Command("", now)] && last == now
      ensures ok <==> Simple(limits, run) == Allow
    {
      tokens := Min(tokens + limits.Gain(Elapsed(now, last)), limits.burst);
      last := now;
      run := run + [Command("", now)];
      OneMoreUnkeyed(old(run), now, old(last));
      assert run[..|run| - 1] == old(run);
      hide Monotone, Unkeyed;
      if tokens >= 1.0 {
        tokens := tokens - 1.0;
        ok := true;
      } else {
        ok := false;
      }
    }

    /** In any stretch of this limiter's life at most the burst and the refill are granted. */
    lemma LifeIsBounded(i: nat, w: real)
      requires Valid() && i < |run| && run[|run| - 1].now - run[i].now <= w
      ensures Granted(limits, run, i) as real <= limits.burst + limits.Gain(w)
    {
      GlobalRate(limits, run, i, w);
    }
  }
}
