/** The token-bucket script, over exact reals, against a limiter that looks at the whole call history. */
module TokenBucket {
  import opened Commons

  const KEY_TTL_SECONDS: real := 120.0

  /** The hash the script keeps per key. */
  datatype Stored = Stored(tokens: real, ts: real)

  datatype Taken = Taken(stored: Stored, allowed: bool)

  function Max(a: real, b: real): real {
    if a < b then b else a
  }

  function Min(a: real, b: real): real {
    if b < a then b else a
  }

  /** The tokens on hand at a call, after refilling and before taking. A missing key is a full bucket. */
  function Level(stored: Option<Stored>, capacity: real, rate: real, now: real): real {
    match stored
    case None => capacity
    case Some(s) => Min(capacity, s.tokens + rate * Max(0.0, now - s.ts))
  }

  /** One run of the script. */
  function Take(stored: Option<Stored>, capacity: real, rate: real, now: real): Taken {
    var level := Level(stored, capacity, rate, now);
    if level >= 1.0 then Taken(Stored(level - 1.0, now), true) else Taken(Stored(level, now), false)
  }

  /** The key as the script finds it at `now`: every call re-arms its 120 s expiry. */
  function Unexpired(stored: Option<Stored>, now: real): Option<Stored> {
    if stored.Some? && now >= stored.value.ts + KEY_TTL_SECONDS then None else stored
  }

  /** The bucket after calls at the given times. */
  function After(capacity: real, rate: real, times: seq<real>): Option<Stored>
    decreases |times|
  {
    if times == [] then None else
      Some(Take(After(capacity, rate, times[..|times| - 1]), capacity, rate, times[|times| - 1]).stored)
  }

  /** The answers of the bucket to calls at the given times. */
  function Answers(capacity: real, rate: real, times: seq<real>): (r: seq<bool>)
    ensures |r| == |times|
    decreases |times|
  {
    if times == [] then [] else
      var before := times[..|times| - 1];
      Answers(capacity, rate, before)
      + [Take(After(capacity, rate, before), capacity, rate, times[|times| - 1]).allowed]
  }

  function AllowedCount(answers: seq<bool>): real
    decreases |answers|
  {
    if answers == [] then 0.0
    else AllowedCount(answers[..|answers| - 1]) + if answers[|answers| - 1] then 1.0 else 0.0
  }

  /** Allowing a call at the last of `times` keeps every window that starts at an earlier call, or at this
      one, within capacity plus what accrued since its start. */
  ghost predicate EveryWindowFits(capacity: real, rate: real, times: seq<real>, answers: seq<bool>)
    requires |times| == |answers| + 1
  {
    forall i | 0 <= i <= |answers| :: WindowFits(capacity, rate, times, answers, i)
  }

  /** What the bucket gains between two times. */
  function Accrued(rate: real, from: real, to: real): real {
    rate * (to - from)
  }

  predicate WindowFits(capacity: real, rate: real, times: seq<real>, answers: seq<bool>, i: nat)
    requires |times| == |answers| + 1 && i <= |answers|
  {
    AllowedCount(answers[i..]) + 1.0 <= capacity + Accrued(rate, times[i], times[|answers|])
  }

  /** The history limiter: remember every call, and check every window. */
  ghost function HistoryAnswers(capacity: real, rate: real, times: seq<real>): (r: seq<bool>)
    ensures |r| == |times|
    decreases |times|
  {
    if times == [] then [] else
      var answers := HistoryAnswers(capacity, rate, times[..|times| - 1]);
      answers + [EveryWindowFits(capacity, rate, times, answers)]
  }

  predicate NonDecreasing(times: seq<real>) {
    forall i, j | 0 <= i <= j < |times| :: times[i] <= times[j]
  }

  /** What one window leaves for the call at `now`. */
  function Room(capacity: real, rate: real, times: seq<real>, answers: seq<bool>, i: nat, now: real): real
    requires i <= |answers| && |times| == |answers|
  {
    var start := if i < |times| then times[i] else now;
    capacity + Accrued(rate, start, now) - AllowedCount(answers[i..])
  }

  lemma CountAppend(answers: seq<bool>, i: nat, a: bool)
    requires i <= |answers|
    ensures AllowedCount((answers + [a])[i..]) == AllowedCount(answers[i..]) + if a then 1.0 else 0.0
  {
    assert (answers + [a])[i..] == answers[i..] + [a];
    assert (answers[i..] + [a])[..|answers[i..]|] == answers[i..];
  }

  lemma AccrualAdds(rate: real, a: real, b: real, c: real)
    ensures Accrued(rate, a, c) == Accrued(rate, a, b) + Accrued(rate, b, c)
  {
  }

  /** How every room moves from one call to the next. */
  lemma RoomShift(capacity: real, rate: real, times: seq<real>, before: seq<bool>, a: bool, now: real, i: nat)
    requires |times| == |before| + 1 && i <= |before|
    ensures var n := |before|;
      Room(capacity, rate, times, before + [a], i, now) ==
        Room(capacity, rate, times[..n], before, i, times[n]) - (if a then 1.0 else 0.0) + Accrued(rate, times[n], now)
  {
    CountAppend(before, i, a);
    AccrualAdds(rate, times[i], times[|before|], now);
  }

  /** `level` is the tightest room. */
  ghost predicate Tightest(level: real, capacity: real, rate: real, times: seq<real>, answers: seq<bool>, now: real)
    requires |times| == |answers|
  {
    && (forall i | 0 <= i <= |answers| :: level <= Room(capacity, rate, times, answers, i, now))
    && (exists i :: 0 <= i <= |answers| && level == Room(capacity, rate, times, answers, i, now))
  }

  lemma NewestRoom(capacity: real, rate: real, times: seq<real>, answers: seq<bool>, now: real)
    requires |times| == |answers|
    ensures Room(capacity, rate, times, answers, |answers|, now) == capacity
  {
    assert answers[|answers|..] == [];
    assert Accrued(rate, now, now) == 0.0;
  }

  /** Taking a token, then refilling: the tightest room follows. */
  lemma RoomsShift(
      capacity: real, rate: real, times: seq<real>, before: seq<bool>, a: bool, now: real, level: real, next: real)
    requires |times| == |before| + 1
    requires Tightest(level, capacity, rate, times[..|before|], before, times[|before|])
    requires next == Min(capacity, level - (if a then 1.0 else 0.0) + Accrued(rate, times[|before|], now))
    ensures Tightest(next, capacity, rate, times, before + [a], now)
  {
    var n := |before|;
    var answers := before + [a];
    NewestRoom(capacity, rate, times, answers, now);
    forall i | 0 <= i <= |answers| ensures next <= Room(capacity, rate, times, answers, i, now) {
      if i <= n {
        RoomShift(capacity, rate, times, before, a, now, i);
      }
    }
    if next != capacity {
      var i :| 0 <= i <= n && level == Room(capacity, rate, times[..n], before, i, times[n]);
      RoomShift(capacity, rate, times, before, a, now, i);
      assert next == Room(capacity, rate, times, answers, i, now);
    } else {
      assert next == Room(capacity, rate, times, answers, n + 1, now);
    }
  }

  lemma LevelLater(s: Stored, capacity: real, rate: real, now: real)
    requires s.ts <= now
    ensures Level(Some(s), capacity, rate, now) == Min(capacity, s.tokens + Accrued(rate, s.ts, now))
  {
    assert Max(0.0, now - s.ts) == now - s.ts;
  }

  /** One call: the next level in terms of the last one. */
  lemma LevelStep(stored: Option<Stored>, capacity: real, rate: real, last: real, now: real)
    requires last <= now
    ensures var level := Level(stored, capacity, rate, last);
      var taken := Take(stored, capacity, rate, last);
      && taken.allowed == (level >= 1.0)
      && Level(Some(taken.stored), capacity, rate, now) ==
           Min(capacity, level - (if level >= 1.0 then 1.0 else 0.0) + Accrued(rate, last, now))
  {
    LevelLater(Take(stored, capacity, rate, last).stored, capacity, rate, now);
  }

  /** The level at a call is the room of the tightest window. */
  lemma {:induction false} LevelIsTightestRoom(capacity: real, rate: real, times: seq<real>, now: real)
    requires NonDecreasing(times + [now])
    ensures Tightest(Level(After(capacity, rate, times), capacity, rate, now),
                     capacity, rate, times, Answers(capacity, rate, times), now)
    decreases |times|
  {
    if times == [] {
      NewestRoom(capacity, rate, times, [], now);
      assert Level(None, capacity, rate, now) == Room(capacity, rate, times, [], 0, now);
    } else {
      var n := |times| - 1;
      LastInOrder(times, now);
      LevelIsTightestRoom(capacity, rate, times[..n], times[n]);
      TightestStep(After(capacity, rate, times[..n]), Answers(capacity, rate, times[..n]), capacity, rate, times, now);
    }
  }

  lemma TightestStep(stored: Option<Stored>, before: seq<bool>, capacity: real, rate: real, times: seq<real>, now: real)
    requires |times| == |before| + 1 && times[|before|] <= now
    requires Tightest(Level(stored, capacity, rate, times[|before|]), capacity, rate, times[..|before|], before,
      times[|before|])
    ensures var taken := Take(stored, capacity, rate, times[|before|]);
      Tightest(Level(Some(taken.stored), capacity, rate, now), capacity, rate, times, before + [taken.allowed], now)
  {
    var last := times[|before|];
    var level := Level(stored, capacity, rate, last);
    var taken := Take(stored, capacity, rate, last);
    var next := Level(Some(taken.stored), capacity, rate, now);
    assert taken.allowed == (level >= 1.0) &&
      next == Min(capacity, level - (if level >= 1.0 then 1.0 else 0.0) + Accrued(rate, last, now)) by {
      LevelStep(stored, capacity, rate, last, now);
    }
    RoomsShift(capacity, rate, times, before, taken.allowed, now, level, next);
  }

  lemma LastInOrder(times: seq<real>, now: real)
    requires times != [] && NonDecreasing(times + [now])
    ensures times[|times| - 1] <= now && NonDecreasing(times[..|times| - 1] + [times[|times| - 1]])
  {
    var all := times + [now];
    assert times[..|times| - 1] + [times[|times| - 1]] == times;
    assert forall i | 0 <= i < |times| :: all[i] == times[i];
    assert all[|times| - 1] <= all[|times|];
  }

  lemma RoomDecides(capacity: real, rate: real, times: seq<real>, answers: seq<bool>, now: real, i: nat)
    requires |times| == |answers| && i <= |answers|
    ensures WindowFits(capacity, rate, times + [now], answers, i) <==>
      Room(capacity, rate, times, answers, i, now) >= 1.0
  {
    var start := if i < |times| then times[i] else now;
    assert (times + [now])[i] == start && (times + [now])[|answers|] == now;
  }

  /** A tightest room of at least one token means that every window has one to spare. */
  lemma TightestDecides(level: real, capacity: real, rate: real, times: seq<real>, answers: seq<bool>, now: real)
    requires |times| == |answers| && Tightest(level, capacity, rate, times, answers, now)
    ensures level >= 1.0 <==> EveryWindowFits(capacity, rate, times + [now], answers)
  {
    forall i | 0 <= i <= |answers|
      ensures WindowFits(capacity, rate, times + [now], answers, i) <==>
        Room(capacity, rate, times, answers, i, now) >= 1.0
    {
      RoomDecides(capacity, rate, times, answers, now, i);
    }
  }

  /** The bucket allows a call exactly when every window keeps within its allowance. */
  lemma AllowsIffEveryWindowFits(capacity: real, rate: real, times: seq<real>)
    requires times != [] && NonDecreasing(times)
    ensures Answers(capacity, rate, times)[|times| - 1] <==>
      EveryWindowFits(capacity, rate, times, Answers(capacity, rate, times[..|times| - 1]))
  {
    var n := |times| - 1;
    var level := Level(After(capacity, rate, times[..n]), capacity, rate, times[n]);
    assert times[..n] + [times[n]] == times;
    LevelIsTightestRoom(capacity, rate, times[..n], times[n]);
    TightestDecides(level, capacity, rate, times[..n], Answers(capacity, rate, times[..n]), times[n]);
  }

  /** The constant-space bucket gives the same answers as the limiter that remembers everything. */
  lemma {:induction false} BucketIsHistoryLimiter(capacity: real, rate: real, times: seq<real>)
    requires NonDecreasing(times)
    ensures Answers(capacity, rate, times) == HistoryAnswers(capacity, rate, times)
    decreases |times|
  {
    if times != [] {
      var n := |times| - 1;
      assert forall i, j | 0 <= i <= j < n :: times[..n][i] == times[i] && times[..n][j] == times[j];
      BucketIsHistoryLimiter(capacity, rate, times[..n]);
      AllowsIffEveryWindowFits(capacity, rate, times);
    }
  }

  /** The bucket as it really is, with the key's expiry. */
  function AfterTtl(capacity: real, rate: real, times: seq<real>): Option<Stored>
    decreases |times|
  {
    if times == [] then None else
      var now := times[|times| - 1];
      Some(Take(Unexpired(AfterTtl(capacity, rate, times[..|times| - 1]), now), capacity, rate, now).stored)
  }

  function AnswersTtl(capacity: real, rate: real, times: seq<real>): (r: seq<bool>)
    ensures |r| == |times|
    decreases |times|
  {
    if times == [] then [] else
      var before := times[..|times| - 1];
      var now := times[|times| - 1];
      AnswersTtl(capacity, rate, before)
        + [Take(Unexpired(AfterTtl(capacity, rate, before), now), capacity, rate, now).allowed]
  }

  lemma RefillsInTtl(tokens: real, capacity: real, rate: real, elapsed: real)
    requires 0.0 <= tokens && rate >= 0.0 && capacity <= rate * KEY_TTL_SECONDS && elapsed >= KEY_TTL_SECONDS
    ensures capacity <= tokens + rate * elapsed
  {
    assert rate * elapsed == rate * KEY_TTL_SECONDS + rate * (elapsed - KEY_TTL_SECONDS);
    assert rate * (elapsed - KEY_TTL_SECONDS) >= 0.0;
  }

  /** An expired key would have refilled by itself. */
  lemma ExpiryIsRefill(s: Stored, capacity: real, rate: real, now: real)
    requires 0.0 <= s.tokens && s.ts <= now && rate >= 0.0 && capacity <= rate * KEY_TTL_SECONDS
    ensures Level(Unexpired(Some(s), now), capacity, rate, now) == Level(Some(s), capacity, rate, now)
  {
    if now >= s.ts + KEY_TTL_SECONDS {
      LevelLater(s, capacity, rate, now);
      RefillsInTtl(s.tokens, capacity, rate, now - s.ts);
    }
  }

  lemma LevelNonNegative(stored: Option<Stored>, capacity: real, rate: real, now: real)
    requires capacity >= 0.0 && rate >= 0.0 && (stored.Some? ==> stored.value.tokens >= 0.0)
    ensures Level(stored, capacity, rate, now) >= 0.0
  {
    if stored.Some? {
      assert rate * Max(0.0, now - stored.value.ts) >= 0.0;
    }
  }

  lemma NonDecreasingPrefix(times: seq<real>)
    requires NonDecreasing(times) && times != []
    ensures NonDecreasing(times[..|times| - 1])
    ensures |times| >= 2 ==> times[|times| - 2] <= times[|times| - 1]
  {
    assert forall i | 0 <= i < |times| - 1 :: times[..|times| - 1][i] == times[i];
  }

  /** One call, from the same bucket, with and without the expiry. */
  lemma SameTake(stored: Option<Stored>, capacity: real, rate: real, now: real)
    requires rate >= 0.0 && 0.0 <= capacity <= rate * KEY_TTL_SECONDS
    requires stored.Some? ==> stored.value.tokens >= 0.0 && stored.value.ts <= now
    ensures var taken := Take(stored, capacity, rate, now);
      && Take(Unexpired(stored, now), capacity, rate, now) == taken
      && taken.stored.tokens >= 0.0 && taken.stored.ts == now
  {
    if stored.Some? {
      ExpiryIsRefill(stored.value, capacity, rate, now);
    }
    LevelNonNegative(stored, capacity, rate, now);
  }

  lemma {:induction false} ExpiryChangesNothing(capacity: real, rate: real, times: seq<real>)
    requires rate >= 0.0 && 0.0 <= capacity <= rate * KEY_TTL_SECONDS && NonDecreasing(times)
    ensures AnswersTtl(capacity, rate, times) == Answers(capacity, rate, times)
    ensures AfterTtl(capacity, rate, times) == After(capacity, rate, times)
    ensures times != [] ==>
      var s := After(capacity, rate, times); s.Some? && s.value.tokens >= 0.0 && s.value.ts == times[|times| - 1]
    decreases |times|
  {
    if times != [] {
      var n := |times| - 1;
      NonDecreasingPrefix(times);
      ExpiryChangesNothing(capacity, rate, times[..n]);
      SameTake(After(capacity, rate, times[..n]), capacity, rate, times[n]);
    }
  }

  /** `count` calls at one instant. */
  function Burst(at: real, count: nat): seq<real> {
    seq(count, _ => at)
  }

  lemma BurstLast(times: seq<real>, at: real, count: nat)
    requires count > 0
    ensures (times + Burst(at, count))[..|times| + count - 1] == times + Burst(at, count - 1)
    ensures (times + Burst(at, count))[|times| + count - 1] == at
  {
  }

  /** A burst takes whole tokens one by one while they last, whether or not expiry is modelled. */
  lemma {:induction false} BurstTakes(capacity: real, rate: real, times: seq<real>, at: real, count: nat, level: real)
    requires level <= capacity && (count as real) <= level
    requires Level(After(capacity, rate, times), capacity, rate, at) == level
    ensures Level(After(capacity, rate, times + Burst(at, count)), capacity, rate, at) == level - (count as real)
    decreases count
  {
    if count == 0 {
      assert times + Burst(at, 0) == times;
    } else {
      BurstTakes(capacity, rate, times, at, count - 1, level);
      BurstLast(times, at, count);
      OneMore(After(capacity, rate, times + Burst(at, count - 1)), capacity, rate, at);
    }
  }

  lemma {:induction false} BurstTakesTtl(
      capacity: real, rate: real, times: seq<real>, at: real, count: nat, level: real)
    requires level <= capacity && (count as real) <= level
    requires Level(Unexpired(AfterTtl(capacity, rate, times), at), capacity, rate, at) == level
    ensures Level(Unexpired(AfterTtl(capacity, rate, times + Burst(at, count)), at), capacity, rate, at) ==
      level - (count as real)
    decreases count
  {
    if count == 0 {
      assert times + Burst(at, 0) == times;
    } else {
      BurstTakesTtl(capacity, rate, times, at, count - 1, level);
      BurstLast(times, at, count);
      OneMore(Unexpired(AfterTtl(capacity, rate, times + Burst(at, count - 1)), at), capacity, rate, at);
    }
  }

  /** A second call at the same instant finds one token less. */
  lemma OneMore(stored: Option<Stored>, capacity: real, rate: real, at: real)
    requires Level(stored, capacity, rate, at) >= 1.0
    ensures var next := Some(Take(stored, capacity, rate, at).stored);
      && Unexpired(next, at) == next
      && Level(next, capacity, rate, at) == Level(stored, capacity, rate, at) - 1.0
  {
    LevelLater(Take(stored, capacity, rate, at).stored, capacity, rate, at);
    assert Accrued(rate, at, at) == 0.0;
  }

  /** A whole bucket drained at time 0, then, as the key expires, one call more than the bucket regained. */
  function ExpiryWitness(capacity: nat, rate: real): seq<real>
    requires rate >= 0.0
  {
    Burst(0.0, capacity) + Burst(KEY_TTL_SECONDS, (rate * KEY_TTL_SECONDS).Floor + 1)
  }

  lemma WitnessInOrder(capacity: nat, rate: real)
    requires rate >= 0.0
    ensures NonDecreasing(ExpiryWitness(capacity, rate))
  {
  }

  /** Without expiry the last call finds less than a token. */
  lemma WitnessRefused(capacity: nat, rate: real)
    requires rate >= 0.0 && rate * KEY_TTL_SECONDS < (capacity as real)
    ensures var times := ExpiryWitness(capacity, rate);
      !Answers(capacity as real, rate, times)[|times| - 1]
  {
    var c := capacity as real;
    var regained := rate * KEY_TTL_SECONDS;
    var m := regained.Floor;
    DrainedStored(capacity, rate);
    LevelLater(Stored(0.0, 0.0), c, rate, KEY_TTL_SECONDS);
    BurstTakes(c, rate, Burst(0.0, capacity), KEY_TTL_SECONDS, m, regained);
    BurstLast(Burst(0.0, capacity), KEY_TTL_SECONDS, m + 1);
  }

  /** With expiry the last call finds a bucket that was full again. */
  lemma WitnessAllowed(capacity: nat, rate: real)
    requires rate >= 0.0 && rate * KEY_TTL_SECONDS < (capacity as real)
    ensures var times := ExpiryWitness(capacity, rate);
      AnswersTtl(capacity as real, rate, times)[|times| - 1]
  {
    var c := capacity as real;
    var m := (rate * KEY_TTL_SECONDS).Floor;
    assert 0 <= m < capacity;
    assert c == Level(Unexpired(AfterTtl(c, rate, Burst(0.0, capacity)), KEY_TTL_SECONDS), c, rate, KEY_TTL_SECONDS)
    by {
      DrainedStored(capacity, rate);
    }
    BurstTakesTtl(c, rate, Burst(0.0, capacity), KEY_TTL_SECONDS, m, c);
    BurstLast(Burst(0.0, capacity), KEY_TTL_SECONDS, m + 1);
  }

  lemma DrainedStored(capacity: nat, rate: real)
    requires rate >= 0.0 && 1 <= capacity
    ensures var c := capacity as real;
      && After(c, rate, Burst(0.0, capacity)) == Some(Stored(0.0, 0.0))
      && AfterTtl(c, rate, Burst(0.0, capacity)) == Some(Stored(0.0, 0.0))
  {
    var c := capacity as real;
    BurstTakes(c, rate, [], 0.0, capacity - 1, c);
    BurstTakesTtl(c, rate, [], 0.0, capacity - 1, c);
    BurstLast([], 0.0, capacity);
    assert [] + Burst(0.0, capacity) == Burst(0.0, capacity) &&
      [] + Burst(0.0, capacity - 1) == Burst(0.0, capacity - 1);
  }

  /** The 120 s key expiry never changes an answer exactly when a bucket refills within 120 s. */
  lemma ExpiryNeverMattersIff(capacity: nat, rate: real)
    requires rate >= 0.0
    ensures (forall times: seq<real> | NonDecreasing(times) ::
        AnswersTtl(capacity as real, rate, times) == Answers(capacity as real, rate, times))
      <==> (capacity as real) <= rate * KEY_TTL_SECONDS
  {
    var c := capacity as real;
    if c <= rate * KEY_TTL_SECONDS {
      forall times: seq<real> | NonDecreasing(times) ensures AnswersTtl(c, rate, times) == Answers(c, rate, times) {
        ExpiryChangesNothing(c, rate, times);
      }
    } else {
      WitnessInOrder(capacity, rate);
      WitnessRefused(capacity, rate);
      WitnessAllowed(capacity, rate);
    }
  }

  /** Every caller passes capacity == per_minute: the real limiter, expiry included, is the history limiter. */
  lemma LimiterIsHistoryLimiter(perMinute: nat, times: seq<real>)
    requires NonDecreasing(times)
    ensures var capacity := perMinute as real;
      AnswersTtl(capacity, capacity / 60.0, times) == HistoryAnswers(capacity, capacity / 60.0, times)
  {
    var capacity := perMinute as real;
    assert capacity / 60.0 * KEY_TTL_SECONDS == 2.0 * capacity;
    ExpiryChangesNothing(capacity, capacity / 60.0, times);
    BucketIsHistoryLimiter(capacity, capacity / 60.0, times);
  }

  /** The Redis keys of the limiter. */
  class RateLimiter {
    var buckets: map<string, Stored>

    constructor ()
      ensures buckets == map[]
    {
      buckets := map[];
    }

    function Find(key: string): Option<Stored>
      reads this
    {
      if key in buckets then Some(buckets[key]) else None
    }

    /** `check_rate_limit`: refill, take a token if there is one, write the bucket back. */
    method Check(key: string, capacity: nat, perMinute: nat, now: real) returns (allowed: bool)
      modifies this
      ensures var taken := Take(Unexpired(old(Find(key)), now), capacity as real, perMinute as real / 60.0, now);
        allowed == taken.allowed && buckets == old(buckets)[key := taken.stored]
    {
      var refillRate := perMinute as real / 60.0;
      var tokens := capacity as real;
      var ts := now;
      if key in buckets && now < buckets[key].ts + KEY_TTL_SECONDS {
        tokens := buckets[key].tokens;
        ts := buckets[key].ts;
      }
      var elapsed := if now - ts < 0.0 then 0.0 else now - ts;
      var refilled := tokens + refillRate * elapsed;
      tokens := if refilled < capacity as real then refilled else capacity as real;
      allowed := false;
      if tokens >= 1.0 {
        tokens := tokens - 1.0;
        allowed := true;
      }
      buckets := buckets[key := Stored(tokens, now)];
    }
  }
}
