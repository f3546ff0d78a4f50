/** A token bucket per client address that forgets full buckets
    (go/tunnel/auth/ratelimit.go). Times are seconds; the clock is a parameter. */
module RateLimit {

  datatype Bucket = Bucket(tokens: real, last: real)

  /** rate tokens a second, up to burst. */
  datatype Limits = Limits(rate: real, burst: real)

  datatype State = State(buckets: map<string, Bucket>, lastSweep: real)

  /** Allow takes a token; Exhausted only looks. */
  datatype Call = Allow(ip: string, now: real) | Exhausted(ip: string, now: real)

  const SWEEP_EVERY := 60.0

  function Min(x: real, y: real): real { if x <= y then x else y }

  /** The tokens d seconds add. */
  function Added(l: Limits, d: real): real { d * l.rate }

  function Filled(l: Limits, b: Bucket, now: real): real { b.tokens + Added(l, now - b.last) }

  /** The tokens ip has at now: an address without a bucket has a full one. */
  function Tokens(l: Limits, m: map<string, Bucket>, ip: string, now: real): real {
    if ip in m then Min(Filled(l, m[ip], now), l.burst) else l.burst
  }

  function Swept(l: Limits, m: map<string, Bucket>, now: real): map<string, Bucket> {
    map ip | ip in m && Filled(l, m[ip], now) < l.burst :: m[ip]
  }

  function AfterSweep(l: Limits, s: State, now: real): State {
    if now - s.lastSweep > SWEEP_EVERY then State(Swept(l, s.buckets, now), now) else s
  }

  predicate Answer(l: Limits, m: map<string, Bucket>, c: Call) {
    match c
    case Allow(ip, now) => Tokens(l, m, ip, now) >= 1.0
    case Exhausted(ip, now) => Tokens(l, m, ip, now) < 1.0
  }

  function After(l: Limits, m: map<string, Bucket>, c: Call): map<string, Bucket> {
    var left := Tokens(l, m, c.ip, c.now);
    m[c.ip := Bucket(if c.Allow? && left >= 1.0 then left - 1.0 else left, c.now)]
  }

  /** One call on the limiter as it is: sweep when due, then answer. */
  function Step(l: Limits, s: State, c: Call): State {
    var t := AfterSweep(l, s, c.now);
    t.(buckets := After(l, t.buckets, c))
  }

  function Answers(l: Limits, s: State, calls: seq<Call>): seq<bool>
    decreases |calls|
  {
    if calls == [] then [] else
      [Answer(l, AfterSweep(l, s, calls[0].now).buckets, calls[0])] + Answers(l, Step(l, s, calls[0]), calls[1..])
  }

  /** The same calls on a limiter that never sweeps. */
  function AnswersUnswept(l: Limits, m: map<string, Bucket>, calls: seq<Call>): seq<bool>
    decreases |calls|
  {
    if calls == [] then [] else
      [Answer(l, m, calls[0])] + AnswersUnswept(l, After(l, m, calls[0]), calls[1..])
  }

  predicate ClockRuns(from: real, calls: seq<Call>)
    decreases |calls|
  {
    calls == [] || (from <= calls[0].now && ClockRuns(calls[0].now, calls[1..]))
  }

  /** m is full with what was forgotten being full by now. */
  ghost predicate Forgot(l: Limits, m: map<string, Bucket>, full: map<string, Bucket>, now: real) {
    && (forall ip | ip in m :: ip in full && m[ip] == full[ip])
    && (forall ip | ip in full && ip !in m :: Filled(l, full[ip], now) >= l.burst)
  }

  lemma FilledIs(l: Limits, b: Bucket, now: real)
    ensures Filled(l, b, now) == b.tokens + (now - b.last) * l.rate
  {
  }

  lemma AddedIs(l: Limits, d: real)
    ensures Added(l, d) == l.rate * d
  {
  }

  lemma AddsMore(l: Limits, d: real, e: real)
    requires l.rate >= 0.0 && d <= e
    ensures Added(l, d) <= Added(l, e)
  {
  }

  lemma AddsUp(l: Limits, d: real, e: real)
    ensures Added(l, d + e) == Added(l, d) + Added(l, e) && Added(l, 0.0) == 0.0
  {
  }

  lemma FillsWithTime(l: Limits, b: Bucket, now: real, later: real)
    requires l.rate >= 0.0 && now <= later
    ensures Filled(l, b, now) <= Filled(l, b, later)
  {
    AddsMore(l, now - b.last, later - b.last);
  }

  lemma ForgotLater(l: Limits, m: map<string, Bucket>, full: map<string, Bucket>, now: real, later: real)
    requires l.rate >= 0.0 && now <= later && Forgot(l, m, full, now)
    ensures Forgot(l, m, full, later)
  {
    forall ip | ip in full && ip !in m ensures Filled(l, full[ip], later) >= l.burst {
      FillsWithTime(l, full[ip], now, later);
    }
  }

  lemma ForgotStep(l: Limits, s: State, full: map<string, Bucket>, c: Call)
    requires Forgot(l, s.buckets, full, c.now)
    ensures Answer(l, AfterSweep(l, s, c.now).buckets, c) == Answer(l, full, c)
    ensures Forgot(l, Step(l, s, c).buckets, After(l, full, c), c.now)
  {
    var m := AfterSweep(l, s, c.now).buckets;
    hide Filled;
    assert Forgot(l, m, full, c.now);
    assert Tokens(l, m, c.ip, c.now) == Tokens(l, full, c.ip, c.now);
  }

  /** Dropping full buckets never shows: for every call sequence with a
      non-decreasing clock the sweeping limiter answers as one that never sweeps. */
  lemma {:induction false} SweepingNeverShows(l: Limits, s: State, full: map<string, Bucket>, calls: seq<Call>, from: real)
    requires l.rate >= 0.0 && ClockRuns(from, calls) && Forgot(l, s.buckets, full, from)
    ensures Answers(l, s, calls) == AnswersUnswept(l, full, calls)
    decreases |calls|
  {
    if calls != [] {
      var c := calls[0];
      ForgotLater(l, s.buckets, full, from, c.now);
      ForgotStep(l, s, full, c);
      SweepingNeverShows(l, Step(l, s, c), After(l, full, c), calls[1..], c.now);
    }
  }

  // How many events a window can let through.

  /** The granted Allow calls of ip. */
  function Granted(l: Limits, s: State, calls: seq<Call>, ip: string): nat
    decreases |calls|
  {
    if calls == [] then 0 else
      var c := calls[0];
      (if c.Allow? && c.ip == ip && Answers(l, s, calls)[0] then 1 else 0) + Granted(l, Step(l, s, c), calls[1..], ip)
  }

  /** What every bucket satisfies at now. */
  ghost predicate Good(l: Limits, s: State, now: real) {
    forall ip | ip in s.buckets :: 0.0 <= s.buckets[ip].tokens <= l.burst && s.buckets[ip].last <= now
  }

  function End(from: real, calls: seq<Call>): real {
    if calls == [] then from else calls[|calls| - 1].now
  }

  function Run(l: Limits, s: State, calls: seq<Call>): State
    decreases |calls|
  {
    if calls == [] then s else Run(l, Step(l, s, calls[0]), calls[1..])
  }

  lemma TokensBounded(l: Limits, s: State, ip: string, now: real)
    requires l.rate >= 0.0 && l.burst >= 0.0 && Good(l, s, now)
    ensures 0.0 <= Tokens(l, s.buckets, ip, now) <= l.burst
  {
    hide Added;
    if ip in s.buckets {
      AddsUp(l, 0.0, 0.0);
      AddsMore(l, 0.0, now - s.buckets[ip].last);
    }
  }

  lemma SweepKeepsTokens(l: Limits, s: State, ip: string, now: real)
    ensures Tokens(l, AfterSweep(l, s, now).buckets, ip, now) == Tokens(l, s.buckets, ip, now)
  {
    hide Filled;
  }

  lemma GoodStep(l: Limits, s: State, c: Call)
    requires l.rate >= 0.0 && l.burst >= 0.0 && Good(l, s, c.now)
    ensures Good(l, Step(l, s, c), c.now)
  {
    hide Tokens, Filled;
    SweepKeepsTokens(l, s, c.ip, c.now);
    TokensBounded(l, s, c.ip, c.now);
  }

  /** Waiting adds at most rate times the wait. */
  lemma WaitAddsRate(l: Limits, s: State, ip: string, now: real, later: real)
    requires l.rate >= 0.0 && now <= later
    ensures Tokens(l, s.buckets, ip, later) <= Tokens(l, s.buckets, ip, now) + Added(l, later - now)
  {
    hide Added;
    AddsUp(l, 0.0, 0.0);
    AddsMore(l, 0.0, later - now);
    if ip in s.buckets {
      var b := s.buckets[ip];
      AddsUp(l, now - b.last, later - now);
      assert (now - b.last) + (later - now) == later - b.last;
    }
  }

  /** A call takes its token out of what is left. */
  lemma CallTakes(l: Limits, s: State, c: Call, ip: string)
    requires l.rate >= 0.0 && l.burst >= 0.0 && Good(l, s, c.now)
    ensures Tokens(l, Step(l, s, c).buckets, ip, c.now) ==
            Tokens(l, s.buckets, ip, c.now) - if c.Allow? && c.ip == ip && Answers(l, s, [c])[0] then 1.0 else 0.0
  {
    hide Added;
    SweepKeepsTokens(l, s, ip, c.now);
    TokensBounded(l, s, ip, c.now);
    AddsUp(l, 0.0, 0.0);
  }

  lemma FirstAnswer(l: Limits, s: State, calls: seq<Call>)
    requires calls != []
    ensures Answers(l, s, calls)[0] == Answers(l, s, [calls[0]])[0]
  {
  }

  /** Tokens are conserved: what was granted and what is left is at most what there
      was and what was added. */
  lemma {:induction false} Conserved(l: Limits, s: State, calls: seq<Call>, ip: string, from: real)
    requires l.rate >= 0.0 && l.burst >= 0.0 && ClockRuns(from, calls) && Good(l, s, from)
    ensures from <= End(from, calls) && Good(l, Run(l, s, calls), End(from, calls))
    ensures Granted(l, s, calls, ip) as real + Tokens(l, Run(l, s, calls).buckets, ip, End(from, calls))
            <= Tokens(l, s.buckets, ip, from) + Added(l, End(from, calls) - from)
    decreases |calls|
  {
    hide Tokens, Answers, Step, Added;
    AddsUp(l, 0.0, 0.0);
    if calls != [] {
      var c, rest := calls[0], calls[1..];
      assert Good(l, s, c.now);
      GoodStep(l, s, c);
      Conserved(l, Step(l, s, c), rest, ip, c.now);
      WaitAddsRate(l, s, ip, from, c.now);
      CallTakes(l, s, c, ip);
      FirstAnswer(l, s, calls);
      assert End(c.now, rest) == End(from, calls);
      AddsUp(l, c.now - from, End(from, calls) - c.now);
      assert (c.now - from) + (End(from, calls) - c.now) == End(from, calls) - from;
    }
  }

  /** After any calls on a new limiter, a window of length d lets an address through
      at most burst + rate * d times. */
  lemma {:induction false} WindowBound(l: Limits, start: real, before: seq<Call>, window: seq<Call>, ip: string, from: real, d: real)
    requires l.rate >= 0.0 && l.burst >= 0.0 && ClockRuns(start, before)
    requires End(start, before) <= from && ClockRuns(from, window) && End(from, window) <= from + d
    ensures Granted(l, Run(l, State(map[], start), before), window, ip) as real <= l.burst + l.rate * d
  {
    hide *;
    var s := Run(l, State(map[], start), before);
    AddedIs(l, d);
    assert Good(l, s, from) by { NewIsGood(l, start); Conserved(l, State(map[], start), before, ip, start); GoodLater(l, s, End(start, before), from); }
    Conserved(l, s, window, ip, from);
    TokensBounded(l, s, ip, from);
    TokensBounded(l, Run(l, s, window), ip, End(from, window));
    AddsMore(l, End(from, window) - from, d);
  }

  lemma NewIsGood(l: Limits, start: real)
    ensures Good(l, State(map[], start), start)
  {
  }

  lemma GoodLater(l: Limits, s: State, now: real, later: real)
    requires Good(l, s, now) && now <= later
    ensures Good(l, s, later)
  {
  }

  /** go/tunnel/auth/ratelimit.go's IPLimiter. */
  class IPLimiter {
    const limits: Limits
    var buckets: map<string, Bucket>
    var lastSweep: real

    ghost function View(): State
      reads this
    {
      State(buckets, lastSweep)
    }

    constructor (perSecond: real, burst: int, now: real)
      ensures limits == Limits(perSecond, burst as real) && View() == State(map[], now)
    {
      limits, buckets, lastSweep := Limits(perSecond, burst as real), map[], now;
    }

    method Sweep(now: real)
      modifies this
      ensures View() == State(Swept(limits, old(buckets), now), now)
    {
      hide Filled;
      var todo := buckets.Keys;
      while todo != {}
        invariant todo <= old(buckets).Keys && lastSweep == old(lastSweep)
        invariant forall ip :: ip in buckets <==>
                    ip in old(buckets) && (ip in todo || Filled(limits, old(buckets)[ip], now) < limits.burst)
        invariant forall ip | ip in buckets :: buckets[ip] == old(buckets)[ip]
        decreases todo
      {
        var ip :| ip in todo;
        FilledIs(limits, buckets[ip], now);
        if buckets[ip].tokens + (now - buckets[ip].last) * limits.rate >= limits.burst {
          buckets := buckets - {ip};
        }
        todo := todo - {ip};
      }
      assert buckets == Swept(limits, old(buckets), now);
      lastSweep := now;
    }

    method Refill(ip: string, now: real) returns (b: Bucket)
      modifies this
      ensures var s := AfterSweep(limits, old(View()), now);
              && b == Bucket(Tokens(limits, s.buckets, ip, now), now)
              && View() == s.(buckets := s.buckets[ip := b])
    {
      if now - lastSweep > SWEEP_EVERY {
        Sweep(now);
      }
      if ip !in buckets {
        b := Bucket(limits.burst, now);
      } else {
        b := buckets[ip];
        b := b.(tokens := b.tokens + (now - b.last) * limits.rate);
        if b.tokens > limits.burst {
          b := b.(tokens := limits.burst);
        }
        b := b.(last := now);
      }
      buckets := buckets[ip := b];
    }

    method Allow(ip: string, now: real) returns (ok: bool)
      modifies this
      ensures View() == Step(limits, old(View()), Call.Allow(ip, now))
      ensures [ok] == Answers(limits, old(View()), [Call.Allow(ip, now)])
    {
      var b := Refill(ip, now);
      ok := b.tokens >= 1.0;
      if ok {
        buckets := buckets[ip := b.(tokens := b.tokens - 1.0)];
      }
    }

    method Exhausted(ip: string, now: real) returns (none: bool)
      modifies this
      ensures View() == Step(limits, old(View()), Call.Exhausted(ip, now))
      ensures [none] == Answers(limits, old(View()), [Call.Exhausted(ip, now)])
    {
      var b := Refill(ip, now);
      none := b.tokens < 1.0;
    }
  }
}
