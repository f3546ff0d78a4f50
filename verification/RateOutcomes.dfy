/** Exactly when the rate limiter lets an address through, in terms of its own earlier
    answers (go/tunnel/auth/ratelimit.go). */
module RateOutcomes {
  import opened RateLimit

  /** How often the address was let through from call j up to call i. */
  function Lets(calls: seq<Call>, answers: seq<bool>, ip: string, j: nat, i: nat): nat
    requires j <= i <= |calls| == |answers|
    decreases i
  {
    if i == j then 0 else
      Lets(calls, answers, ip, j, i - 1) + if calls[i - 1].Allow? && calls[i - 1].ip == ip && answers[i - 1] then 1 else 0
  }

  /** Letting the address through once more at now keeps every window that began with
      one of its calls within the burst and the rate. */
  ghost predicate Fits(l: Limits, calls: seq<Call>, answers: seq<bool>, i: nat, ip: string, now: real)
    requires i <= |calls| == |answers|
  {
    && l.burst >= 1.0
    && forall j: nat | j < i && calls[j].ip == ip ::
         Lets(calls, answers, ip, j, i) as real + 1.0 <= l.burst + l.rate * (now - calls[j].now)
  }

  // ---------------------------------------------------------------------
  // The buckets after the first calls
  // ---------------------------------------------------------------------

  function Seen(l: Limits, m: map<string, Bucket>, calls: seq<Call>, i: nat): map<string, Bucket>
    requires i <= |calls|
  {
    if i == 0 then m else After(l, Seen(l, m, calls, i - 1), calls[i - 1])
  }

  lemma {:induction false} SeenFromNext(l: Limits, m: map<string, Bucket>, calls: seq<Call>, i: nat)
    requires 0 < i <= |calls|
    ensures Seen(l, m, calls, i) == Seen(l, After(l, m, calls[0]), calls[1..], i - 1)
  {
    hide After;
    if i > 1 {
      SeenFromNext(l, m, calls, i - 1);
      assert calls[1..][i - 2] == calls[i - 1];
    } else {
      assert Seen(l, m, calls, 0) == m;
    }
  }

  lemma {:induction false} AnswerAt(l: Limits, m: map<string, Bucket>, calls: seq<Call>, i: nat)
    requires i < |calls|
    ensures |AnswersUnswept(l, m, calls)| == |calls|
    ensures AnswersUnswept(l, m, calls)[i] == Answer(l, Seen(l, m, calls, i), calls[i])
    decreases |calls|
  {
    hide Answer, After;
    if |calls| > 1 {
      AnswerAt(l, After(l, m, calls[0]), calls[1..], if i > 0 then i - 1 else 0);
    }
    if i > 0 { SeenFromNext(l, m, calls, i); }
  }

  // ---------------------------------------------------------------------
  // The tokens of an address
  // ---------------------------------------------------------------------

  /** The address has x tokens: the burst allows it, and so does every window that began
      with one of its calls. */
  ghost predicate Has(l: Limits, calls: seq<Call>, answers: seq<bool>, i: nat, ip: string, now: real, x: real)
    requires i <= |calls| == |answers|
  {
    && l.burst >= x
    && forall j: nat | j < i && calls[j].ip == ip ::
         Lets(calls, answers, ip, j, i) as real + x <= l.burst + Added(l, now - calls[j].now)
  }

  lemma LetsNext(calls: seq<Call>, answers: seq<bool>, ip: string, i: nat)
    requires 0 < i <= |calls| == |answers|
    ensures forall j: nat | j < i :: Lets(calls, answers, ip, j, i) ==
              Lets(calls, answers, ip, j, i - 1) + if calls[i - 1].Allow? && calls[i - 1].ip == ip && answers[i - 1] then 1 else 0
  {
  }

  lemma {:induction false} TokensAre(l: Limits, calls: seq<Call>, answers: seq<bool>, i: nat, ip: string, now: real, x: real)
    requires i <= |calls| == |answers|
    requires forall k: nat | k < i :: answers[k] == Answer(l, Seen(l, map[], calls, k), calls[k])
    ensures Tokens(l, Seen(l, map[], calls, i), ip, now) >= x <==> Has(l, calls, answers, i, ip, now, x)
  {
    hide Added, Has, Tokens, After, Answer;
    if i == 0 {
      FirstTokens(l, calls, answers, ip, now, x);
    } else {
      var c, m := calls[i - 1], Seen(l, map[], calls, i - 1);
      if c.ip != ip {
        TokensAre(l, calls, answers, i - 1, ip, now, x);
        OthersDoNotCount(l, m, calls, answers, i, ip, now, x);
      } else {
        var took := if c.Allow? && answers[i - 1] then 1.0 else 0.0;
        TokensAre(l, calls, answers, i - 1, ip, c.now, x + took - Added(l, now - c.now));
        BucketAfter(l, m, c, now, answers[i - 1]);
        WindowsShift(l, calls, answers, i, ip, now, x, took);
      }
    }
  }

  lemma FirstTokens(l: Limits, calls: seq<Call>, answers: seq<bool>, ip: string, now: real, x: real)
    requires |calls| == |answers|
    ensures Tokens(l, map[], ip, now) >= x <==> Has(l, calls, answers, 0, ip, now, x)
  {
  }

  lemma OthersDoNotCount(l: Limits, m: map<string, Bucket>, calls: seq<Call>, answers: seq<bool>, i: nat, ip: string, now: real, x: real)
    requires 0 < i <= |calls| == |answers| && calls[i - 1].ip != ip
    ensures Tokens(l, After(l, m, calls[i - 1]), ip, now) == Tokens(l, m, ip, now)
    ensures Has(l, calls, answers, i, ip, now, x) <==> Has(l, calls, answers, i - 1, ip, now, x)
  {
    hide Added;
    LetsNext(calls, answers, ip, i);
  }

  lemma BucketAfter(l: Limits, m: map<string, Bucket>, c: Call, now: real, answer: bool)
    requires answer == Answer(l, m, c)
    ensures Tokens(l, After(l, m, c), c.ip, now) ==
            Min(Tokens(l, m, c.ip, c.now) - (if c.Allow? && answer then 1.0 else 0.0) + Added(l, now - c.now), l.burst)
  {
    hide Added;
  }

  lemma WindowsShift(l: Limits, calls: seq<Call>, answers: seq<bool>, i: nat, ip: string, now: real, x: real, took: real)
    requires 0 < i <= |calls| == |answers| && calls[i - 1].ip == ip
    requires took == if calls[i - 1].Allow? && answers[i - 1] then 1.0 else 0.0
    ensures Has(l, calls, answers, i, ip, now, x) <==>
            l.burst >= x && Has(l, calls, answers, i - 1, ip, calls[i - 1].now, x + took - Added(l, now - calls[i - 1].now))
  {
    hide Added;
    var c := calls[i - 1];
    LetsNext(calls, answers, ip, i);
    assert Lets(calls, answers, ip, i - 1, i - 1) == 0;
    forall j: nat | j < i - 1 && calls[j].ip == ip
      ensures Added(l, now - calls[j].now) == Added(l, c.now - calls[j].now) + Added(l, now - c.now)
    {
      AddsUp(l, c.now - calls[j].now, now - c.now);
      assert (c.now - calls[j].now) + (now - c.now) == now - calls[j].now;
    }
  }

  // ---------------------------------------------------------------------
  // The answers
  // ---------------------------------------------------------------------

  lemma FitsMeans(l: Limits, calls: seq<Call>, answers: seq<bool>, i: nat, ip: string, now: real)
    requires i <= |calls| == |answers|
    ensures Fits(l, calls, answers, i, ip, now) <==> Has(l, calls, answers, i, ip, now, 1.0)
  {
    hide Added;
    forall j: nat | j < i && calls[j].ip == ip ensures Added(l, now - calls[j].now) == l.rate * (now - calls[j].now) {
      AddedIs(l, now - calls[j].now);
    }
  }

  /** A limiter lets an address through exactly when that keeps every window that began
      with a call of the address within burst + rate * length; and says it is exhausted
      exactly when it would not. Sweeping makes no difference. */
  lemma AllowsExactly(l: Limits, start: real, calls: seq<Call>, i: nat)
    requires l.rate >= 0.0 && ClockRuns(start, calls) && i < |calls|
    ensures var answers := Answers(l, State(map[], start), calls);
            && |answers| == |calls|
            && var fits := Fits(l, calls, answers, i, calls[i].ip, calls[i].now);
               answers[i] == if calls[i].Allow? then fits else !fits
  {
    hide Answers, AnswersUnswept, Fits, Has, Tokens, Seen;
    var answers := AnswersUnswept(l, map[], calls);
    SweepingNeverShows(l, State(map[], start), map[], calls, start);
    forall k: nat | k < |calls| ensures |answers| == |calls| && answers[k] == Answer(l, Seen(l, map[], calls, k), calls[k]) {
      AnswerAt(l, map[], calls, k);
    }
    TokensAre(l, calls, answers, i, calls[i].ip, calls[i].now, 1.0);
    FitsMeans(l, calls, answers, i, calls[i].ip, calls[i].now);
  }

  lemma {:induction false} LetsGrow(calls: seq<Call>, answers: seq<bool>, ip: string, j: nat, i: nat)
    requires j <= i <= |calls| == |answers|
    ensures Lets(calls, answers, ip, j, i) <= Lets(calls, answers, ip, 0, i)
    decreases i
  {
    if j < i { LetsGrow(calls, answers, ip, j, i - 1); }
  }

  lemma {:induction false} ClockAt(start: real, calls: seq<Call>, j: nat, i: nat)
    requires ClockRuns(start, calls) && j <= i < |calls|
    ensures start <= calls[j].now <= calls[i].now
    decreases |calls|
  {
    if j > 0 {
      ClockAt(calls[0].now, calls[1..], j - 1, i - 1);
    } else if i > 0 {
      ClockAt(calls[0].now, calls[1..], 0, i - 1);
    }
  }

  lemma FewFit(l: Limits, start: real, calls: seq<Call>, answers: seq<bool>, i: nat)
    requires l.rate >= 0.0 && ClockRuns(start, calls) && i < |calls| == |answers|
    requires Lets(calls, answers, calls[i].ip, 0, i) as real + 1.0 <= l.burst
    ensures Fits(l, calls, answers, i, calls[i].ip, calls[i].now)
  {
    hide Lets, ClockRuns;
    var ip := calls[i].ip;
    forall j: nat | j < i && calls[j].ip == ip
      ensures Lets(calls, answers, ip, j, i) as real + 1.0 <= l.burst + l.rate * (calls[i].now - calls[j].now)
    {
      LetsGrow(calls, answers, ip, j, i);
      ClockAt(start, calls, j, i);
      NotLess(l.rate, calls[i].now - calls[j].now);
    }
  }

  /** So an address that was let through fewer times than the burst is let through. */
  lemma BurstIsAlwaysGranted(l: Limits, start: real, calls: seq<Call>, i: nat)
    requires l.rate >= 0.0 && ClockRuns(start, calls) && i < |calls| && calls[i].Allow?
    requires |Answers(l, State(map[], start), calls)| == |calls|
    requires Lets(calls, Answers(l, State(map[], start), calls), calls[i].ip, 0, i) as real + 1.0 <= l.burst
    ensures Answers(l, State(map[], start), calls)[i]
  {
    hide Answers, Lets, Fits, ClockRuns;
    AllowsExactly(l, start, calls, i);
    FewFit(l, start, calls, Answers(l, State(map[], start), calls), i);
  }

  lemma NotLess(rate: real, d: real)
    requires rate >= 0.0 && d >= 0.0
    ensures rate * d >= 0.0
  {
  }
}
