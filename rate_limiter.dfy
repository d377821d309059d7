/** The central rate limiter of the API client: the request allowance reported by the server,
    the exponential back-off after "429 Too Many Requests" answers, and the status it reports.

    Time is in integer seconds and is a parameter (`now`). Waiting is modelled as the clock
    advancing to the deadline waited for; the lock that serialises the three operations is not
    modelled. */
module RateLimiter {
  import opened Wrappers
  import opened PyText

  /** The allowance a new limiter assumes. */
  const DefaultLimit: int := 1000

  /** The longest back-off, in minutes. */
  const MaxBackoffMinutes: nat := 60

  /** The header names the server reports its allowance in. */
  const RemainingHeader: string := "X-RateLimit-Remaining"
  const LimitHeader: string := "X-RateLimit-Limit"
  const ResetHeader: string := "X-RateLimit-Reset"

  /** The fields of a limiter that its operations change. */
  datatype Limits = Limits(
    remaining: int, limit: int, resetTime: Option<int>, backoffUntil: Option<int>, consecutive429s: nat)

  /** What `get_status` reports. */
  datatype Status = Status(
    remaining: int, limit: int, resetTime: Option<int>, profile: string, inBackoff: bool,
    backoffUntil: Option<int>)

  /** The state of a new limiter. */
  function InitialLimits(): Limits {
    Limits(DefaultLimit, DefaultLimit, None, None, 0)
  }

  /** A back-off deadline is set and not yet reached. */
  predicate InBackoff(st: Limits, now: int) {
    st.backoffUntil.Some? && now < st.backoffUntil.value
  }

  function Pow2(n: nat): nat {
    if n == 0 then 1 else 2 * Pow2(n - 1)
  }

  /** `min(2 ** n, 60)`. */
  function BackoffMinutes(n: nat): nat {
    if Pow2(n) < MaxBackoffMinutes then Pow2(n) else MaxBackoffMinutes
  }

  lemma {:induction false} Pow2Monotone(n: nat, m: nat)
    requires n <= m
    ensures Pow2(n) <= Pow2(m)
  {
    if n < m {
      Pow2Monotone(n, m - 1);
    }
  }

  /** The back-off after the n-th consecutive 429 doubles from 2 minutes (n = 1) up to 32
      (n = 5), is 60 minutes from the sixth on, and never shrinks as n grows. */
  lemma BackoffSchedule(n: nat, m: nat)
    requires n <= m
    ensures 1 <= n <= 5 ==> BackoffMinutes(n) == Pow2(n) && 2 <= BackoffMinutes(n) <= 32
    ensures n >= 6 ==> BackoffMinutes(n) == MaxBackoffMinutes
    ensures BackoffMinutes(n) <= BackoffMinutes(m) <= MaxBackoffMinutes
  {
    Pow2Monotone(n, m);
    if 1 <= n <= 5 {
      Pow2Monotone(n, 5);
      Pow2Monotone(1, n);
    }
    if n >= 6 {
      Pow2Monotone(6, n);
    }
  }

  /** `acquire` at instant `now`: the state afterwards and the instant it returns at. It only
      ever waits forward; an active back-off is waited out to its deadline, which is then
      cleared; it leaves the limit, the reset time and the 429 counter alone; with allowance
      left it returns as soon as the back-off is over, changing nothing else. An exhausted
      allowance is either waited out until a reset time still ahead (then left as it is) or,
      with the reset time passed or absent, renewed to the limit. */
  function AcquireSpec(st: Limits, now: int): (r: (Limits, int))
    ensures r.1 >= now
    ensures !InBackoff(r.0, r.1)
    ensures InBackoff(st, now) ==> r.1 >= st.backoffUntil.value
    ensures r.0.limit == st.limit && r.0.resetTime == st.resetTime && r.0.consecutive429s == st.consecutive429s
    ensures r.0.backoffUntil == (if InBackoff(st, now) then None else st.backoffUntil)
    ensures st.remaining > 0 ==>
      r.0.remaining == st.remaining && r.1 == (if InBackoff(st, now) then st.backoffUntil.value else now)
    ensures r.0.remaining != st.remaining ==> st.remaining <= 0 && r.0.remaining == st.limit
    ensures st.remaining <= 0 ==>
      var start := if InBackoff(st, now) then st.backoffUntil.value else now;
      || (st.resetTime.Some? && start < st.resetTime.value && r.1 == st.resetTime.value && r.0.remaining == st.remaining)
      || ((st.resetTime.None? || st.resetTime.value <= start) && r.1 == start && r.0.remaining == st.limit)
  {
    var (st1, t1) := if InBackoff(st, now) then (st.(backoffUntil := None), st.backoffUntil.value) else (st, now);
    if st1.remaining <= 0 then
      if st1.resetTime.Some? && t1 < st1.resetTime.value then (st1, st1.resetTime.value)
      else (st1.(remaining := st1.limit), t1)
    else (st1, t1)
  }

  /** `int(headers[name])` when the header is present and readable. */
  function HeaderInt(headers: map<string, string>, name: string): Option<int> {
    if name in headers then ParseInt(headers[name]) else None
  }

  /** `record_response`: a header that is missing or not an integer leaves its field as it
      was, a readable one sets it; the back-off deadline is never touched and the 429 counter
      always goes back to zero. */
  function AfterResponse(st: Limits, headers: map<string, string>): (r: Limits)
    ensures r.consecutive429s == 0
    ensures r.backoffUntil == st.backoffUntil
    ensures RemainingHeader !in headers ==> r.remaining == st.remaining
    ensures LimitHeader !in headers ==> r.limit == st.limit
    ensures ResetHeader !in headers ==> r.resetTime == st.resetTime
    ensures RemainingHeader in headers ==>
      r.remaining == (if ParseInt(headers[RemainingHeader]).Some? then ParseInt(headers[RemainingHeader]).value else st.remaining)
    ensures LimitHeader in headers ==>
      r.limit == (if ParseInt(headers[LimitHeader]).Some? then ParseInt(headers[LimitHeader]).value else st.limit)
    ensures ResetHeader in headers ==>
      r.resetTime == (if ParseInt(headers[ResetHeader]).Some? then ParseInt(headers[ResetHeader]) else st.resetTime)
  {
    var remaining := HeaderInt(headers, RemainingHeader);
    var limit := HeaderInt(headers, LimitHeader);
    var reset := HeaderInt(headers, ResetHeader);
    Limits(remaining.GetOr(st.remaining), limit.GetOr(st.limit),
           if reset.Some? then reset else st.resetTime, st.backoffUntil, 0)
  }

  /** A header holding the decimal text of a number sets the allowance to that number. */
  lemma RemainingHeaderRead(st: Limits, headers: map<string, string>, n: int)
    requires RemainingHeader in headers && headers[RemainingHeader] == IntToString(n)
    ensures AfterResponse(st, headers).remaining == n
  {
    IntToStringParses(n);
  }

  /** `record_429` at instant `now`: one more consecutive 429, and a back-off of
      `min(2 ** count, 60)` minutes from now, so at least two and at most sixty; nothing else
      changes. */
  function After429(st: Limits, now: int): (r: Limits)
    ensures r.consecutive429s == st.consecutive429s + 1
    ensures r.remaining == st.remaining && r.limit == st.limit && r.resetTime == st.resetTime
    ensures InBackoff(r, now)
    ensures now + 2 * 60 <= r.backoffUntil.value <= now + MaxBackoffMinutes * 60
  {
    var count := st.consecutive429s + 1;
    BackoffSchedule(1, count);
    st.(consecutive429s := count, backoffUntil := Some(now + BackoffMinutes(count) * 60))
  }

  /** `get_status` at instant `now`. */
  function StatusOf(st: Limits, profile: string, now: int): Status {
    Status(st.remaining, st.limit, st.resetTime, profile, InBackoff(st, now), st.backoffUntil)
  }

  // ---------------------------------------------------------------- the request sequence

  /** One response as the client sees it. */
  datatype Response = Response(status: int, headers: map<string, string>)

  /** The limiter's part of one client request at instant `now`, in the order the client
      makes the calls: `acquire`, `record_response`, then `record_429` for a 429 answer. The
      counter reset of `record_response` comes before the increment, so every 429 answer is
      counted as the first one: the counter is 1 afterwards and the back-off two minutes,
      however many 429s came before. */
  function RequestAsWritten(st: Limits, now: int, response: Response): (r: Limits)
    ensures response.status == 429 ==>
      r.consecutive429s == 1 && r.backoffUntil == Some(AcquireSpec(st, now).1 + 2 * 60)
  {
    var (st1, t) := AcquireSpec(st, now);
    var st2 := AfterResponse(st1, response.headers);
    if response.status == 429 then After429(st2, t) else st2
  }

  /** Three 429 answers in a row, as written, still back off for two minutes only. */
  lemma RequestAsWrittenThirdBackoff(now: int)
    ensures var r := Response(429, map[]);
      var st1 := RequestAsWritten(InitialLimits(), now, r);
      var st2 := RequestAsWritten(st1, st1.backoffUntil.value, r);
      var st3 := RequestAsWritten(st2, st2.backoffUntil.value, r);
      && st3.consecutive429s == 1
      && st3.backoffUntil.value - AcquireSpec(st2, st2.backoffUntil.value).1 == 2 * 60
  {
  }

  /** The request with the counter reset only for answers other than 429, which is what
      "consecutive" asks for: the allowance headers are recorded either way. */
  function Request(st: Limits, now: int, response: Response): Limits {
    var (st1, t) := AcquireSpec(st, now);
    var st2 := AfterResponse(st1, response.headers);
    if response.status == 429 then After429(st2.(consecutive429s := st1.consecutive429s), t) else st2
  }

  /** `k` requests in a row, the i-th at instant `times[i]`, all answered with 429. */
  function Repeated429(st: Limits, times: seq<int>): Limits {
    if times == [] then st
    else Request(Repeated429(st, times[..|times| - 1]), times[|times| - 1], Response(429, map[]))
  }

  /** With that order, `k` consecutive 429 answers after a successful one leave the counter at
      `k` and the last back-off at `min(2 ** k, 60)` minutes. */
  lemma {:induction false} RequestEscalates(st: Limits, times: seq<int>)
    requires times != []
    ensures Repeated429(st, times).consecutive429s == st.consecutive429s + |times|
    ensures var prev := Repeated429(st, times[..|times| - 1]);
      Repeated429(st, times).backoffUntil ==
        Some(AcquireSpec(prev, times[|times| - 1]).1 + BackoffMinutes(st.consecutive429s + |times|) * 60)
  {
    var prev := Repeated429(st, times[..|times| - 1]);
    if |times| > 1 {
      RequestEscalates(st, times[..|times| - 1]);
      assert times[..|times| - 1][..|times| - 2] == times[..|times| - 2];
    }
  }

  class RateLimiter {
    const profile: string
    var remaining: int
    var limit: int
    var resetTime: Option<int>
    var backoffUntil: Option<int>
    var consecutive429s: nat

    function State(): Limits
      reads this
    {
      Limits(remaining, limit, resetTime, backoffUntil, consecutive429s)
    }

    /** A limiter for the polling profile `profile` ("balanced" by default in the source). */
    constructor (profile: string)
      ensures this.profile == profile && State() == InitialLimits()
    {
      this.profile := profile;
      remaining := DefaultLimit;
      limit := DefaultLimit;
      resetTime := None;
      backoffUntil := None;
      consecutive429s := 0;
    }

    /** `acquire` at instant `now`: always grants, at the instant `after`. */
    method Acquire(now: int) returns (granted: bool, after: int)
      modifies this
      ensures granted
      ensures (State(), after) == AcquireSpec(old(State()), now)
    {
      after := now;
      if backoffUntil.Some? && after < backoffUntil.value {
        after := backoffUntil.value;
        backoffUntil := None;
      }
      if remaining <= 0 {
        if resetTime.Some? && after < resetTime.value {
          after := resetTime.value;
        } else {
          remaining := limit;
        }
      }
      return true, after;
    }

    /** `record_response` for the response headers `headers`. */
    method RecordResponse(headers: map<string, string>)
      modifies this
      ensures State() == AfterResponse(old(State()), headers)
    {
      if RemainingHeader in headers {
        var n := ParseInt(headers[RemainingHeader]);
        if n.Some? {
          remaining := n.value;
        }
      }
      if LimitHeader in headers {
        var n := ParseInt(headers[LimitHeader]);
        if n.Some? {
          limit := n.value;
        }
      }
      if ResetHeader in headers {
        var n := ParseInt(headers[ResetHeader]);
        if n.Some? {
          resetTime := n;
        }
      }
      consecutive429s := 0;
    }

    /** `record_429` at instant `now`. */
    method Record429(now: int)
      modifies this
      ensures State() == After429(old(State()), now)
    {
      consecutive429s := consecutive429s + 1;
      var minutes := BackoffMinutes(consecutive429s);
      backoffUntil := Some(now + minutes * 60);
    }

    /** `get_status` at instant `now`. */
    method GetStatus(now: int) returns (s: Status)
      ensures s == StatusOf(State(), profile, now)
      ensures s.inBackoff <==> backoffUntil.Some? && now < backoffUntil.value
    {
      var inBackoff := backoffUntil.Some? && now < backoffUntil.value;
      return Status(remaining, limit, resetTime, profile, inBackoff, backoffUntil);
    }
  }
}
