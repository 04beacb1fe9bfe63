// The retry loops of the two clients: retryingRequest of the TypeScript SDK and
// BaseResource._request of the Python SDK. The replies, the random numbers and
// the parsed Retry-After headers are parameters; delays are exact reals.
module Retry {
  import opened Wrappers

  predicate RetryableStatus(status: int) {
    status in {429, 500, 502, 503, 504}
  }

  predicate Success(status: int) {
    200 <= status < 300
  }

  // retryAfter: the header as the client parses it, a W. Broken is any other
  // exception, which only the Python client tells apart.
  datatype Reply<W> = Response(status: int, retryAfter: Option<W>) | NetworkError | Broken

  datatype Result =
    | Succeeded(status: int)
    | StatusError(status: int)
    | NetworkFailure
    | Raised                 // an exception the loop does not handle
    | FellThrough            // the code after the loop

  // A source of replies and of random numbers in [0, 1).
  datatype World<W> = World(reply: nat -> Reply<W>, random: nat -> real)

  ghost predicate Proper<W>(w: World<W>) {
    forall k :: 0.0 <= w.random(k) < 1.0
  }

  // ---- backoff -------------------------------------------------------------

  // base * 2 ** n
  function Doubled(base: real, n: nat): real {
    if n == 0 then base else 2.0 * Doubled(base, n - 1)
  }

  function MinReal(a: real, b: real): real {
    if a < b then a else b
  }

  // Doubling from base, capped.
  function Capped(base: real, cap: real, attempt: nat): real {
    MinReal(Doubled(base, attempt), cap)
  }

  // The capped delays of the first n retries.
  function CappedSum(base: real, cap: real, n: nat): real {
    if n == 0 then 0.0 else CappedSum(base, cap, n - 1) + Capped(base, cap, n - 1)
  }

  function Multiple(x: real, n: nat): real {
    if n == 0 then 0.0 else Multiple(x, n - 1) + x
  }

  lemma {:induction false} DoubledGrows(base: real, m: nat, n: nat)
    requires m <= n && base >= 0.0
    ensures 0.0 <= Doubled(base, m) <= Doubled(base, n)
    decreases n
  {
    if m < n {
      DoubledGrows(base, m, n - 1);
    } else if n > 0 {
      DoubledGrows(base, n - 1, n - 1);
    }
  }

  // In closed form: m doublings, then the cap, when the cap is reached by the
  // m-th doubling and not before.
  lemma {:induction false} CappedSumClosedForm(base: real, cap: real, m: nat, n: nat)
    requires base > 0.0 && m > 0 && Doubled(base, m - 1) <= cap <= Doubled(base, m)
    ensures CappedSum(base, cap, n)
         == if n <= m then Doubled(base, n) - base else Doubled(base, m) - base + Multiple(cap, n - m)
    decreases n
  {
    if n > 0 {
      CappedSumClosedForm(base, cap, m, n - 1);
      if n <= m {
        DoubledGrows(base, n - 1, m - 1);
      } else {
        DoubledGrows(base, m, n - 1);
      }
    }
  }

  // ---- the TypeScript client, in milliseconds ------------------------------

  const TS_BASE: real := 1000.0
  const TS_CAP: real := 30000.0

  function TsJitter(delay: real, random: real): real {
    delay * (1.0 + (random * 0.4 - 0.2))
  }

  function TsBackoff(w: World<real>, attempt: nat): real {
    TsJitter(Capped(TS_BASE, TS_CAP, attempt), w.random(attempt))
  }

  function TsDelay(w: World<real>, attempt: nat): real {
    var reply := w.reply(attempt);
    if reply.Response? && reply.status == 429 && reply.retryAfter.Some? then reply.retryAfter.value
    else TsBackoff(w, attempt)
  }

  predicate TsRetryable(reply: Reply<real>) {
    !reply.Response? || RetryableStatus(reply.status)
  }

  function TsResult(reply: Reply<real>): Result {
    if !reply.Response? then NetworkFailure
    else if Success(reply.status) then Succeeded(reply.status)
    else StatusError(reply.status)
  }

  function TsSlept(w: World<real>, n: nat): real {
    if n == 0 then 0.0 else TsSlept(w, n - 1) + TsDelay(w, n - 1)
  }

  // With a budget of 0 or more: at most budget + 1 requests, and the result is
  // that of the first reply that is not retryable, or else of the last request.
  // The code after the loop runs only for a negative budget.
  method RetryingRequest(w: World<real>, maxRetries: int) returns (result: Result, requests: nat, slept: real)
    ensures maxRetries < 0 <==> result == FellThrough
    ensures maxRetries < 0 ==> requests == 0
    ensures maxRetries >= 0 ==>
              && 1 <= requests <= maxRetries + 1 && result == TsResult(w.reply(requests - 1))
              && (forall k: nat | k < requests - 1 :: TsRetryable(w.reply(k)))
              && (!TsRetryable(w.reply(requests - 1)) || requests == maxRetries + 1)
    ensures forall k: nat | k < requests - 1 && w.reply(k).Response? ::
              w.reply(k).status in {429, 500, 502, 503, 504}
    ensures requests > 0 && requests <= maxRetries ==>
              w.reply(requests - 1).Response? && w.reply(requests - 1).status !in {429, 500, 502, 503, 504}
    ensures requests > 0 ==>
              match w.reply(requests - 1)
              case Response(status, _) =>
                result == if 200 <= status <= 299 then Succeeded(status) else StatusError(status)
              case _ => result == NetworkFailure
    ensures slept == TsSlept(w, if requests > 0 then requests - 1 else 0)
  {
    requests, slept := 0, 0.0;
    var attempt := 0;
    while attempt <= maxRetries
      invariant attempt == 0 || attempt <= maxRetries
      invariant requests == attempt && slept == TsSlept(w, attempt)
      invariant forall k: nat | k < attempt :: TsRetryable(w.reply(k))
      decreases maxRetries - attempt
    {
      var reply := w.reply(attempt);
      requests := requests + 1;
      if reply.Response? {
        if Success(reply.status) { return Succeeded(reply.status), requests, slept; }
        if RetryableStatus(reply.status) && attempt < maxRetries {
          var retryAfter := if reply.status == 429 then reply.retryAfter else None;
          var delay := if retryAfter.Some? then retryAfter.value else TsBackoff(w, attempt);
          slept := slept + delay;
          attempt := attempt + 1;
          continue;
        }
        return StatusError(reply.status), requests, slept;
      }
      if attempt < maxRetries {
        slept := slept + TsBackoff(w, attempt);
        attempt := attempt + 1;
        continue;
      }
      return NetworkFailure, requests, slept;
    }
    result := FellThrough;
  }

  // Without a usable Retry-After on a 429, n retries sleep within 20 percent of
  // the capped doubling delays.
  lemma {:induction false} TsSleepBounds(w: World<real>, n: nat)
    requires Proper(w)
    requires forall k: nat | k < n :: w.reply(k).Response? && w.reply(k).status == 429 ==> w.reply(k).retryAfter.None?
    ensures 0.8 * CappedSum(TS_BASE, TS_CAP, n) <= TsSlept(w, n) <= 1.2 * CappedSum(TS_BASE, TS_CAP, n)
    decreases n
  {
    if n > 0 {
      TsSleepBounds(w, n - 1);
      TsBackoffBounds(w, n - 1);
    }
  }

  lemma TsBackoffBounds(w: World<real>, attempt: nat)
    requires Proper(w)
    ensures 0.8 * Capped(TS_BASE, TS_CAP, attempt) <= TsBackoff(w, attempt) <= 1.2 * Capped(TS_BASE, TS_CAP, attempt)
  {
    DoubledGrows(TS_BASE, 0, attempt);
    TsJitterBounds(Capped(TS_BASE, TS_CAP, attempt), w.random(attempt));
  }

  lemma TsJitterBounds(delay: real, random: real)
    requires delay >= 0.0 && 0.0 <= random < 1.0
    ensures 0.8 * delay <= TsJitter(delay, random) <= 1.2 * delay
  {
    Scale(delay, 0.8, 1.0 + (random * 0.4 - 0.2), 1.2);
  }

  lemma Scale(c: real, low: real, factor: real, high: real)
    requires c >= 0.0 && low <= factor <= high
    ensures low * c <= c * factor <= high * c
  {
  }

  // ---- the Python client, in seconds ---------------------------------------

  const PY_BASE: real := 0.5
  const PY_CAP: real := 30.0

  // What float makes of a header: a number, or an infinity or NaN, which it
  // reads too.
  datatype Wait = Seconds(value: real) | NotFinite

  // time.sleep counts nanoseconds in 64 bits.
  const SLEEP_LIMIT: real := 9223372036.854775808

  // random.uniform(0, delay * 0.25) on top of the delay
  function PyJitter(delay: real, random: real): real {
    delay + random * (delay * 0.25)
  }

  function PyBackoff(w: World<Wait>, attempt: nat): real {
    PyJitter(Capped(PY_BASE, PY_CAP, attempt), w.random(attempt))
  }

  // Any retryable status may carry the header; zero counts as absent. After a
  // wait that is no number nothing is slept.
  function PyDelay(w: World<Wait>, attempt: nat): real {
    match w.reply(attempt)
    case Response(_, Some(Seconds(value))) => if value != 0.0 then value else PyBackoff(w, attempt)
    case _ => PyBackoff(w, attempt)
  }

  predicate PyRetryable(reply: Reply<Wait>) {
    reply.NetworkError? || (reply.Response? && RetryableStatus(reply.status))
  }

  // A delay that time.sleep refuses.
  predicate Refused(wait: Wait) {
    wait.NotFinite? || wait.value < 0.0 || wait.value >= SLEEP_LIMIT
  }

  // A reply the client would wait for as long as it cannot.
  predicate UnusableWait(reply: Reply<Wait>) {
    reply.Response? && RetryableStatus(reply.status) && reply.retryAfter.Some? && Refused(reply.retryAfter.value)
  }

  function PyResult(reply: Reply<Wait>): Result {
    match reply
    case NetworkError => NetworkFailure
    case Broken => Raised
    case Response(status, _) => if Success(status) then Succeeded(status) else StatusError(status)
  }

  function PySlept(w: World<Wait>, n: nat): real {
    if n == 0 then 0.0 else PySlept(w, n - 1) + PyDelay(w, n - 1)
  }

  // As above; an unusable Retry-After on a reply that is not the last one allowed
  // ends the request with the exception of sleep instead of a retry. A success
  // whose body cannot be read raises too: here such a reply is Broken.
  method Request(w: World<Wait>, maxRetries: int) returns (result: Result, requests: nat, slept: real)
    requires Proper(w)
    ensures maxRetries < 0 <==> result == FellThrough
    ensures maxRetries < 0 ==> requests == 0
    ensures maxRetries >= 0 ==>
              && 1 <= requests <= maxRetries + 1
              && (forall k: nat | k < requests - 1 :: PyRetryable(w.reply(k)) && !UnusableWait(w.reply(k)))
              && var last := w.reply(requests - 1);
                 if UnusableWait(last) && requests <= maxRetries then result == Raised
                 else result == PyResult(last) && (!PyRetryable(last) || requests == maxRetries + 1)
    ensures forall k: nat | k < requests - 1 ::
              w.reply(k).NetworkError? || (w.reply(k).Response? && w.reply(k).status in {429, 500, 502, 503, 504})
    ensures requests > 0 && requests <= maxRetries && result != Raised ==>
              w.reply(requests - 1).Response? && w.reply(requests - 1).status !in {429, 500, 502, 503, 504}
    ensures requests > 0 && result != Raised ==>
              match w.reply(requests - 1)
              case Response(status, _) =>
                result == if 200 <= status <= 299 then Succeeded(status) else StatusError(status)
              case NetworkError => result == NetworkFailure
              case Broken => false
    ensures requests > 0 && w.reply(requests - 1).Response? ==>
              var last := w.reply(requests - 1);
              (result == Raised <==>
                 && requests <= maxRetries && last.status in {429, 500, 502, 503, 504} && last.retryAfter.Some?
                 && (last.retryAfter.value.NotFinite? || last.retryAfter.value.value < 0.0
                     || last.retryAfter.value.value >= 9223372036.854775808))
    ensures slept == PySlept(w, if requests > 0 then requests - 1 else 0)
  {
    requests, slept := 0, 0.0;
    for attempt := 0 to if maxRetries + 1 < 0 then 0 else maxRetries + 1
      invariant requests == attempt && slept == PySlept(w, attempt)
      invariant forall k: nat | k < attempt :: PyRetryable(w.reply(k)) && !UnusableWait(w.reply(k))
      invariant attempt == 0 || attempt <= maxRetries
    {
      var reply := w.reply(attempt);
      requests := requests + 1;
      PyBackoffBounds(w, attempt);
      match reply {
        case Broken => return Raised, requests, slept;
        case NetworkError =>
          if attempt >= maxRetries { return NetworkFailure, requests, slept; }
          slept := slept + PyBackoff(w, attempt);
        case Response(status, retryAfter) =>
          if Success(status) { return Succeeded(status), requests, slept; }
          if !(RetryableStatus(status) && attempt < maxRetries) { return StatusError(status), requests, slept; }
          var delay := if retryAfter.Some? && retryAfter.value != Seconds(0.0) then retryAfter.value
                       else Seconds(PyBackoff(w, attempt));
          if Refused(delay) { return Raised, requests, slept; }
          slept := slept + delay.value;
      }
    }
    result := FellThrough;
  }

  lemma PyBackoffBounds(w: World<Wait>, attempt: nat)
    requires Proper(w)
    ensures 0.0 <= Capped(PY_BASE, PY_CAP, attempt) <= PyBackoff(w, attempt) <= 1.25 * Capped(PY_BASE, PY_CAP, attempt)
  {
    DoubledGrows(PY_BASE, 0, attempt);
    PyJitterBounds(Capped(PY_BASE, PY_CAP, attempt), w.random(attempt));
  }

  lemma PyJitterBounds(delay: real, random: real)
    requires delay >= 0.0 && 0.0 <= random < 1.0
    ensures delay <= PyJitter(delay, random) <= 1.25 * delay
  {
    Scale(delay * 0.25, 0.0, random, 1.0);
  }

  // Without a usable Retry-After, n retries sleep at least the capped doubling
  // delays and at most a quarter more.
  lemma {:induction false} PySleepBounds(w: World<Wait>, n: nat)
    requires Proper(w)
    requires forall k: nat | k < n && w.reply(k).Response? :: w.reply(k).retryAfter in [None, Some(Seconds(0.0))]
    ensures CappedSum(PY_BASE, PY_CAP, n) <= PySlept(w, n) <= 1.25 * CappedSum(PY_BASE, PY_CAP, n)
    decreases n
  {
    if n > 0 {
      PySleepBounds(w, n - 1);
      PyBackoffBounds(w, n - 1);
    }
  }

  // How long the pause after a reply is. A client that is told how long waits for
  // that long: the TypeScript client by a 429 only, the Python client by any reply
  // that carries a number other than zero. Otherwise it is the capped doubling
  // delay, from a second and from half a second, times its random factor.
  lemma PausesAre(ts: World<real>, py: World<Wait>, n: nat)
    ensures var reply, pause := ts.reply(n), TsSlept(ts, n + 1) - TsSlept(ts, n);
            if reply.Response? && reply.status == 429 && reply.retryAfter.Some? then pause == reply.retryAfter.value
            else pause == Capped(1000.0, 30000.0, n) * (0.8 + 0.4 * ts.random(n))
    ensures var reply, pause := py.reply(n), PySlept(py, n + 1) - PySlept(py, n);
            if reply.Response? && reply.retryAfter.Some? && reply.retryAfter.value.Seconds?
               && reply.retryAfter.value.value != 0.0
            then pause == reply.retryAfter.value.value
            else pause == Capped(0.5, 30.0, n) * (1.0 + 0.25 * py.random(n))
  {
    PyFactor(Capped(0.5, 30.0, n), py.random(n));
    assert 1.0 + (ts.random(n) * 0.4 - 0.2) == 0.8 + 0.4 * ts.random(n);
  }

  lemma PyFactor(delay: real, random: real)
    ensures PyJitter(delay, random) == delay * (1.0 + 0.25 * random)
  {
  }

  // The two caps: five doublings of a second, six of half a second, and after
  // them 30 seconds each time.
  lemma {:induction false} CapsReached(n: nat)
    ensures CappedSum(TS_BASE, TS_CAP, n)
         == if n <= 5 then Doubled(1000.0, n) - 1000.0 else 31000.0 + Multiple(30000.0, n - 5)
    ensures CappedSum(PY_BASE, PY_CAP, n)
         == if n <= 6 then Doubled(0.5, n) - 0.5 else 31.5 + Multiple(30.0, n - 6)
  {
    assert Doubled(TS_BASE, 3) == 8000.0 && Doubled(TS_BASE, 5) == 32000.0;
    CappedSumClosedForm(TS_BASE, TS_CAP, 5, n);
    assert Doubled(PY_BASE, 2) == 2.0 && Doubled(PY_BASE, 4) == 8.0 && Doubled(PY_BASE, 6) == 32.0;
    CappedSumClosedForm(PY_BASE, PY_CAP, 6, n);
  }
}
