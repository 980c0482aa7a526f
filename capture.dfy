/** The policies of the in-page capture script (public/inject.js) as pure
    transition functions over value snapshots of their state: the circuit
    breaker, the rate limiter, the dispatch queue, the console throttler, the
    URL filter, the stringify truncation, the ignore filter and the bounded
    response-body reader. `Date.now()` is the explicit `now` parameter; a
    `setTimeout` is an armed deadline that a separate "timer fires"
    transition consumes. The class in CaptureRuntime runs these policies in
    place and is proved against the functions here. */
module Capture {
  import opened Base

  // Default configuration (public/inject.js:5-17).
  const MaxResponseSize: nat := 100 * 1024
  const MaxQueueSize: nat := 100
  const FlushInterval: int := 100
  const MaxMessagesPerFlush: nat := 10
  const RateLimitWindow: int := 1000
  const RateLimitPerUrl: nat := 5
  const RateLimitTotal: nat := 50
  const BreakerErrors: nat := 10
  const BreakerWindow: int := 5000
  const BreakerCooldown: int := 30000
  const ConsoleThrottleInterval: int := 50

  /** The envelope tag every posted message carries. */
  const Source: string := "taillog-extension"

  // ============================================================ events

  /** A captured event as the capture script builds it. */
  datatype Message =
    | ConsoleEvent(level: string, timestamp: string, payload: seq<string>)
    | NetworkEvent(url: string, httpMethod: string, statusCode: int,
                   requestBody: Option<string>, response: string, timestamp: string)

  /** What one flush hands to `postMessage`. */
  datatype Envelope =
    | Single(source: string, message: Message)
    | Batch(source: string, messages: seq<Message>)

  // ==================================================== circuit breaker

  /** `cooldownAt` is the instant at which the armed cooldown timer fires. */
  datatype Breaker = Breaker(errorCount: nat, lastCheck: int, isOpen: bool, cooldownAt: Option<int>)

  /** Exactly one cooldown timer is pending while the breaker is open, and a
      closed breaker has seen fewer errors than the threshold. */
  predicate BreakerInv(b: Breaker) {
    && (b.isOpen <==> b.cooldownAt.Some?)
    && (!b.isOpen ==> b.errorCount < BreakerErrors)
  }

  function InitialBreaker(now: int): (b: Breaker)
    ensures BreakerInv(b) && !b.isOpen && b.errorCount == 0
  {
    Breaker(0, now, false, None)
  }

  /** `open()`: arms the cooldown only when the breaker was closed. */
  function OpenBreaker(b: Breaker, now: int): (r: Breaker)
    ensures r.isOpen && r.errorCount == b.errorCount && r.lastCheck == b.lastCheck
    ensures b.isOpen ==> r == b
    ensures !b.isOpen ==> r.cooldownAt == Some(now + BreakerCooldown)
  {
    if b.isOpen then b else b.(isOpen := true, cooldownAt := Some(now + BreakerCooldown))
  }

  /** Opening an open breaker arms no second timer. */
  lemma OpenIdempotent(b: Breaker, t1: int, t2: int)
    ensures OpenBreaker(OpenBreaker(b, t1), t2) == OpenBreaker(b, t1)
  {
  }

  /** `recordError()`. */
  function RecordError(b: Breaker, now: int): (r: Breaker)
    ensures now - b.lastCheck > BreakerWindow ==> r.errorCount == 1 && r.lastCheck == now
    ensures now - b.lastCheck <= BreakerWindow ==> r.errorCount == b.errorCount + 1 && r.lastCheck == b.lastCheck
    ensures r.isOpen <==> b.isOpen || r.errorCount >= BreakerErrors
    ensures b.isOpen ==> r.cooldownAt == b.cooldownAt
    ensures !b.isOpen && r.isOpen ==> r.cooldownAt == Some(now + BreakerCooldown)
    ensures !r.isOpen ==> r.cooldownAt == b.cooldownAt
    ensures BreakerInv(b) ==> BreakerInv(r)
  {
    var windowed := if now - b.lastCheck > BreakerWindow then b.(errorCount := 0, lastCheck := now) else b;
    var counted := windowed.(errorCount := windowed.errorCount + 1);
    if counted.errorCount >= BreakerErrors then OpenBreaker(counted, now) else counted
  }

  /** The cooldown timer fires at `now`, no earlier than its deadline:
      capture resumes with a fresh count. */
  function CooldownElapsed(b: Breaker, now: int): (r: Breaker)
    requires b.cooldownAt.Some? && now >= b.cooldownAt.value
    ensures !r.isOpen && r.errorCount == 0 && r.cooldownAt.None? && r.lastCheck == b.lastCheck
    ensures BreakerInv(r)
  {
    b.(isOpen := false, errorCount := 0, cooldownAt := None)
  }

  function RecordErrors(b: Breaker, times: seq<int>): Breaker
    decreases |times|
  {
    if times == [] then b else RecordErrors(RecordError(b, times[0]), times[1..])
  }

  /** Errors reported within one window add up, and the breaker is open
      after them exactly when it was open or the count reached the threshold. */
  lemma {:induction false} ErrorsWithinWindow(b: Breaker, times: seq<int>)
    requires forall i :: 0 <= i < |times| ==> times[i] - b.lastCheck <= BreakerWindow
    ensures var r := RecordErrors(b, times);
            && r.errorCount == b.errorCount + |times|
            && r.lastCheck == b.lastCheck
            && (r.isOpen <==> b.isOpen || (|times| > 0 && r.errorCount >= BreakerErrors))
    decreases |times|
  {
    if times != [] {
      var b1 := RecordError(b, times[0]);
      ErrorsWithinWindow(b1, times[1..]);
      if b1.isOpen {
        assert RecordErrors(b1, times[1..]).isOpen;
      }
    }
  }

  /** Once an error trips a closed breaker at `now`, later errors keep it
      open with the same deadline, so it can only close through
      `CooldownElapsed`, at `now + BreakerCooldown` or later. */
  lemma {:induction false} TripHoldsForCooldown(b: Breaker, now: int, times: seq<int>)
    requires !b.isOpen && RecordError(b, now).isOpen
    ensures var r := RecordErrors(RecordError(b, now), times);
            r.isOpen && r.cooldownAt == Some(now + BreakerCooldown)
  {
    HeldOpen(RecordError(b, now), times);
  }

  lemma {:induction false} HeldOpen(b: Breaker, times: seq<int>)
    requires b.isOpen
    ensures RecordErrors(b, times).isOpen && RecordErrors(b, times).cooldownAt == b.cooldownAt
    decreases |times|
  {
    if times != [] {
      HeldOpen(RecordError(b, times[0]), times[1..]);
    }
  }

  /** Threshold-many errors within one window trip a fresh breaker, and one
      fewer leaves it closed. */
  lemma ThresholdTrips(now: int, times: seq<int>)
    requires forall i :: 0 <= i < |times| ==> times[i] - now <= BreakerWindow
    ensures |times| == BreakerErrors ==> RecordErrors(InitialBreaker(now), times).isOpen
    ensures |times| < BreakerErrors ==> !RecordErrors(InitialBreaker(now), times).isOpen
  {
    ErrorsWithinWindow(InitialBreaker(now), times);
  }

  // ======================================================== rate limiter

  datatype Limiter = Limiter(counts: map<string, nat>, windowStart: int, totalCount: nat)

  predicate LimiterInv(l: Limiter) {
    && l.totalCount <= RateLimitTotal
    && forall k :: k in l.counts ==> l.counts[k] <= RateLimitPerUrl
  }

  function InitialLimiter(now: int): (l: Limiter)
    ensures LimiterInv(l) && l.totalCount == 0 && l.counts == map[]
  {
    Limiter(map[], now, 0)
  }

  /** What a caller hands to `shouldAllow`: a string (the empty string also
      stands for `undefined` and `null`), or a truthy non-string value such
      as the `URL` object an `XMLHttpRequest.open` caller may pass, on which
      `split` throws. */
  datatype UrlArg = UrlText(text: string) | UrlObject

  /** The per-URL key: the URL before its first `?`; a missing URL is "unknown". */
  function UrlKey(url: string): (key: string)
    ensures url != "" ==> StartsWith(url, key) && '?' !in key
    ensures url != "" && |key| < |url| ==> url[|key|] == '?'
    ensures url != "" && '?' !in url ==> key == url
    ensures url == "" ==> key == "unknown"
  {
    if url == "" then "unknown" else BeforeFirst(url, '?')
  }

  function KeyCount(m: map<string, nat>, key: string): nat {
    if key in m then m[key] else 0
  }

  /** The state after the window check: wholesale reset once the window elapsed. */
  function Windowed(l: Limiter, now: int): (r: Limiter)
    ensures now - l.windowStart > RateLimitWindow ==> r == Limiter(map[], now, 0)
    ensures now - l.windowStart <= RateLimitWindow ==> r == l
  {
    if now - l.windowStart > RateLimitWindow then Limiter(map[], now, 0) else l
  }

  /** The per-URL key of an argument, or nothing when deriving it throws. */
  function KeyOf(url: UrlArg): Option<string> {
    if url.UrlText? then Some(UrlKey(url.text)) else None
  }

  /** `shouldAllow(url)`: the new limiter state and the admission verdict.
      When deriving the key throws, the exception is swallowed and the call
      is admitted on the global cap alone, without a per-key count. */
  function ShouldAllow(l: Limiter, breakerOpen: bool, url: UrlArg, now: int): (res: (Limiter, bool))
    ensures breakerOpen ==> res == (l, false)
    ensures !breakerOpen && url.UrlObject? ==>
              var w := Windowed(l, now);
              && (res.1 <==> w.totalCount < RateLimitTotal)
              && (!res.1 ==> res.0 == w)
              && (res.1 ==> res.0 == w.(totalCount := w.totalCount + 1))
    ensures !breakerOpen && url.UrlText? ==>
              var w := Windowed(l, now);
              var key := UrlKey(url.text);
              && (res.1 <==> w.totalCount < RateLimitTotal && KeyCount(w.counts, key) < RateLimitPerUrl)
              && (!res.1 ==> res.0 == w)
              && (res.1 ==> && res.0.windowStart == w.windowStart
                            && res.0.totalCount == w.totalCount + 1
                            && res.0.counts == w.counts[key := KeyCount(w.counts, key) + 1])
    ensures LimiterInv(l) ==> LimiterInv(res.0)
  {
    if breakerOpen then (l, false)
    else
      var w := Windowed(l, now);
      if w.totalCount >= RateLimitTotal then (w, false)
      else if url.UrlObject? then (w.(totalCount := w.totalCount + 1), true)
      else
        var key := UrlKey(url.text);
        var count := KeyCount(w.counts, key);
        if count >= RateLimitPerUrl then (w, false)
        else (w.(counts := w.counts[key := count + 1], totalCount := w.totalCount + 1), true)
  }

  datatype Call = Call(url: UrlArg, at: int)

  /** A run of admission requests while the breaker stays closed. */
  function RunLimiter(l: Limiter, calls: seq<Call>): (res: (Limiter, seq<bool>))
    ensures |res.1| == |calls|
    decreases |calls|
  {
    if calls == [] then (l, [])
    else
      var (l1, ok) := ShouldAllow(l, false, calls[0].url, calls[0].at);
      var (l2, oks) := RunLimiter(l1, calls[1..]);
      (l2, [ok] + oks)
  }

  function Admitted(oks: seq<bool>): nat {
    if oks == [] then 0 else (if oks[0] then 1 else 0) + Admitted(oks[1..])
  }

  /** Admissions of calls whose key is `key`. */
  function AdmittedFor(calls: seq<Call>, oks: seq<bool>, key: string): nat
    requires |oks| == |calls|
  {
    if calls == [] then 0
    else (if oks[0] && KeyOf(calls[0].url) == Some(key) then 1 else 0) + AdmittedFor(calls[1..], oks[1..], key)
  }

  predicate WithinWindow(l: Limiter, calls: seq<Call>) {
    forall i :: 0 <= i < |calls| ==> calls[i].at - l.windowStart <= RateLimitWindow
  }

  /** Within one window, the admissions add up in `totalCount`, which never
      passes the global cap. */
  lemma {:induction false} GlobalCap(l: Limiter, calls: seq<Call>)
    requires LimiterInv(l) && WithinWindow(l, calls)
    ensures var (l', oks) := RunLimiter(l, calls);
            && l'.windowStart == l.windowStart
            && l'.totalCount == l.totalCount + Admitted(oks)
            && l'.totalCount <= RateLimitTotal
    decreases |calls|
  {
    if calls != [] {
      var (l1, ok) := ShouldAllow(l, false, calls[0].url, calls[0].at);
      GlobalCap(l1, calls[1..]);
    }
  }

  /** Within one window, the admissions of one key add up in its count,
      which never passes the per-key cap. */
  lemma {:induction false} PerKeyCap(l: Limiter, calls: seq<Call>, key: string)
    requires LimiterInv(l) && WithinWindow(l, calls)
    ensures var (l', oks) := RunLimiter(l, calls);
            && KeyCount(l'.counts, key) == KeyCount(l.counts, key) + AdmittedFor(calls, oks, key)
            && KeyCount(l'.counts, key) <= RateLimitPerUrl
    decreases |calls|
  {
    if calls != [] {
      var (l1, ok) := ShouldAllow(l, false, calls[0].url, calls[0].at);
      PerKeyCap(l1, calls[1..], key);
    }
  }

  function SameUrl(url: string, times: seq<int>): (calls: seq<Call>)
    ensures |calls| == |times|
    ensures forall i :: 0 <= i < |times| ==> calls[i] == Call(UrlText(url), times[i])
  {
    seq(|times|, i requires 0 <= i < |times| => Call(UrlText(url), times[i]))
  }

  /** A burst of calls to one URL when only that URL has been admitted in
      the window: exactly as many are admitted as its per-key budget allows. */
  lemma {:induction false} BurstOfOneUrl(l: Limiter, url: string, times: seq<int>)
    requires LimiterInv(l)
    requires forall i :: 0 <= i < |times| ==> times[i] - l.windowStart <= RateLimitWindow
    requires l.totalCount == KeyCount(l.counts, UrlKey(url))
    ensures Admitted(RunLimiter(l, SameUrl(url, times)).1)
            == Min(|times|, RateLimitPerUrl - KeyCount(l.counts, UrlKey(url)))
    decreases |times|
  {
    if times != [] {
      var calls := SameUrl(url, times);
      var (l1, ok) := ShouldAllow(l, false, UrlText(url), times[0]);
      assert calls[1..] == SameUrl(url, times[1..]);
      BurstOfOneUrl(l1, url, times[1..]);
    }
  }

  /** Ten rapid calls to one URL in a fresh window yield exactly five admissions. */
  lemma TenCallsFiveAdmitted(now: int, url: string, times: seq<int>)
    requires |times| == 10
    requires forall i :: 0 <= i < |times| ==> times[i] - now <= RateLimitWindow
    ensures Admitted(RunLimiter(InitialLimiter(now), SameUrl(url, times)).1) == 5
  {
    BurstOfOneUrl(InitialLimiter(now), url, times);
  }

  // ===================================================== dispatch queue

  /** The queue with its flush bookkeeping. `flushAt` is the instant at which
      the single pending flush timer fires; `posted` is everything handed to
      `postMessage` so far, in order. */
  datatype Dispatch = Dispatch(queue: seq<Message>, lastFlush: int, flushAt: Option<int>, posted: seq<Envelope>)

  const InitialDispatch := Dispatch([], 0, None, [])

  /** Appending to the bounded FIFO: at capacity the oldest entry is dropped. */
  function Enqueue(q: seq<Message>, m: Message): (r: seq<Message>)
    ensures |r| > 0 && r[|r| - 1] == m
    ensures |q| < MaxQueueSize ==> r == q + [m]
    ensures |q| >= MaxQueueSize ==> r == q[1..] + [m]
    ensures |q| <= MaxQueueSize ==> |r| <= MaxQueueSize && r == LastN(q + [m], MaxQueueSize)
  {
    if |q| >= MaxQueueSize then q[1..] + [m] else q + [m]
  }

  /** The envelope for one drained batch: nothing, the bare message, or a batch. */
  function Package(batch: seq<Message>): (e: Option<Envelope>)
    ensures batch == [] <==> e.None?
    ensures |batch| == 1 ==> e == Some(Single(Source, batch[0]))
    ensures |batch| > 1 ==> e == Some(Batch(Source, batch))
  {
    if batch == [] then None
    else if |batch| == 1 then Some(Single(Source, batch[0]))
    else Some(Batch(Source, batch))
  }

  /** The messages an envelope carries. */
  function Unpack(e: Envelope): seq<Message> {
    match e
    case Single(_, m) => [m]
    case Batch(_, ms) => ms
  }

  function Delivered(posted: seq<Envelope>): seq<Message> {
    if posted == [] then [] else Unpack(posted[0]) + Delivered(posted[1..])
  }

  lemma {:induction false} DeliveredAppend(posted: seq<Envelope>, e: Envelope)
    ensures Delivered(posted + [e]) == Delivered(posted) + Unpack(e)
    decreases |posted|
  {
    if posted == [] {
      assert [e][1..] == [];
    } else {
      assert (posted + [e])[1..] == posted[1..] + [e];
      DeliveredAppend(posted[1..], e);
    }
  }

  /** Packaging loses and reorders nothing: unpacking gives the batch back. */
  lemma PackageRoundTrip(batch: seq<Message>)
    requires batch != []
    ensures Package(batch).Some? && Unpack(Package(batch).value) == batch
  {
    if |batch| == 1 {
      assert batch == [batch[0]];
    }
  }

  /** `flush()`: drains at most `MaxMessagesPerFlush` entries from the front. */
  function Flush(d: Dispatch, now: int): (r: Dispatch)
    ensures r.lastFlush == now && r.flushAt == d.flushAt
    ensures var n := Min(|d.queue|, MaxMessagesPerFlush);
            && d.queue == d.queue[..n] + r.queue
            && |r.queue| == |d.queue| - n
            && r.posted == d.posted + (if n == 0 then [] else [Package(d.queue[..n]).value])
  {
    var n := Min(|d.queue|, MaxMessagesPerFlush);
    var batch := d.queue[..n];
    var posted := match Package(batch)
                  case None => d.posted
                  case Some(e) => d.posted + [e];
    assert d.queue == batch + d.queue[n..];
    d.(lastFlush := now, queue := d.queue[n..], posted := posted)
  }

  /** A flush hands on exactly the drained front of the queue, in order. */
  lemma FlushDelivers(d: Dispatch, now: int)
    ensures var r := Flush(d, now);
            Delivered(r.posted) == Delivered(d.posted) + d.queue[..|d.queue| - |Flush(d, now).queue|]
  {
    var batch := d.queue[..Min(|d.queue|, MaxMessagesPerFlush)];
    if batch != [] {
      PackageRoundTrip(batch);
      DeliveredAppend(d.posted, Package(batch).value);
    }
  }

  /** `scheduleFlush()`: at most one pending timer; flush now when the
      interval has elapsed, else arm the timer for the rest of it. */
  function ScheduleFlush(d: Dispatch, now: int): (r: Dispatch)
    ensures d.flushAt.Some? ==> r == d
    ensures d.flushAt.None? && now - d.lastFlush >= FlushInterval ==> r == Flush(d, now)
    ensures d.flushAt.None? && now - d.lastFlush < FlushInterval ==>
              r == d.(flushAt := Some(now + (FlushInterval - (now - d.lastFlush))))
  {
    if d.flushAt.Some? then d
    else if now - d.lastFlush >= FlushInterval then Flush(d, now)
    else d.(flushAt := Some(now + (FlushInterval - (now - d.lastFlush))))
  }

  /** The pending flush timer fires at `now`, no earlier than its
      deadline: it is cleared, then the queue flushes. */
  function FlushTimerFires(d: Dispatch, now: int): (r: Dispatch)
    requires d.flushAt.Some? && now >= d.flushAt.value
    ensures r == Flush(d.(flushAt := None), now) && r.flushAt.None?
  {
    Flush(d.(flushAt := None), now)
  }

  /** `add(message)`: a no-op while the breaker is open. */
  function Add(d: Dispatch, breakerOpen: bool, m: Message, now: int): (r: Dispatch)
    ensures breakerOpen ==> r == d
    ensures !breakerOpen ==> r == ScheduleFlush(d.(queue := Enqueue(d.queue, m)), now)
  {
    if breakerOpen then d else ScheduleFlush(d.(queue := Enqueue(d.queue, m)), now)
  }

  /** The queue stays within capacity through every transition. */
  lemma QueueBounded(d: Dispatch, breakerOpen: bool, m: Message, now: int)
    requires |d.queue| <= MaxQueueSize
    ensures |Add(d, breakerOpen, m, now).queue| <= MaxQueueSize
    ensures |Flush(d, now).queue| <= MaxQueueSize
  {
  }

  /** Two messages added within one flush interval produce exactly one
      scheduled flush: the first arms the timer, the second reuses it, and
      neither posts anything. */
  lemma AddsCoalesce(d: Dispatch, m1: Message, m2: Message, t1: int, t2: int)
    requires d.flushAt.None? && t1 - d.lastFlush < FlushInterval
    ensures var d1 := Add(d, false, m1, t1);
            var d2 := Add(d1, false, m2, t2);
            && d1.flushAt == Some(d.lastFlush + FlushInterval)
            && d2.flushAt == d1.flushAt
            && d2.posted == d1.posted == d.posted
            && d2.queue == Enqueue(Enqueue(d.queue, m1), m2)
  {
  }

  function FlushTimes(d: Dispatch, times: seq<int>): Dispatch
    decreases |times|
  {
    if times == [] then d else FlushTimes(Flush(d, times[0]), times[1..])
  }

  /** Repeated flushes deliver the queue front to back, `MaxMessagesPerFlush`
      at a time, and keep the rest queued in order. */
  lemma {:induction false} FlushesDeliverInOrder(d: Dispatch, times: seq<int>)
    ensures var r := FlushTimes(d, times);
            var n := Min(|d.queue|, |times| * MaxMessagesPerFlush);
            && Delivered(r.posted) == Delivered(d.posted) + d.queue[..n]
            && r.queue == d.queue[n..]
    decreases |times|
  {
    if times != [] {
      var d1 := Flush(d, times[0]);
      FlushDelivers(d, times[0]);
      FlushesDeliverInOrder(d1, times[1..]);
      var k := Min(|d.queue|, MaxMessagesPerFlush);
      var n := Min(|d.queue|, |times| * MaxMessagesPerFlush);
      var n1 := Min(|d.queue| - k, (|times| - 1) * MaxMessagesPerFlush);
      FlushCounts(|d.queue|, |times|);
      assert k + n1 == n;
      var r := FlushTimes(d1, times[1..]);
      assert FlushTimes(d, times) == r;
      assert d1.queue == d.queue[k..];
      FrontsJoin(d.queue, k, n1);
      calc {
        Delivered(r.posted);
        Delivered(d1.posted) + d1.queue[..n1];
        (Delivered(d.posted) + d.queue[..k]) + d.queue[k..][..n1];
        Delivered(d.posted) + (d.queue[..k] + d.queue[k..][..n1]);
        Delivered(d.posted) + d.queue[..n];
      }
      assert r.queue == d.queue[n..];
    }
  }

  /** One flush of `MaxMessagesPerFlush` followed by `rounds - 1` more
      drains as much as `rounds` flushes counted at once. */
  lemma FlushCounts(len: nat, rounds: nat)
    requires rounds >= 1
    ensures var k := Min(len, MaxMessagesPerFlush);
            k + Min(len - k, (rounds - 1) * MaxMessagesPerFlush) == Min(len, rounds * MaxMessagesPerFlush)
  {
    assert rounds * MaxMessagesPerFlush == (rounds - 1) * MaxMessagesPerFlush + MaxMessagesPerFlush;
  }

  lemma FrontsJoin<T>(q: seq<T>, k: nat, n1: nat)
    requires k + n1 <= |q|
    ensures q[..k] + q[k..][..n1] == q[..k + n1]
    ensures q[k..][n1..] == q[k + n1..]
  {
  }

  // ==================================================== console throttle

  function LastLog(m: map<string, int>, level: string): int {
    if level in m then m[level] else 0
  }

  /** `shouldLog(level)`: one admission per level per throttle interval. */
  function ShouldLog(m: map<string, int>, level: string, now: int): (res: (map<string, int>, bool))
    ensures res.1 <==> now - LastLog(m, level) >= ConsoleThrottleInterval
    ensures res.1 ==> res.0 == m[level := now]
    ensures !res.1 ==> res.0 == m
  {
    if now - LastLog(m, level) < ConsoleThrottleInterval then (m, false) else (m[level := now], true)
  }

  datatype LogCall = LogCall(level: string, at: int)

  function RunThrottle(m: map<string, int>, calls: seq<LogCall>): (res: (map<string, int>, seq<bool>))
    ensures |res.1| == |calls|
    decreases |calls|
  {
    if calls == [] then (m, [])
    else
      var (m1, ok) := ShouldLog(m, calls[0].level, calls[0].at);
      var (m2, oks) := RunThrottle(m1, calls[1..]);
      (m2, [ok] + oks)
  }

  /** Once a level was admitted at `t`, no call of that level is admitted
      before `t + ConsoleThrottleInterval`, whatever other levels log in between. */
  lemma {:induction false} ThrottleSpacing(m: map<string, int>, level: string, t: int, calls: seq<LogCall>)
    requires LastLog(m, level) == t
    requires forall i :: 0 <= i < |calls| ==> calls[i].at < t + ConsoleThrottleInterval
    ensures var (m', oks) := RunThrottle(m, calls);
            && LastLog(m', level) == t
            && forall i :: 0 <= i < |calls| && calls[i].level == level ==> !oks[i]
    decreases |calls|
  {
    if calls != [] {
      var (m1, ok) := ShouldLog(m, calls[0].level, calls[0].at);
      ThrottleSpacing(m1, level, t, calls[1..]);
      var (m2, oks) := RunThrottle(m1, calls[1..]);
      assert RunThrottle(m, calls).1 == [ok] + oks;
      forall i | 0 <= i < |calls| && calls[i].level == level
        ensures !RunThrottle(m, calls).1[i]
      {
        if i > 0 {
          assert calls[1..][i - 1] == calls[i];
        }
      }
    }
  }

  // ========================================================== URL filter

  /** A simplified reading of the regular expressions the filter uses, over
      the lower-cased URL (all of them carry the `i` flag). */
  datatype Pattern =
    | Extension(exts: seq<string>)   // `\.(e1|e2|…)(\?.*)?$`
    | Fragment(text: string)         // a literal such as `\/api\/`
    | VersionSegment                 // `\/v\d+\/`

  predicate ExtensionAt(u: string, ext: string, i: int) {
    && OccursAt(u, "." + ext, i)
    && (i + |ext| + 1 == |u| || u[i + |ext| + 1] == '?')
  }

  predicate DigitsBetween(u: string, lo: int, hi: int)
    requires 0 <= lo <= hi <= |u|
  {
    forall j | lo <= j < hi :: IsDigit(u[j])
  }

  predicate VersionAt(u: string, i: int, j: int) {
    && OccursAt(u, "/v", i)
    && i + 2 < j < |u|
    && DigitsBetween(u, i + 2, j)
    && u[j] == '/'
  }

  predicate Matches(p: Pattern, url: string) {
    var u := Lower(url);
    match p
    case Extension(exts) => exists e, i | e in exts && 0 <= i <= |u| :: ExtensionAt(u, e, i)
    case Fragment(text) => Contains(u, text)
    case VersionSegment => exists i, j | 0 <= i < |u| && 0 <= j < |u| :: VersionAt(u, i, j)
  }

  /** Static assets, analytics beacons, dev-server traffic and bundles. */
  const Blacklist: seq<Pattern> := [
    Extension(["png", "jpg", "jpeg", "gif", "webp", "svg", "ico", "bmp", "tif", "tiff"]),
    Extension(["woff", "woff2", "ttf", "eot", "otf"]),
    Extension(["css", "less", "scss", "sass"]),
    Extension(["mp3", "mp4", "webm", "ogg", "wav", "avi", "mov"]),
    Extension(["pdf", "doc", "docx", "xls", "xlsx", "ppt", "pptx"]),
    Fragment("/sockjs-node/"),
    Fragment("/hot-update."),
    Fragment("/webpack-hmr"),
    Fragment("/__webpack_hmr"),
    Fragment("/socket.io/"),
    Fragment("google-analytics.com"),
    Fragment("googletagmanager.com"),
    Fragment("facebook.com/tr"),
    Fragment("doubleclick.net"),
    Extension(["chunk.js"]),
    Extension(["bundle.js"]),
    Extension(["min.js"])
  ]

  /** API-shaped paths. */
  const Whitelist: seq<Pattern> := [
    Fragment("/api/"),
    Fragment("/graphql"),
    Fragment("/rest/"),
    VersionSegment
  ]

  /** The outcome of testing one pattern: it matched, it did not, or the
      test threw. */
  datatype Verdict = Hit | Miss | Fault

  /** The whitelist loop: the first pattern that does not simply miss ends
      the decision in favour of capture (a hit returns true, a throw is
      caught and also returns true). */
  function ScanWhitelist(ps: seq<Pattern>, url: string, test: (Pattern, string) -> Verdict): (stop: bool)
    ensures stop <==> exists p :: p in ps && test(p, url) != Miss
  {
    if ps == [] then false
    else if test(ps[0], url) != Miss then true
    else ScanWhitelist(ps[1..], url, test)
  }

  /** The blacklist loop: the verdict of the first pattern that does not miss. */
  function ScanBlacklist(ps: seq<Pattern>, url: string, test: (Pattern, string) -> Verdict): (v: Verdict)
    ensures v == Miss <==> forall p :: p in ps ==> test(p, url) == Miss
    ensures v == Hit ==> exists p :: p in ps && test(p, url) == Hit
    ensures (forall p :: p in ps ==> test(p, url) != Fault) ==>
              (v == Hit <==> exists p :: p in ps && test(p, url) == Hit)
  {
    if ps == [] then Miss
    else if test(ps[0], url) != Miss then
      assert ps[0] in ps;
      assert (forall p :: p in ps ==> test(p, url) != Fault) ==> test(ps[0], url) == Hit;
      test(ps[0], url)
    else
      assert forall p :: p in ps[1..] ==> p in ps;
      ScanBlacklist(ps[1..], url, test)
  }

  /** `shouldCapture(url)` for any pattern lists and any way of testing them. */
  function Decide(url: string, white: seq<Pattern>, black: seq<Pattern>,
                  test: (Pattern, string) -> Verdict): (capture: bool)
    ensures url == "" ==> !capture
    ensures url != "" && (exists p :: p in white && test(p, url) == Hit) ==> capture
    ensures !capture && url != "" ==> exists p :: p in black && test(p, url) == Hit
    ensures url != "" && (forall p :: p in black ==> test(p, url) != Hit) ==> capture
  {
    if url == "" then false
    else if ScanWhitelist(white, url, test) then true
    else ScanBlacklist(black, url, test) != Hit
  }

  function RegexTest(p: Pattern, url: string): Verdict {
    if Matches(p, url) then Hit else Miss
  }

  /** The filter with the script's own lists. */
  function ShouldCapture(url: string): bool {
    Decide(url, Whitelist, Blacklist, RegexTest)
  }

  /** With tests that never throw, the decision is: a non-empty URL that
      matches an allow-list pattern, or that matches no deny-list pattern. */
  lemma DecideWithoutFaults(url: string, white: seq<Pattern>, black: seq<Pattern>,
                            test: (Pattern, string) -> Verdict)
    requires forall p :: test(p, url) != Fault
    ensures Decide(url, white, black, test) <==>
              url != "" && ((exists p :: p in white && test(p, url) == Hit)
                            || forall p :: p in black ==> test(p, url) != Hit)
  {
  }

  /** A test that throws on an allow-list pattern, or on the first deny-list
      pattern that does not miss, fails open. */
  lemma FaultFailsOpen(url: string, white: seq<Pattern>, black: seq<Pattern>,
                       test: (Pattern, string) -> Verdict)
    requires url != ""
    requires (exists p :: p in white && test(p, url) == Fault) || ScanBlacklist(black, url, test) == Fault
    ensures Decide(url, white, black, test)
  {
  }

  /** The concrete filter, stated over the pattern semantics. */
  lemma ShouldCaptureIff(url: string)
    ensures ShouldCapture(url) <==>
              url != "" && ((exists p :: p in Whitelist && Matches(p, url))
                            || forall p :: p in Blacklist ==> !Matches(p, url))
  {
    DecideWithoutFaults(url, Whitelist, Blacklist, RegexTest);
  }

  // ====================================================== text helpers

  /** What `JSON.stringify` produced: text, `undefined`, or a throw. */
  datatype Rendering = Rendered(text: Option<string>) | Threw

  const TruncationMarker: string := "...[Truncated]"

  /** The truncation wrapper of `safeStringify`. */
  function SafeStringify(r: Rendering, maxLength: nat := 10000): (out: Option<string>)
    ensures r.Threw? ==> out == Some("[Stringify Error]")
    ensures r.Rendered? && r.text.Some? && |r.text.value| > maxLength ==>
              out == Some(r.text.value[..maxLength] + TruncationMarker)
    ensures r.Rendered? && (r.text.None? || |r.text.value| <= maxLength) ==> out == r.text
  {
    match r
    case Threw => Some("[Stringify Error]")
    case Rendered(text) =>
      if text.Some? && |text.value| > maxLength then Some(text.value[..maxLength] + TruncationMarker)
      else text
  }

  /** The output never exceeds the ceiling plus the marker, and keeps the
      rendered text's leading part unchanged. */
  lemma SafeStringifyBounded(text: string, maxLength: nat)
    ensures var out := SafeStringify(Rendered(Some(text)), maxLength).value;
            && |out| <= maxLength + |TruncationMarker|
            && (|text| > maxLength <==> |out| == maxLength + |TruncationMarker|)
            && out[..Min(|text|, maxLength)] == text[..Min(|text|, maxLength)]
  {
  }

  const IgnoreMarkers: seq<string> := ["chrome-extension://", "moz-extension://", "[HMR]", "[vite]", "[Taillog]"]

  /** `shouldIgnore(str)`: empty text, or text from extensions, hot reload or
      the capture script itself. */
  function ShouldIgnore(s: string): (ignore: bool)
    ensures ignore <==> s == "" || exists mk :: mk in IgnoreMarkers && Contains(s, mk)
  {
    || s == ""
    || Contains(s, "chrome-extension://")
    || Contains(s, "moz-extension://")
    || Contains(s, "[HMR]")
    || Contains(s, "[vite]")
    || Contains(s, "[Taillog]")
  }

  /** More text around ignored text is still ignored. */
  lemma IgnoreSurvivesExtension(s: string, before: string, after: string)
    requires s != "" && ShouldIgnore(s)
    ensures ShouldIgnore(before + s + after)
  {
    var mk :| mk in IgnoreMarkers && Contains(s, mk);
    ContainsExtended(s, mk, before, after);
  }

  // ================================================== response body read

  newtype byte = x: int | 0 <= x < 256

  /** One `reader.read()`: a chunk, or a rejected read. Reaching the end of
      the sequence is `done`. */
  datatype ReadStep = Chunk(bytes: seq<byte>) | ReadFault

  /** What the capture keeps of a response. The two text variants stand for
      the decoded bytes, the second followed by the truncation marker. */
  datatype BodyCapture =
    | BinarySkipped
    | TooLarge(declared: int)
    | CloneFailed
    | NoBody
    | Complete(bytes: seq<byte>)
    | TruncatedBody(bytes: seq<byte>)
    | ReadError

  function Prefixed(v: seq<byte>, c: BodyCapture): BodyCapture {
    match c
    case Complete(b) => Complete(v + b)
    case TruncatedBody(b) => TruncatedBody(v + b)
    case _ => c
  }

  /** The read loop with `budget` bytes still allowed. */
  function ReadStream(stream: seq<ReadStep>, budget: nat): BodyCapture
    decreases |stream|
  {
    if stream == [] then Complete([])
    else match stream[0]
      case ReadFault => ReadError
      case Chunk(v) =>
        if |v| > budget then TruncatedBody(v[..budget])
        else Prefixed(v, ReadStream(stream[1..], budget - |v|))
  }

  function Data(stream: seq<ReadStep>): seq<byte>
    decreases |stream|
  {
    if stream == [] then []
    else match stream[0]
      case ReadFault => Data(stream[1..])
      case Chunk(v) => v + Data(stream[1..])
  }

  predicate NoFaults(stream: seq<ReadStep>) {
    forall i :: 0 <= i < |stream| ==> stream[i].Chunk?
  }

  /** Without read faults the reader keeps the whole body when it fits the
      budget, and exactly the first `budget` bytes of it otherwise. */
  lemma {:induction false} ReadWithinBudget(stream: seq<ReadStep>, budget: nat)
    requires NoFaults(stream)
    ensures var all := Data(stream);
            ReadStream(stream, budget) == if |all| <= budget then Complete(all) else TruncatedBody(all[..budget])
    decreases |stream|
  {
    if stream != [] {
      var v := stream[0].bytes;
      assert NoFaults(stream[1..]) by {
        forall i | 0 <= i < |stream[1..]| ensures stream[1..][i].Chunk? {
          assert stream[1..][i] == stream[i + 1];
        }
      }
      if |v| <= budget {
        ReadWithinBudget(stream[1..], budget - |v|);
        var rest := Data(stream[1..]);
        if |rest| > budget - |v| {
          assert (v + rest)[..budget] == v + rest[..budget - |v|];
        }
      } else {
        assert (v + Data(stream[1..]))[..budget] == v[..budget];
      }
    }
  }

  /** The content types the reader treats as text (`includes` is case sensitive). */
  predicate IsTextBased(contentType: string) {
    || Contains(contentType, "json")
    || Contains(contentType, "xml")
    || Contains(contentType, "text/plain")
    || Contains(contentType, "text/html")
    || Contains(contentType, "javascript")
  }

  /** The response as the reader sees it. `declaredLength` is the parsed
      `content-length` header when it is present and numeric. */
  datatype ResponseView = ResponseView(
    contentType: Option<string>,
    declaredLength: Option<int>,
    cloneFails: bool,
    hasBody: bool,
    stream: seq<ReadStep>)

  /** The final text of a captured body, with decoding and size formatting
      supplied by the caller. */
  function BodyText(c: BodyCapture, decode: seq<byte> -> string, formatSize: int -> string): (s: string)
    ensures c.TruncatedBody? ==> s == decode(c.bytes) + "\n...[Truncated at 100KB]"
    ensures c.Complete? ==> s == decode(c.bytes)
  {
    match c
    case BinarySkipped => "[Binary/Skipped]"
    case TooLarge(n) => "[Too large: " + formatSize(n) + "]"
    case CloneFailed => "[Clone failed]"
    case NoBody => "[No body]"
    case Complete(b) => decode(b)
    case TruncatedBody(b) => decode(b) + "\n...[Truncated at 100KB]"
    case ReadError => "[Error reading response]"
  }
}
