/** The capture script's mutable state, run in place: one context object
    holds the circuit breaker, the rate limiter, the dispatch queue and the
    console throttler fields (public/inject.js:86-271), and every method is
    proved to move that state exactly as the corresponding transition of
    module Capture does. The bounded response-body read loop is a method
    proved against Capture.ReadStream. */
module CaptureRuntime {
  import opened Base
  import opened Capture

  class CaptureContext {
    // CircuitBreaker
    var errorCount: nat
    var lastCheck: int
    var isOpen: bool
    var cooldownAt: Option<int>
    // RateLimiter
    var counts: map<string, nat>
    var windowStart: int
    var totalCount: nat
    // MessageQueue
    var queue: seq<Message>
    var lastFlush: int
    var flushAt: Option<int>
    var posted: seq<Envelope>
    // ConsoleThrottler
    var lastLogTime: map<string, int>

    function BreakerState(): Breaker
      reads this
    {
      Breaker(errorCount, lastCheck, isOpen, cooldownAt)
    }

    function LimiterState(): Limiter
      reads this
    {
      Limiter(counts, windowStart, totalCount)
    }

    function DispatchState(): Dispatch
      reads this
    {
      Dispatch(queue, lastFlush, flushAt, posted)
    }

    predicate Valid()
      reads this
    {
      && BreakerInv(BreakerState())
      && LimiterInv(LimiterState())
      && |queue| <= MaxQueueSize
    }

    /** The script starts with a closed breaker and a fresh limiter window
        at load time, an empty queue and `lastFlush = 0`. */
    constructor (now: int)
      ensures Valid()
      ensures BreakerState() == InitialBreaker(now)
      ensures LimiterState() == InitialLimiter(now)
      ensures DispatchState() == InitialDispatch
      ensures lastLogTime == map[]
    {
      errorCount, lastCheck, isOpen, cooldownAt := 0, now, false, None;
      counts, windowStart, totalCount := map[], now, 0;
      queue, lastFlush, flushAt, posted := [], 0, None, [];
      lastLogTime := map[];
    }

    function CanProceed(): (ok: bool)
      reads this
      ensures ok <==> !BreakerState().isOpen
    {
      !isOpen
    }

    /** `open()`. It runs inside `RecordError` after the count has been
        raised, so it asks for everything in `Valid` except the bound on the
        count of a closed breaker, which opening makes irrelevant. */
    method Open(now: int)
      requires (isOpen <==> cooldownAt.Some?) && LimiterInv(LimiterState()) && |queue| <= MaxQueueSize
      modifies this
      ensures Valid()
      ensures BreakerState() == OpenBreaker(old(BreakerState()), now)
      ensures LimiterState() == old(LimiterState()) && DispatchState() == old(DispatchState())
      ensures lastLogTime == old(lastLogTime)
    {
      if isOpen {
        return;
      }
      isOpen := true;
      cooldownAt := Some(now + BreakerCooldown);
    }

    method RecordError(now: int)
      requires Valid()
      modifies this
      ensures Valid()
      ensures BreakerState() == Capture.RecordError(old(BreakerState()), now)
      ensures LimiterState() == old(LimiterState()) && DispatchState() == old(DispatchState())
      ensures lastLogTime == old(lastLogTime)
    {
      if now - lastCheck > BreakerWindow {
        errorCount := 0;
        lastCheck := now;
      }
      errorCount := errorCount + 1;
      if errorCount >= BreakerErrors {
        Open(now);
      }
    }

    /** The cooldown timer armed by `Open` fires at `now`, no earlier than
        its deadline. */
    method CooldownFires(now: int)
      requires Valid() && cooldownAt.Some? && now >= cooldownAt.value
      modifies this
      ensures Valid()
      ensures BreakerState() == CooldownElapsed(old(BreakerState()), now)
      ensures LimiterState() == old(LimiterState()) && DispatchState() == old(DispatchState())
      ensures lastLogTime == old(lastLogTime)
    {
      isOpen := false;
      errorCount := 0;
      cooldownAt := None;
    }

    method ShouldAllow(url: UrlArg, now: int) returns (ok: bool)
      requires Valid()
      modifies this
      ensures Valid()
      ensures (LimiterState(), ok) == Capture.ShouldAllow(old(LimiterState()), old(isOpen), url, now)
      ensures BreakerState() == old(BreakerState()) && DispatchState() == old(DispatchState())
      ensures lastLogTime == old(lastLogTime)
    {
      if !CanProceed() {
        return false;
      }
      if now - windowStart > RateLimitWindow {
        counts := map[];
        totalCount := 0;
        windowStart := now;
      }
      if totalCount >= RateLimitTotal {
        return false;
      }
      if url.UrlText? {
        var key := UrlKey(url.text);
        var count := KeyCount(counts, key);
        if count >= RateLimitPerUrl {
          return false;
        }
        counts := counts[key := count + 1];
      }
      totalCount := totalCount + 1;
      ok := true;
    }

    method Flush(now: int)
      requires Valid()
      modifies this
      ensures Valid()
      ensures DispatchState() == Capture.Flush(old(DispatchState()), now)
      ensures BreakerState() == old(BreakerState()) && LimiterState() == old(LimiterState())
      ensures lastLogTime == old(lastLogTime)
    {
      lastFlush := now;
      var n := Min(|queue|, MaxMessagesPerFlush);
      var batch := queue[..n];
      queue := queue[n..];
      if |batch| == 0 {
        return;
      }
      if |batch| == 1 {
        posted := posted + [Single(Source, batch[0])];
      } else {
        posted := posted + [Batch(Source, batch)];
      }
    }

    method ScheduleFlush(now: int)
      requires Valid()
      modifies this
      ensures Valid()
      ensures DispatchState() == Capture.ScheduleFlush(old(DispatchState()), now)
      ensures BreakerState() == old(BreakerState()) && LimiterState() == old(LimiterState())
      ensures lastLogTime == old(lastLogTime)
    {
      if flushAt.Some? {
        return;
      }
      var elapsed := now - lastFlush;
      if elapsed >= FlushInterval {
        Flush(now);
      } else {
        flushAt := Some(now + (FlushInterval - elapsed));
      }
    }

    /** The pending flush timer fires at `now`, no earlier than its deadline. */
    method FlushTimerFires(now: int)
      requires Valid() && flushAt.Some? && now >= flushAt.value
      modifies this
      ensures Valid()
      ensures DispatchState() == Capture.FlushTimerFires(old(DispatchState()), now)
      ensures flushAt.None?
      ensures BreakerState() == old(BreakerState()) && LimiterState() == old(LimiterState())
      ensures lastLogTime == old(lastLogTime)
    {
      flushAt := None;
      Flush(now);
    }

    method Add(m: Message, now: int)
      requires Valid()
      modifies this
      ensures Valid()
      ensures DispatchState() == Capture.Add(old(DispatchState()), old(isOpen), m, now)
      ensures BreakerState() == old(BreakerState()) && LimiterState() == old(LimiterState())
      ensures lastLogTime == old(lastLogTime)
    {
      if !CanProceed() {
        return;
      }
      if |queue| >= MaxQueueSize {
        queue := queue[1..];
      }
      queue := queue + [m];
      ScheduleFlush(now);
    }

    method ShouldLog(level: string, now: int) returns (ok: bool)
      requires Valid()
      modifies this
      ensures Valid()
      ensures (lastLogTime, ok) == Capture.ShouldLog(old(lastLogTime), level, now)
      ensures BreakerState() == old(BreakerState()) && LimiterState() == old(LimiterState())
      ensures DispatchState() == old(DispatchState())
    {
      var last := if level in lastLogTime then lastLogTime[level] else 0;
      if now - last < ConsoleThrottleInterval {
        return false;
      }
      lastLogTime := lastLogTime[level := now];
      ok := true;
    }
  }

  /** `captureResponseBody`: the content-type and declared-length checks,
      then the chunk loop that stops at `MaxResponseSize` bytes. */
  method CaptureResponseBody(resp: ResponseView) returns (c: BodyCapture)
    ensures !IsTextBased(OrElse(resp.contentType, "")) ==> c == BinarySkipped
    ensures IsTextBased(OrElse(resp.contentType, "")) ==>
              if resp.declaredLength.Some? && resp.declaredLength.value > MaxResponseSize then
                c == TooLarge(resp.declaredLength.value)
              else if resp.cloneFails then c == CloneFailed
              else if !resp.hasBody then c == NoBody
              else c == ReadStream(resp.stream, MaxResponseSize)
  {
    var contentType := OrElse(resp.contentType, "");
    if !IsTextBased(contentType) {
      return BinarySkipped;
    }
    if resp.declaredLength.Some? && resp.declaredLength.value > MaxResponseSize {
      return TooLarge(resp.declaredLength.value);
    }
    if resp.cloneFails {
      return CloneFailed;
    }
    if !resp.hasBody {
      return NoBody;
    }
    var chunks: seq<seq<byte>> := [];
    var totalSize: nat := 0;
    var i := 0;
    while i < |resp.stream|
      invariant 0 <= i <= |resp.stream|
      invariant totalSize == |Flatten(chunks)| <= MaxResponseSize
      invariant ReadStream(resp.stream, MaxResponseSize)
                == Prefixed(Flatten(chunks), ReadStream(resp.stream[i..], MaxResponseSize - totalSize))
    {
      var step := resp.stream[i];
      if step.ReadFault? {
        return ReadError;
      }
      var value := step.bytes;
      totalSize := totalSize + |value|;
      if totalSize > MaxResponseSize {
        var partial := value[..MaxResponseSize - (totalSize - |value|)];
        FlattenAppend(chunks, partial);
        chunks := chunks + [partial];
        return TruncatedBody(Flatten(chunks));
      }
      FlattenAppend(chunks, value);
      PrefixedAssoc(Flatten(chunks), value, ReadStream(resp.stream[i + 1..], MaxResponseSize - totalSize));
      assert resp.stream[i..][1..] == resp.stream[i + 1..];
      chunks := chunks + [value];
      i := i + 1;
    }
    return Complete(Flatten(chunks));
  }

  lemma PrefixedAssoc(a: seq<byte>, b: seq<byte>, c: BodyCapture)
    ensures Prefixed(a, Prefixed(b, c)) == Prefixed(a + b, c)
  {
    match c
    case Complete(x) => assert a + (b + x) == (a + b) + x;
    case TruncatedBody(x) => assert a + (b + x) == (a + b) + x;
    case _ =>
  }
}
