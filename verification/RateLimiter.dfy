/** The per-address token bucket of the public API (backend/internal/api/routes.go). Times are
    seconds; the clock of a run never goes back. */
module RateLimiter {

  datatype Params = Params(rate: nat, burst: nat, cleanup: real)

  datatype Bucket = Bucket(tokens: real, lastSeen: real)

  type Clients = map<string, Bucket>

  datatype Event = Request(ip: string, now: real) | Sweep(now: real)

  // ---------------------------------------------------------------------------
  // One step
  // ---------------------------------------------------------------------------

  function Refill(p: Params, elapsed: real): real { elapsed * p.rate as real / 60.0 }

  /** The bucket at a request, refilled but not yet charged. */
  function Filled(p: Params, s: Clients, ip: string, now: real): real {
    var b := if ip in s then s[ip] else Bucket(p.burst as real, now);
    var elapsed := now - b.lastSeen;
    var tokens := if elapsed > 0.0 then b.tokens + Refill(p, elapsed) else b.tokens;
    if tokens > p.burst as real then p.burst as real else tokens
  }

  predicate Allows(p: Params, s: Clients, ip: string, now: real) { Filled(p, s, ip, now) >= 1.0 }

  function Requested(p: Params, s: Clients, ip: string, now: real): Clients {
    var tokens := Filled(p, s, ip, now);
    s[ip := Bucket(if tokens >= 1.0 then tokens - 1.0 else tokens, now)]
  }

  function Swept(p: Params, s: Clients, now: real): Clients {
    map ip | ip in s && !(s[ip].lastSeen < now - p.cleanup) :: s[ip]
  }

  // ---------------------------------------------------------------------------
  // Runs, with and without the cleanup loop
  // ---------------------------------------------------------------------------

  function Step(p: Params, cleans: bool, s: Clients, e: Event): Clients {
    match e
    case Request(ip, now) => Requested(p, s, ip, now)
    case Sweep(now) => if cleans then Swept(p, s, now) else s
  }

  function After(p: Params, cleans: bool, events: seq<Event>): Clients {
    if events == [] then map[]
    else Step(p, cleans, After(p, cleans, events[..|events| - 1]), events[|events| - 1])
  }

  /** Whether the k-th event is a request that is let through. */
  predicate LetThrough(p: Params, cleans: bool, events: seq<Event>, k: nat)
    requires k < |events|
  {
    events[k].Request? && Allows(p, After(p, cleans, events[..k]), events[k].ip, events[k].now)
  }

  predicate Timed(events: seq<Event>) {
    && (forall i | 0 <= i < |events| :: events[i].now >= 0.0)
    && (forall i, j | 0 <= i < j < |events| :: events[i].now <= events[j].now)
  }

  // ---------------------------------------------------------------------------
  // Arithmetic of refilling
  // ---------------------------------------------------------------------------

  lemma RefillGrows(p: Params, a: real, b: real)
    requires 0.0 <= a <= b
    ensures 0.0 <= Refill(p, a) <= Refill(p, b)
  {
    var r := p.rate as real;
    assert a * r >= 0.0;
    assert (b - a) * r >= 0.0;
    assert (b - a) * r == b * r - a * r;
  }

  /** A minute refills the rate. */
  lemma RefillPerMinute(p: Params)
    ensures Refill(p, 60.0) == p.rate as real
  {
  }

  lemma RefillAdds(p: Params, a: real, b: real)
    ensures Refill(p, a) + Refill(p, b) == Refill(p, a + b)
  {
    var r := p.rate as real;
    assert a * r + b * r == (a + b) * r;
  }

  ghost predicate Sound(p: Params, b: Bucket, clock: real) {
    0.0 <= b.tokens <= p.burst as real && b.lastSeen <= clock
  }

  lemma FilledBounds(p: Params, s: Clients, ip: string, now: real)
    requires ip in s ==> Sound(p, s[ip], now)
    ensures 0.0 <= Filled(p, s, ip, now) <= p.burst as real
  {
    if ip in s { RefillGrows(p, 0.0, now - s[ip].lastSeen); }
  }

  // ---------------------------------------------------------------------------
  // The cleanup loop is unobservable
  // ---------------------------------------------------------------------------

  /** The limiter that cleans holds the same buckets, but for some not seen for the cleanup time. */
  ghost predicate Mirrors(p: Params, s: Clients, t: Clients, clock: real) {
    && (forall ip | ip in t :: Sound(p, t[ip], clock))
    && (forall ip | ip in s :: ip in t && s[ip] == t[ip])
    && (forall ip | ip in t && ip !in s :: t[ip].lastSeen + p.cleanup < clock)
  }

  /** Refilling over the cleanup time fills the bucket. */
  predicate Covers(p: Params) { p.burst as real <= Refill(p, p.cleanup) }

  lemma ForgottenIsFull(p: Params, s: Clients, t: Clients, ip: string, now: real)
    requires Covers(p) && p.cleanup >= 0.0 && Mirrors(p, s, t, now)
    ensures Filled(p, s, ip, now) == Filled(p, t, ip, now)
  {
    if ip in t && ip !in s {
      RefillGrows(p, p.cleanup, now - t[ip].lastSeen);
    }
  }

  lemma MirrorStep(p: Params, s: Clients, t: Clients, e: Event)
    requires Covers(p) && p.cleanup >= 0.0 && Mirrors(p, s, t, e.now)
    ensures Mirrors(p, Step(p, true, s, e), Step(p, false, t, e), e.now)
  {
    if e.Request? {
      ForgottenIsFull(p, s, t, e.ip, e.now);
      FilledBounds(p, t, e.ip, e.now);
    }
  }

  lemma MirrorLater(p: Params, s: Clients, t: Clients, clock: real, later: real)
    requires Mirrors(p, s, t, clock) && clock <= later
    ensures Mirrors(p, s, t, later)
  {
  }

  function Clock(events: seq<Event>): real { if events == [] then 0.0 else events[|events| - 1].now }

  lemma {:induction false} RunsMirror(p: Params, events: seq<Event>)
    requires Covers(p) && p.cleanup >= 0.0 && Timed(events)
    ensures Mirrors(p, After(p, true, events), After(p, false, events), Clock(events))
  {
    if events != [] {
      var init, e := events[..|events| - 1], events[|events| - 1];
      RunsMirror(p, init);
      MirrorLater(p, After(p, true, init), After(p, false, init), Clock(init), e.now);
      MirrorStep(p, After(p, true, init), After(p, false, init), e);
    }
  }

  /** When the refill over the cleanup time covers the burst, every decision is that of a limiter
      that never deletes. */
  lemma CleanupIsUnobservable(p: Params, events: seq<Event>, k: nat)
    requires Covers(p) && p.cleanup >= 0.0 && Timed(events) && k < |events|
    ensures LetThrough(p, true, events, k) <==> LetThrough(p, false, events, k)
  {
    if events[k].Request? {
      var s, t := After(p, true, events[..k]), After(p, false, events[..k]);
      RunsMirror(p, events[..k]);
      if k > 0 { assert events[..k][k - 1] == events[k - 1]; }
      MirrorLater(p, s, t, Clock(events[..k]), events[k].now);
      ForgottenIsFull(p, s, t, events[k].ip, events[k].now);
    }
  }

  // ---------------------------------------------------------------------------
  // ... and only then
  // ---------------------------------------------------------------------------

  function Repeat(n: nat, e: Event): seq<Event> { if n == 0 then [] else Repeat(n - 1, e) + [e] }

  lemma {:induction false} RepeatLength(n: nat, e: Event)
    ensures |Repeat(n, e)| == n && forall i | 0 <= i < n :: Repeat(n, e)[i] == e
  {
    if n > 0 { RepeatLength(n - 1, e); }
  }

  /** n requests at one moment, from a bucket with enough tokens, take n of them. */
  lemma {:induction false} DrainAt(p: Params, cleans: bool, before: seq<Event>, ip: string, now: real, n: nat)
    requires 0 < n && n as real <= Filled(p, After(p, cleans, before), ip, now) <= p.burst as real
    ensures var s := After(p, cleans, before + Repeat(n, Request(ip, now)));
            ip in s && s[ip] == Bucket(Filled(p, After(p, cleans, before), ip, now) - n as real, now)
  {
    var e := Request(ip, now);
    var most := before + Repeat(n - 1, e);
    assert (before + Repeat(n, e))[..|before + Repeat(n, e)| - 1] == most;
    assert After(p, cleans, before + Repeat(n, e)) == Step(p, cleans, After(p, cleans, most), e);
    if n > 1 { DrainAt(p, cleans, before, ip, now, n - 1); } else { assert most == before; }
  }

  /** The run that shows a cleanup: a full burst, a sweep just after the cleanup time, a burst. */
  function Telling(p: Params, ip: string, late: real): seq<Event> {
    Repeat(p.burst, Request(ip, 0.0)) + [Sweep(late)] + Repeat(p.burst, Request(ip, late))
  }

  lemma TellingIsTimed(p: Params, ip: string, late: real)
    requires late >= 0.0
    ensures |Telling(p, ip, late)| == 2 * p.burst + 1 && Timed(Telling(p, ip, late))
    ensures p.burst > 0 ==> Telling(p, ip, late)[2 * p.burst] == Request(ip, late)
  {
    RepeatLength(p.burst, Request(ip, 0.0));
    RepeatLength(p.burst, Request(ip, late));
  }

  /** After the first burst the bucket is empty either way; the sweep forgets it. */
  lemma Emptied(p: Params, ip: string, late: real, cleans: bool)
    requires p.burst > 0 && late > p.cleanup >= 0.0
    ensures var s := After(p, cleans, Repeat(p.burst, Request(ip, 0.0)) + [Sweep(late)]);
            if cleans then ip !in s else ip in s && s[ip] == Bucket(0.0, 0.0)
  {
    var first := Repeat(p.burst, Request(ip, 0.0));
    DrainAt(p, cleans, [], ip, 0.0, p.burst);
    assert [] + first == first;
    assert (first + [Sweep(late)])[..|first|] == first;
  }

  lemma TellingPrefix(p: Params, ip: string, late: real)
    requires p.burst > 0
    ensures |Telling(p, ip, late)| > 2 * p.burst
    ensures Telling(p, ip, late)[..2 * p.burst] ==
            Repeat(p.burst, Request(ip, 0.0)) + [Sweep(late)] + Repeat(p.burst - 1, Request(ip, late))
    ensures Telling(p, ip, late)[2 * p.burst] == Request(ip, late)
  {
    RepeatLength(p.burst, Request(ip, 0.0));
    RepeatLength(p.burst, Request(ip, late));
    RepeatLength(p.burst - 1, Request(ip, late));
  }

  lemma LastIsLetThrough(p: Params, ip: string, late: real)
    requires p.burst > 0 && late > p.cleanup >= 0.0
    ensures |Telling(p, ip, late)| > 2 * p.burst && LetThrough(p, true, Telling(p, ip, late), 2 * p.burst)
  {
    var before := Repeat(p.burst, Request(ip, 0.0)) + [Sweep(late)];
    TellingPrefix(p, ip, late);
    Emptied(p, ip, late, true);
    if p.burst > 1 {
      DrainAt(p, true, before, ip, late, p.burst - 1);
    } else {
      assert before + Repeat(0, Request(ip, late)) == before;
    }
  }

  /** n requests at one moment leave less than one token, or take n. */
  lemma {:induction false} SpentAt(p: Params, cleans: bool, before: seq<Event>, ip: string, now: real, n: nat)
    requires 0 < n && 0.0 <= Filled(p, After(p, cleans, before), ip, now) <= p.burst as real
    ensures var s := After(p, cleans, before + Repeat(n, Request(ip, now)));
            && ip in s && s[ip].lastSeen == now && 0.0 <= s[ip].tokens <= p.burst as real
            && (s[ip].tokens < 1.0 || s[ip].tokens == Filled(p, After(p, cleans, before), ip, now) - n as real)
  {
    var e := Request(ip, now);
    var most := before + Repeat(n - 1, e);
    assert (before + Repeat(n, e))[..|before + Repeat(n, e)| - 1] == most;
    assert After(p, cleans, before + Repeat(n, e)) == Step(p, cleans, After(p, cleans, most), e);
    if n > 1 { SpentAt(p, cleans, before, ip, now, n - 1); } else { assert most == before; }
  }

  lemma LastIsRefused(p: Params, ip: string, late: real)
    requires p.burst > 0 && late > p.cleanup >= 0.0 && Refill(p, late) < p.burst as real
    ensures |Telling(p, ip, late)| > 2 * p.burst && !LetThrough(p, false, Telling(p, ip, late), 2 * p.burst)
  {
    var before := Repeat(p.burst, Request(ip, 0.0)) + [Sweep(late)];
    TellingPrefix(p, ip, late);
    Emptied(p, ip, late, false);
    RefillGrows(p, 0.0, late);
    if p.burst > 1 {
      SpentAt(p, false, before, ip, late, p.burst - 1);
    } else {
      assert before + Repeat(0, Request(ip, late)) == before;
    }
  }

  /** A moment after the cleanup time at which the bucket is not yet full. */
  lemma NotYetFull(p: Params) returns (late: real)
    requires p.cleanup >= 0.0 && !Covers(p)
    ensures late > p.cleanup && Refill(p, late) < p.burst as real
  {
    if p.rate == 0 {
      late := p.cleanup + 1.0;
      assert Refill(p, p.cleanup) == 0.0 && Refill(p, late) == 0.0;
    } else {
      var r := p.rate as real;
      var gap := p.burst as real - Refill(p, p.cleanup);
      var wait := gap * 30.0 / r;
      late := p.cleanup + wait;
      assert wait * r == gap * 30.0;
      assert wait > 0.0 by { if wait <= 0.0 { } }
      RefillAdds(p, p.cleanup, wait);
    }
  }

  lemma CleanupShows(p: Params)
    requires p.cleanup >= 0.0 && !Covers(p)
    ensures exists events: seq<Event>, k: nat ::
              Timed(events) && k < |events| && LetThrough(p, true, events, k) && !LetThrough(p, false, events, k)
  {
    RefillGrows(p, 0.0, p.cleanup);
    var late := NotYetFull(p);
    TellingIsTimed(p, "", late);
    LastIsLetThrough(p, "", late);
    LastIsRefused(p, "", late);
  }

  /** The cleanup loop changes no decision of any run exactly when the refill over the cleanup
      time covers the burst. */
  lemma CleanupIsUnobservableIff(p: Params)
    requires p.cleanup >= 0.0
    ensures Covers(p) <==>
            forall events: seq<Event>, k: nat | Timed(events) && k < |events| ::
              LetThrough(p, true, events, k) <==> LetThrough(p, false, events, k)
  {
    if Covers(p) {
      forall events: seq<Event>, k: nat | Timed(events) && k < |events|
        ensures LetThrough(p, true, events, k) <==> LetThrough(p, false, events, k)
      {
        CleanupIsUnobservable(p, events, k);
      }
    } else {
      CleanupShows(p);
    }
  }

  /** The limiter the server makes when none is given. */
  lemma ServerDefaultsCover()
    ensures Covers(Params(60, 30, 300.0))
  {
    assert Refill(Params(60, 30, 300.0), 300.0) == 300.0;
  }

  // ---------------------------------------------------------------------------
  // The window bound
  // ---------------------------------------------------------------------------

  /** How many requests of an address among events[from..to] are let through. */
  function Taken(p: Params, cleans: bool, events: seq<Event>, ip: string, from: nat, to: nat): nat
    requires from <= to <= |events|
  {
    if from == to then 0
    else
      Taken(p, cleans, events, ip, from, to - 1) +
      if LetThrough(p, cleans, events, to - 1) && events[to - 1].ip == ip then 1 else 0
  }

  ghost predicate Paid(p: Params, s: Clients, ip: string, count: nat, start: real) {
    count == 0 ||
    (ip in s && s[ip].lastSeen >= start
     && count as real + s[ip].tokens <= p.burst as real + Refill(p, s[ip].lastSeen - start))
  }

  lemma PaidStep(p: Params, s: Clients, ip: string, count: nat, start: real, now: real)
    requires Paid(p, s, ip, count, start) && start <= now && (ip in s ==> Sound(p, s[ip], now))
    ensures Paid(p, Requested(p, s, ip, now), ip, if Allows(p, s, ip, now) then count + 1 else count, start)
  {
    RefillGrows(p, 0.0, now - start);
    if count > 0 {
      RefillAdds(p, s[ip].lastSeen - start, now - s[ip].lastSeen);
      RefillGrows(p, 0.0, now - s[ip].lastSeen);
    }
  }

  lemma PaidEvent(p: Params, s: Clients, e: Event, ip: string, count: nat, start: real, clock: real)
    requires Paid(p, s, ip, count, start) && start <= e.now && clock <= e.now
             && forall x | x in s :: Sound(p, s[x], clock)
    ensures var let := e.Request? && e.ip == ip && Allows(p, s, ip, e.now);
            Paid(p, Step(p, false, s, e), ip, if let then count + 1 else count, start)
  {
    if e.Request? && e.ip == ip { PaidStep(p, s, ip, count, start, e.now); }
  }

  lemma StepSound(p: Params, s: Clients, e: Event, clock: real)
    requires clock <= e.now && forall ip | ip in s :: Sound(p, s[ip], clock)
    ensures forall ip | ip in Step(p, false, s, e) :: Sound(p, Step(p, false, s, e)[ip], e.now)
  {
    if e.Request? { FilledBounds(p, s, e.ip, e.now); }
  }

  lemma {:induction false} StaysSound(p: Params, events: seq<Event>)
    requires Timed(events)
    ensures forall ip | ip in After(p, false, events) :: Sound(p, After(p, false, events)[ip], Clock(events))
  {
    if events != [] {
      var init, e := events[..|events| - 1], events[|events| - 1];
      StaysSound(p, init);
      StepSound(p, After(p, false, init), e, Clock(init));
    }
  }

  lemma AfterSnoc(p: Params, cleans: bool, events: seq<Event>, k: nat)
    requires k < |events|
    ensures After(p, cleans, events[..k + 1]) == Step(p, cleans, After(p, cleans, events[..k]), events[k])
  {
    assert events[..k + 1][..k] == events[..k];
  }

  lemma {:induction false} PaidThroughout(p: Params, events: seq<Event>, ip: string, from: nat, to: nat, start: real)
    requires Timed(events) && from <= to <= |events| && forall i | from <= i < to :: start <= events[i].now
    ensures Paid(p, After(p, false, events[..to]), ip, Taken(p, false, events, ip, from, to), start)
  {
    if from < to {
      var k := to - 1;
      PaidThroughout(p, events, ip, from, k, start);
      AfterSnoc(p, false, events, k);
      StaysSound(p, events[..k]);
      if k > 0 { assert events[..k][k - 1] == events[k - 1]; }
      PaidEvent(p, After(p, false, events[..k]), events[k], ip, Taken(p, false, events, ip, from, k), start,
                Clock(events[..k]));
    }
  }

  lemma {:induction false} TakenEither(p: Params, events: seq<Event>, ip: string, from: nat, to: nat)
    requires Covers(p) && p.cleanup >= 0.0 && Timed(events) && from <= to <= |events|
    ensures Taken(p, true, events, ip, from, to) == Taken(p, false, events, ip, from, to)
  {
    if from < to {
      TakenEither(p, events, ip, from, to - 1);
      CleanupIsUnobservable(p, events, to - 1);
    }
  }

  lemma NeverDeletingBound(p: Params, events: seq<Event>, ip: string, from: nat, to: nat, start: real, T: real)
    requires Timed(events) && from <= to <= |events| && T >= 0.0
    requires forall i | from <= i < to :: start <= events[i].now <= start + T
    ensures Taken(p, false, events, ip, from, to) as real <= p.burst as real + Refill(p, T)
  {
    PaidThroughout(p, events, ip, from, to, start);
    StaysSound(p, events[..to]);
    RefillGrows(p, 0.0, T);
    var s := After(p, false, events[..to]);
    if Taken(p, false, events, ip, from, to) > 0 {
      assert events[..to][to - 1] == events[to - 1];
      RefillGrows(p, s[ip].lastSeen - start, T);
    }
  }

  /** In any window of T seconds an address gets at most burst + rate * T / 60 requests through:
      always when nothing is deleted, and with the cleanup loop when the refill covers the burst. */
  lemma WindowBound(p: Params, events: seq<Event>, ip: string, from: nat, to: nat, start: real, T: real)
    requires Timed(events) && from <= to <= |events| && T >= 0.0
    requires forall i | from <= i < to :: start <= events[i].now <= start + T
    ensures Taken(p, false, events, ip, from, to) as real <= p.burst as real + Refill(p, T)
    ensures Covers(p) && p.cleanup >= 0.0 ==>
              Taken(p, true, events, ip, from, to) as real <= p.burst as real + Refill(p, T)
  {
    NeverDeletingBound(p, events, ip, from, to, start, T);
    if Covers(p) && p.cleanup >= 0.0 { TakenEither(p, events, ip, from, to); }
  }

  // ---------------------------------------------------------------------------
  // Exactly when a request is let through
  // ---------------------------------------------------------------------------

  predicate Asks(e: Event, ip: string) { e.Request? && e.ip == ip }

  /** From event `from` to event k the bucket is not forgotten: no sweep comes more than the cleanup
      time after the address last asked. */
  predicate Kept(p: Params, cleans: bool, events: seq<Event>, ip: string, from: nat, k: nat)
    requires k <= |events|
  {
    cleans ==> forall j | from < j < k && events[j].Sweep? :: AskedLately(p, events, ip, from, j)
  }

  predicate AskedLately(p: Params, events: seq<Event>, ip: string, from: nat, j: nat)
    requires j < |events|
  {
    exists i | from <= i < j :: Asks(events[i], ip) && events[i].now >= events[j].now - p.cleanup
  }

  /** Counted from event `from`, one more request at event k fits the burst and the refill. */
  ghost predicate Fits(p: Params, cleans: bool, events: seq<Event>, ip: string, from: nat, k: nat)
    requires from <= k < |events|
  {
    Taken(p, cleans, events, ip, from, k) as real + 1.0 <=
    p.burst as real + Refill(p, events[k].now - events[from].now)
  }

  /** ... counted from this request itself and from any earlier one since which the bucket was kept. */
  ghost predicate Affords(p: Params, cleans: bool, events: seq<Event>, k: nat)
    requires k < |events| && events[k].Request?
  {
    var ip := events[k].ip;
    forall from: nat | from <= k && Asks(events[from], ip) && Kept(p, cleans, events, ip, from, k) ::
      Fits(p, cleans, events, ip, from, k)
  }

  lemma FilledIs(p: Params, s: Clients, ip: string, now: real)
    requires ip in s ==> s[ip].lastSeen <= now
    ensures Filled(p, s, ip, now) <= p.burst as real
    ensures ip !in s ==> Filled(p, s, ip, now) == p.burst as real
    ensures ip in s ==>
              var full := s[ip].tokens + Refill(p, now - s[ip].lastSeen);
              Filled(p, s, ip, now) == if full > p.burst as real then p.burst as real else full
  {
    if ip in s && s[ip].lastSeen == now { assert Refill(p, 0.0) == 0.0; }
  }

  /** The bucket, what was taken since event `from`, and the refill since then. */
  ghost predicate NoMoreThan(p: Params, b: Bucket, taken: nat, since: real) {
    b.tokens + taken as real <= p.burst as real + Refill(p, b.lastSeen - since)
  }

  ghost predicate Exactly(p: Params, b: Bucket, taken: nat, since: real) {
    b.tokens + taken as real == p.burst as real + Refill(p, b.lastSeen - since)
  }

  /** The bucket was last seen at one of the address's requests from `from` on, and at none before
      the last of them. */
  ghost predicate SeenSince(b: Bucket, events: seq<Event>, ip: string, from: nat, k: nat)
    requires k <= |events|
  {
    && (forall i | from <= i < k && Asks(events[i], ip) :: events[i].now <= b.lastSeen)
    && (exists i | from <= i < k :: Asks(events[i], ip) && events[i].now == b.lastSeen)
  }

  lemma TakenOne(p: Params, cleans: bool, events: seq<Event>, ip: string, from: nat, k: nat)
    requires from <= k < |events|
    ensures Taken(p, cleans, events, ip, from, k + 1) ==
            Taken(p, cleans, events, ip, from, k) +
            if Asks(events[k], ip) && Allows(p, After(p, cleans, events[..k]), ip, events[k].now) then 1 else 0
  {
  }

  /** A request of the address: its bucket is charged, and seen now. */
  lemma ChargedOne(p: Params, s: Clients, ip: string, now: real, taken: nat, since: real)
    requires ip in s && s[ip].lastSeen <= now
    ensures var b := Requested(p, s, ip, now)[ip];
            var more := taken + if Allows(p, s, ip, now) then 1 else 0;
            && b.lastSeen == now && (NoMoreThan(p, s[ip], taken, since) ==> NoMoreThan(p, b, more, since))
            && (Exactly(p, s[ip], taken, since) && Filled(p, s, ip, now) < p.burst as real ==>
                  Exactly(p, b, more, since))
  {
    FilledIs(p, s, ip, now);
    RefillAdds(p, s[ip].lastSeen - since, now - s[ip].lastSeen);
  }

  /** The first request since then. */
  lemma ChargedFirst(p: Params, s: Clients, ip: string, now: real)
    requires ip in s ==> s[ip].lastSeen <= now
    ensures var b := Requested(p, s, ip, now)[ip];
            var taken := if Allows(p, s, ip, now) then 1 else 0;
            && b.lastSeen == now && NoMoreThan(p, b, taken, now)
            && (Filled(p, s, ip, now) == p.burst as real ==> Exactly(p, b, taken, now))
  {
    FilledIs(p, s, ip, now);
    assert Refill(p, 0.0) == 0.0;
  }

  /** Any other event leaves the bucket as it is, or sweeps it away. */
  lemma OtherOne(p: Params, cleans: bool, s: Clients, e: Event, ip: string)
    requires !Asks(e, ip)
    ensures var swept := cleans && e.Sweep? && ip in s && s[ip].lastSeen < e.now - p.cleanup;
            && (ip in Step(p, cleans, s, e) <==> ip in s && !swept)
            && (ip in Step(p, cleans, s, e) ==> Step(p, cleans, s, e)[ip] == s[ip])
  {
  }

  lemma SeenNow(b: Bucket, events: seq<Event>, ip: string, from: nat, k: nat)
    requires Timed(events) && from <= k < |events| && Asks(events[k], ip) && b.lastSeen == events[k].now
    ensures SeenSince(b, events, ip, from, k + 1)
  {
  }

  lemma SeenBefore(b: Bucket, events: seq<Event>, ip: string, from: nat, k: nat)
    requires Timed(events) && k < |events| && SeenSince(b, events, ip, from, k)
    ensures b.lastSeen <= events[k].now
    ensures !Asks(events[k], ip) ==> SeenSince(b, events, ip, from, k + 1)
  {
  }

  /** Since any request after which the bucket was kept, it holds no more than the burst and the refill
      leave of what was taken. */
  lemma {:induction false} Spent(p: Params, cleans: bool, events: seq<Event>, ip: string, from: nat, k: nat)
    requires Timed(events) && from < k <= |events| && Asks(events[from], ip) && Kept(p, cleans, events, ip, from, k)
    ensures var s := After(p, cleans, events[..k]);
            && ip in s && SeenSince(s[ip], events, ip, from, k)
            && NoMoreThan(p, s[ip], Taken(p, cleans, events, ip, from, k), events[from].now)
  {
    var n := k - 1;
    var s, e := After(p, cleans, events[..n]), events[n];
    AfterSnoc(p, cleans, events, n);
    TakenOne(p, cleans, events, ip, from, n);
    if n == from {
      if ip in s { var since := Balance(p, cleans, events, ip, n); SeenBefore(s[ip], events, ip, since, n); }
      ChargedFirst(p, s, ip, e.now);
      SeenNow(Requested(p, s, ip, e.now)[ip], events, ip, from, n);
    } else {
      Spent(p, cleans, events, ip, from, n);
      SeenBefore(s[ip], events, ip, from, n);
      if Asks(e, ip) {
        ChargedOne(p, s, ip, e.now, Taken(p, cleans, events, ip, from, n), events[from].now);
        SeenNow(Requested(p, s, ip, e.now)[ip], events, ip, from, n);
      } else {
        OtherOne(p, cleans, s, e, ip);
        if cleans && e.Sweep? { assert AskedLately(p, events, ip, from, n); }
      }
    }
  }

  /** Since event `from`, a request since which the bucket was kept, it holds exactly that. */
  ghost predicate Balanced(p: Params, cleans: bool, events: seq<Event>, ip: string, from: nat, k: nat)
    requires k <= |events|
  {
    var s := After(p, cleans, events[..k]);
    && from < k && Asks(events[from], ip) && Kept(p, cleans, events, ip, from, k)
    && ip in s && SeenSince(s[ip], events, ip, from, k)
    && Exactly(p, s[ip], Taken(p, cleans, events, ip, from, k), events[from].now)
  }

  lemma BalanceKept(p: Params, cleans: bool, events: seq<Event>, ip: string, from: nat, n: nat)
    requires Timed(events) && n < |events| && Balanced(p, cleans, events, ip, from, n)
    requires !Asks(events[n], ip) && ip in After(p, cleans, events[..n + 1])
    ensures Balanced(p, cleans, events, ip, from, n + 1)
  {
    var s := After(p, cleans, events[..n]);
    AfterSnoc(p, cleans, events, n);
    SeenBefore(s[ip], events, ip, from, n);
    OtherOne(p, cleans, s, events[n], ip);
    if cleans && events[n].Sweep? { assert AskedLately(p, events, ip, from, n); }
    TakenOne(p, cleans, events, ip, from, n);
  }

  lemma BalanceCharged(p: Params, cleans: bool, events: seq<Event>, ip: string, from: nat, n: nat)
    requires Timed(events) && n < |events| && Balanced(p, cleans, events, ip, from, n) && Asks(events[n], ip)
    requires Filled(p, After(p, cleans, events[..n]), ip, events[n].now) < p.burst as real
    ensures Balanced(p, cleans, events, ip, from, n + 1)
  {
    var s, now := After(p, cleans, events[..n]), events[n].now;
    AfterSnoc(p, cleans, events, n);
    SeenBefore(s[ip], events, ip, from, n);
    ChargedOne(p, s, ip, now, Taken(p, cleans, events, ip, from, n), events[from].now);
    SeenNow(Requested(p, s, ip, now)[ip], events, ip, from, n);
    TakenOne(p, cleans, events, ip, from, n);
  }

  lemma BalanceFirst(p: Params, cleans: bool, events: seq<Event>, ip: string, n: nat)
    requires Timed(events) && n < |events| && Asks(events[n], ip)
    requires var s := After(p, cleans, events[..n]);
             && (ip in s ==> s[ip].lastSeen <= events[n].now)
             && Filled(p, s, ip, events[n].now) == p.burst as real
    ensures Balanced(p, cleans, events, ip, n, n + 1)
  {
    var s, now := After(p, cleans, events[..n]), events[n].now;
    AfterSnoc(p, cleans, events, n);
    ChargedFirst(p, s, ip, now);
    SeenNow(Requested(p, s, ip, now)[ip], events, ip, n, n);
    TakenOne(p, cleans, events, ip, n, n);
  }

  /** A bucket always balances: since the last request that found it full. */
  lemma {:induction false} Balance(p: Params, cleans: bool, events: seq<Event>, ip: string, k: nat) returns (from: nat)
    requires Timed(events) && k <= |events| && ip in After(p, cleans, events[..k])
    ensures Balanced(p, cleans, events, ip, from, k)
  {
    var n := k - 1;
    var s, e := After(p, cleans, events[..n]), events[n];
    AfterSnoc(p, cleans, events, n);
    if !Asks(e, ip) {
      OtherOne(p, cleans, s, e, ip);
      from := Balance(p, cleans, events, ip, n);
      BalanceKept(p, cleans, events, ip, from, n);
    } else {
      FilledIs(p, map[], ip, e.now);
      from := n;
      if ip in s {
        from := Balance(p, cleans, events, ip, n);
        SeenBefore(s[ip], events, ip, from, n);
        FilledIs(p, s, ip, e.now);
      }
      if Filled(p, s, ip, e.now) < p.burst as real {
        BalanceCharged(p, cleans, events, ip, from, n);
      } else {
        from := n;
        BalanceFirst(p, cleans, events, ip, n);
      }
    }
  }

  /** From the bucket before a request to what it finds filled. */
  lemma RefilledTo(p: Params, s: Clients, ip: string, taken: nat, since: real, now: real)
    requires ip in s && s[ip].lastSeen <= now
    ensures NoMoreThan(p, s[ip], taken, since) ==>
              Filled(p, s, ip, now) + taken as real <= p.burst as real + Refill(p, now - since)
    ensures Exactly(p, s[ip], taken, since) && Filled(p, s, ip, now) < p.burst as real ==>
              Filled(p, s, ip, now) + taken as real == p.burst as real + Refill(p, now - since)
  {
    FilledIs(p, s, ip, now);
    RefillAdds(p, s[ip].lastSeen - since, now - s[ip].lastSeen);
  }

  lemma NoTimeNoRefill(p: Params)
    ensures Refill(p, 0.0) == 0.0
  {
  }

  /** What the address finds filled, and what it took since an earlier request. */
  lemma FilledAndTaken(p: Params, cleans: bool, events: seq<Event>, ip: string, from: nat, k: nat)
    requires Timed(events) && from < k < |events| && Asks(events[from], ip) && Kept(p, cleans, events, ip, from, k)
    ensures Filled(p, After(p, cleans, events[..k]), ip, events[k].now) +
            Taken(p, cleans, events, ip, from, k) as real <=
            p.burst as real + Refill(p, events[k].now - events[from].now)
  {
    var s := After(p, cleans, events[..k]);
    Spent(p, cleans, events, ip, from, k);
    SeenBefore(s[ip], events, ip, from, k);
    RefilledTo(p, s, ip, Taken(p, cleans, events, ip, from, k), events[from].now, events[k].now);
  }

  lemma SeenByNow(p: Params, cleans: bool, events: seq<Event>, ip: string, k: nat)
    requires Timed(events) && k < |events| && ip in After(p, cleans, events[..k])
    ensures After(p, cleans, events[..k])[ip].lastSeen <= events[k].now
  {
    var since := Balance(p, cleans, events, ip, k);
    SeenBefore(After(p, cleans, events[..k])[ip], events, ip, since, k);
  }

  lemma LetThroughFits(p: Params, cleans: bool, events: seq<Event>, ip: string, from: nat, k: nat)
    requires Timed(events) && from <= k < |events| && Asks(events[k], ip) && Asks(events[from], ip)
    requires Kept(p, cleans, events, ip, from, k) && LetThrough(p, cleans, events, k)
    ensures Fits(p, cleans, events, ip, from, k)
  {
    var s := After(p, cleans, events[..k]);
    if from < k {
      FilledAndTaken(p, cleans, events, ip, from, k);
    } else {
      if ip in s { SeenByNow(p, cleans, events, ip, k); }
      FilledIs(p, s, ip, events[k].now);
      NoTimeNoRefill(p);
    }
  }

  /** A bucket that is not full when asked for balances with an earlier request. */
  lemma FilledBalances(p: Params, cleans: bool, events: seq<Event>, ip: string, k: nat) returns (from: nat)
    requires Timed(events) && k < |events| && Asks(events[k], ip)
    requires Filled(p, After(p, cleans, events[..k]), ip, events[k].now) < p.burst as real
    ensures from < k && Asks(events[from], ip) && Kept(p, cleans, events, ip, from, k)
    ensures Filled(p, After(p, cleans, events[..k]), ip, events[k].now) +
            Taken(p, cleans, events, ip, from, k) as real ==
            p.burst as real + Refill(p, events[k].now - events[from].now)
  {
    var s := After(p, cleans, events[..k]);
    FilledIs(p, map[], ip, events[k].now);
    from := Balance(p, cleans, events, ip, k);
    SeenBefore(s[ip], events, ip, from, k);
    RefilledTo(p, s, ip, Taken(p, cleans, events, ip, from, k), events[from].now, events[k].now);
  }

  lemma RefusedOverdraws(p: Params, cleans: bool, events: seq<Event>, ip: string, k: nat) returns (from: nat)
    requires Timed(events) && k < |events| && Asks(events[k], ip) && !LetThrough(p, cleans, events, k)
    ensures from <= k && Asks(events[from], ip) && Kept(p, cleans, events, ip, from, k)
    ensures !Fits(p, cleans, events, ip, from, k)
  {
    if Filled(p, After(p, cleans, events[..k]), ip, events[k].now) < p.burst as real {
      from := FilledBalances(p, cleans, events, ip, k);
    } else {
      from := k;
      NoTimeNoRefill(p);
    }
  }

  /** A request is let through if and only if it can be afforded, with the cleanup loop or without. */
  lemma LetThroughIff(p: Params, cleans: bool, events: seq<Event>, k: nat)
    requires Timed(events) && k < |events| && events[k].Request?
    ensures LetThrough(p, cleans, events, k) <==> Affords(p, cleans, events, k)
  {
    var ip := events[k].ip;
    if LetThrough(p, cleans, events, k) {
      forall from: nat | from <= k && Asks(events[from], ip) && Kept(p, cleans, events, ip, from, k)
        ensures Fits(p, cleans, events, ip, from, k)
      {
        LetThroughFits(p, cleans, events, ip, from, k);
      }
    } else {
      var from := RefusedOverdraws(p, cleans, events, ip, k);
    }
  }

  // ---------------------------------------------------------------------------
  // The limiter object
  // ---------------------------------------------------------------------------

  /** No address gets more through, in the last T seconds, than the burst and the refill allow. */
  ghost predicate Bounded(p: Params, events: seq<Event>, ip: string) {
    forall from: nat, T: real | from <= |events| && T >= 0.0 && Within(events, from, T) ::
      Taken(p, true, events, ip, from, |events|) as real <= p.burst as real + Refill(p, T)
  }

  /** The events from `from` on lie in the last T seconds. */
  ghost predicate Within(events: seq<Event>, from: nat, T: real) {
    forall i | from <= i < |events| :: events[|events| - 1].now - T <= events[i].now
  }

  lemma LastWindowBound(p: Params, events: seq<Event>, ip: string)
    requires Covers(p) && p.cleanup >= 0.0 && Timed(events)
    ensures Bounded(p, events, ip)
  {
    forall from: nat, T: real | from <= |events| && T >= 0.0 && Within(events, from, T)
      ensures Taken(p, true, events, ip, from, |events|) as real <= p.burst as real + Refill(p, T)
    {
      WindowBound(p, events, ip, from, |events|, Clock(events) - T, T);
    }
  }

  lemma AfterLast(p: Params, events: seq<Event>, e: Event)
    ensures After(p, true, events + [e]) == Step(p, true, After(p, true, events), e)
    ensures LetThrough(p, true, events + [e], |events|) <==>
              e.Request? && Allows(p, After(p, true, events), e.ip, e.now)
  {
    assert (events + [e])[..|events|] == events;
  }

  /** The answer to the last event, a request, when the clock does not go back. */
  ghost predicate Decided(p: Params, events: seq<Event>, ip: string, allowed: bool) {
    Timed(events) && events != [] && events[|events| - 1].Request? ==>
      && (allowed <==> Affords(p, true, events, |events| - 1))
      && (Covers(p) && p.cleanup >= 0.0 ==> Bounded(p, events, ip))
  }

  lemma DecidedLast(p: Params, events: seq<Event>, ip: string)
    requires events != []
    ensures Decided(p, events, ip, LetThrough(p, true, events, |events| - 1))
  {
    if Timed(events) && events[|events| - 1].Request? {
      LetThroughIff(p, true, events, |events| - 1);
      if Covers(p) && p.cleanup >= 0.0 { LastWindowBound(p, events, ip); }
    }
  }

  class Limiter {
    const p: Params
    var clients: Clients
    /** What was asked of the limiter so far. */
    ghost var events: seq<Event>

    /** The table is what the events made of it. */
    ghost predicate Valid()
      reads this
    {
      clients == After(p, true, events)
    }

    constructor (ratePerMinute: nat, burst: nat)
      ensures Valid() && p == Params(ratePerMinute, burst, 300.0) && events == []
    {
      p := Params(ratePerMinute, burst, 300.0);
      clients := map[];
      events := [];
    }

    /** Lets the request through as a run of the limiter would, touches no other address, and so, when
        the clock does not go back, exactly when the address can afford it. */
    method AllowAt(ip: string, now: real) returns (allowed: bool)
      requires Valid()
      modifies this
      ensures Valid() && events == old(events) + [Request(ip, now)]
      ensures allowed <==> LetThrough(p, true, events, |old(events)|)
      ensures forall other | other != ip :: other in clients <==> other in old(clients)
      ensures forall other | other != ip && other in clients :: clients[other] == old(clients)[other]
      ensures Decided(p, events, ip, allowed)
    {
      AfterLast(p, events, Request(ip, now));
      var bucket := if ip in clients then clients[ip] else Bucket(p.burst as real, now);
      var elapsed := now - bucket.lastSeen;
      var tokens := bucket.tokens;
      if elapsed > 0.0 { tokens := tokens + Refill(p, elapsed); }
      if tokens > p.burst as real { tokens := p.burst as real; }
      allowed := tokens >= 1.0;
      if allowed { tokens := tokens - 1.0; }
      clients := clients[ip := Bucket(tokens, now)];
      events := events + [Request(ip, now)];
      DecidedLast(p, events, ip);
    }

    /** One tick of the cleanup loop: exactly the buckets last seen before the cutoff go. */
    method CleanupTick(now: real)
      requires Valid()
      modifies this
      ensures Valid() && events == old(events) + [Sweep(now)]
      ensures forall ip :: ip in clients <==> ip in old(clients) && !(old(clients)[ip].lastSeen < now - p.cleanup)
      ensures forall ip | ip in clients :: clients[ip] == old(clients)[ip]
    {
      AfterLast(p, events, Sweep(now));
      var cutoff := now - p.cleanup;
      var left := clients.Keys;
      while left != {}
        invariant left <= old(clients).Keys && events == old(events)
        invariant clients ==
          map ip | ip in old(clients) && (ip in left || !(old(clients)[ip].lastSeen < cutoff)) :: old(clients)[ip]
      {
        var ip :| ip in left;
        if clients[ip].lastSeen < cutoff { clients := clients - {ip}; }
        left := left - {ip};
      }
      events := events + [Sweep(now)];
    }
  }
}
