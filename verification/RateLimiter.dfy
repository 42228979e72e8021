/** The per-identity token bucket (gateway/auth.py), over reals. */
module RateLimiting {
  import opened Common
  import opened Rounding

  type Identity = string

  datatype Bucket = Bucket(tokens: real, at: real)

  type Buckets = map<Identity, Bucket>

  /** Tokens per second and bucket size. */
  datatype Limits = Limits(rate: real, burst: real) {
    predicate Valid() {
      rate >= 0.0 && burst >= 1.0
    }
  }

  function LimitsOf(ratePerMin: int, burst: int): (l: Limits)
    ensures l.Valid()
    ensures l.rate * 60.0 == if ratePerMin >= 0 then ratePerMin as real else 0.0
    ensures l.burst == if burst >= 1 then burst as real else 1.0
  {
    Limits(if ratePerMin > 0 then ratePerMin as real / 60.0 else 0.0, if burst > 1 then burst as real else 1.0)
  }

  function Min(a: real, b: real): real {
    if a <= b then a else b
  }

  /** The tokens that dt seconds add. */
  function Refill(l: Limits, dt: real): real {
    dt * l.rate
  }

  /** What the identity's bucket holds at time now: a new one is full. */
  function Level(l: Limits, buckets: Buckets, id: Identity, now: real): real {
    if id !in buckets then l.burst
    else Min(l.burst, buckets[id].tokens + Refill(l, now - buckets[id].at))
  }

  /** The seconds until an empty-handed bucket holds one token again. */
  function Need(l: Limits, level: real): real
    requires l.rate > 0.0
  {
    (1.0 - level) / l.rate
  }

  /** The Retry-After header: the need to three places, at least one second. */
  function Report(l: Limits, level: real): real {
    if l.rate <= 0.0 then 60.0
    else if Round3(Need(l, level)) >= 1.0 then Round3(Need(l, level))
    else 1.0
  }

  /** `check`: None when allowed, else the seconds it reports. */
  function Check(l: Limits, buckets: Buckets, id: Identity, now: real): (Buckets, Option<real>)
    requires l.Valid()
  {
    var level := Level(l, buckets, id, now);
    if level >= 1.0 then (buckets[id := Bucket(level - 1.0, now)], None)
    else (buckets[id := Bucket(level, now)], Some(Report(l, level)))
  }

  datatype Call = Call(id: Identity, now: real)

  function After(l: Limits, calls: seq<Call>): Buckets
    requires l.Valid()
  {
    if calls == [] then map[]
    else
      var c := calls[|calls| - 1];
      Check(l, After(l, calls[..|calls| - 1]), c.id, c.now).0
  }

  predicate Admitted(l: Limits, calls: seq<Call>, k: nat)
    requires l.Valid() && k < |calls|
  {
    Check(l, After(l, calls[..k]), calls[k].id, calls[k].now).1.None?
  }

  /** Calls of the identity admitted among calls[lo..hi]. */
  function AdmittedIn(l: Limits, calls: seq<Call>, id: Identity, lo: nat, hi: nat): nat
    requires l.Valid() && hi <= |calls|
  {
    if hi <= lo then 0
    else
      AdmittedIn(l, calls, id, lo, hi - 1)
      + if calls[hi - 1].id == id && Admitted(l, calls, hi - 1) then 1 else 0
  }

  predicate Ordered(calls: seq<Call>) {
    forall i, j :: 0 <= i < j < |calls| ==> calls[i].now <= calls[j].now
  }

  // ----- one bucket --------------------------------------------------------------------------------

  lemma RefillIsNonNegative(l: Limits, dt: real)
    requires l.Valid() && dt >= 0.0
    ensures Refill(l, dt) >= 0.0
  {
  }

  lemma RefillAdds(l: Limits, a: real, b: real)
    ensures Refill(l, a + b) == Refill(l, a) + Refill(l, b)
  {
  }

  /** Between calls a bucket gains at most the refill, and never loses. */
  lemma LevelGrows(l: Limits, buckets: Buckets, id: Identity, t: real, later: real)
    requires l.Valid() && t <= later
    ensures Level(l, buckets, id, t) <= Level(l, buckets, id, later)
    ensures Level(l, buckets, id, later) <= Level(l, buckets, id, t) + Refill(l, later - t)
  {
    RefillIsNonNegative(l, later - t);
    if id in buckets {
      RefillAdds(l, t - buckets[id].at, later - t);
      assert t - buckets[id].at + (later - t) == later - buckets[id].at;
    }
  }

  /** The bucket is within [0, burst] and was last touched no later than now. */
  predicate Sane(l: Limits, buckets: Buckets, id: Identity, now: real) {
    id in buckets ==> 0.0 <= buckets[id].tokens <= l.burst && buckets[id].at <= now
  }

  lemma LevelIsBounded(l: Limits, buckets: Buckets, id: Identity, now: real)
    requires l.Valid() && Sane(l, buckets, id, now)
    ensures 0.0 <= Level(l, buckets, id, now) <= l.burst
  {
    if id in buckets {
      RefillIsNonNegative(l, now - buckets[id].at);
    }
  }

  predicate SameBucket(a: Buckets, b: Buckets, id: Identity) {
    (id in a <==> id in b) && (id in a ==> a[id] == b[id])
  }

  predicate Admits(l: Limits, buckets: Buckets, id: Identity, now: real) {
    Level(l, buckets, id, now) >= 1.0
  }

  /** What one call does to its own bucket. */
  lemma CheckTakesOne(l: Limits, buckets: Buckets, id: Identity, now: real)
    requires l.Valid() && Sane(l, buckets, id, now)
    ensures var after := Check(l, buckets, id, now).0;
      && after.Keys == buckets.Keys + {id}
      && after[id].at == now && Sane(l, after, id, now)
      && Level(l, after, id, now) == Level(l, buckets, id, now) - (if Admits(l, buckets, id, now) then 1.0 else 0.0)
      && forall other: Identity :: other != id ==> SameBucket(after, buckets, other)
  {
    LevelIsBounded(l, buckets, id, now);
    assert Refill(l, now - now) == 0.0;
  }

  /** Every bucket is sane at any time from the latest call on. */
  lemma {:induction false} RunsAreSane(l: Limits, calls: seq<Call>, id: Identity, now: real)
    requires l.Valid() && Ordered(calls) && (calls != [] ==> calls[|calls| - 1].now <= now)
    ensures Sane(l, After(l, calls), id, now)
  {
    if calls != [] {
      var c := calls[|calls| - 1];
      RunsAreSane(l, calls[..|calls| - 1], id, c.now);
      RunsAreSane(l, calls[..|calls| - 1], c.id, c.now);
      CheckTakesOne(l, After(l, calls[..|calls| - 1]), c.id, c.now);
    }
  }

  // ----- the bound -----------------------------------------------------------------------------------

  lemma SameLevel(l: Limits, a: Buckets, b: Buckets, id: Identity, now: real)
    requires SameBucket(a, b, id)
    ensures Level(l, a, id, now) == Level(l, b, id, now)
  {
  }

  lemma StepLevel(l: Limits, calls: seq<Call>, id: Identity)
    requires l.Valid() && Ordered(calls) && calls != []
    ensures var c := calls[|calls| - 1];
      var before := After(l, calls[..|calls| - 1]);
      Level(l, After(l, calls), id, c.now)
        == Level(l, before, id, c.now) - if c.id == id && Admits(l, before, id, c.now) then 1.0 else 0.0
  {
    var c := calls[|calls| - 1];
    RunsAreSane(l, calls[..|calls| - 1], c.id, c.now);
    CheckTakesOne(l, After(l, calls[..|calls| - 1]), c.id, c.now);
    if c.id != id {
      SameLevel(l, After(l, calls), After(l, calls[..|calls| - 1]), id, c.now);
    }
  }

  lemma AdmittedMeansLevel(l: Limits, calls: seq<Call>, k: nat)
    requires l.Valid() && k < |calls|
    ensures Admitted(l, calls, k) <==> Admits(l, After(l, calls[..k]), calls[k].id, calls[k].now)
  {
  }

  /** Admitted in calls[lo..hi], plus what the bucket holds right after. */
  function Drawn(l: Limits, calls: seq<Call>, id: Identity, lo: nat, hi: nat): real
    requires l.Valid() && lo < hi <= |calls|
  {
    AdmittedIn(l, calls, id, lo, hi) as real + Level(l, After(l, calls[..hi]), id, calls[hi - 1].now)
  }

  lemma DrawnByOne(l: Limits, calls: seq<Call>, id: Identity, lo: nat, hi: nat)
    requires l.Valid() && Ordered(calls) && lo < hi <= |calls|
    ensures Drawn(l, calls, id, lo, hi)
      == AdmittedIn(l, calls, id, lo, hi - 1) as real + Level(l, After(l, calls[..hi - 1]), id, calls[hi - 1].now)
  {
    assert calls[..hi][..hi - 1] == calls[..hi - 1];
    StepLevel(l, calls[..hi], id);
    AdmittedMeansLevel(l, calls, hi - 1);
  }

  /** What is admitted in a window, plus what the bucket still holds, is paid for by one burst and
      the refill. */
  lemma {:induction false} WindowIsPaidFor(l: Limits, calls: seq<Call>, id: Identity, lo: nat, hi: nat)
    requires l.Valid() && Ordered(calls) && lo < hi <= |calls|
    ensures Drawn(l, calls, id, lo, hi) <= l.burst + Refill(l, calls[hi - 1].now - calls[lo].now)
  {
    var now := calls[hi - 1].now;
    DrawnByOne(l, calls, id, lo, hi);
    if lo < hi - 1 {
      var prev := calls[hi - 2].now;
      WindowIsPaidFor(l, calls, id, lo, hi - 1);
      LevelGrows(l, After(l, calls[..hi - 1]), id, prev, now);
      RefillAdds(l, prev - calls[lo].now, now - prev);
      assert prev - calls[lo].now + (now - prev) == now - calls[lo].now;
    } else {
      assert AdmittedIn(l, calls, id, lo, lo) == 0;
      RefillIsNonNegative(l, now - calls[lo].now);
    }
  }

  /** On any non-decreasing clock, over any contiguous stretch of calls spanning at most T seconds,
      an identity is admitted at most burst + rate * T times. */
  lemma AdmissionsAreBounded(l: Limits, calls: seq<Call>, id: Identity, lo: nat, hi: nat, T: real)
    requires l.Valid() && Ordered(calls) && lo < hi <= |calls| && calls[hi - 1].now - calls[lo].now <= T
    ensures AdmittedIn(l, calls, id, lo, hi) as real <= l.burst + Refill(l, T)
  {
    WindowIsPaidFor(l, calls, id, lo, hi);
    RunsAreSane(l, calls[..hi], id, calls[hi - 1].now);
    LevelIsBounded(l, After(l, calls[..hi]), id, calls[hi - 1].now);
    var span := calls[hi - 1].now - calls[lo].now;
    RefillIsNonNegative(l, T - span);
    RefillAdds(l, span, T - span);
    assert span + (T - span) == T;
  }

  // ----- the bucket, exactly ---------------------------------------------------------------------------

  /** What one burst and the refill since call j leave after the identity's admissions since then. */
  function Remainder(l: Limits, calls: seq<Call>, id: Identity, j: nat, k: nat, now: real): real
    requires l.Valid() && j < k <= |calls|
  {
    l.burst + Refill(l, now - calls[j].now) - AdmittedIn(l, calls, id, j, k) as real
  }

  lemma RemainderNext(l: Limits, calls: seq<Call>, id: Identity, j: nat, k: nat, t: real, now: real)
    requires l.Valid() && j < k < |calls|
    ensures Remainder(l, calls, id, j, k + 1, now) == Remainder(l, calls, id, j, k, t) + Refill(l, now - t)
      - if calls[k].id == id && Admitted(l, calls, k) then 1.0 else 0.0
  {
    RefillAdds(l, t - calls[j].now, now - t);
    assert t - calls[j].now + (now - t) == now - calls[j].now;
  }

  /** A bucket below its burst holds what some earlier call left. */
  lemma {:induction false} LevelIsARemainder(l: Limits, calls: seq<Call>, id: Identity, k: nat, now: real) returns (j: nat)
    requires l.Valid() && Ordered(calls) && k <= |calls| && (k > 0 ==> calls[k - 1].now <= now)
    requires Level(l, After(l, calls[..k]), id, now) < l.burst
    ensures j < k && Level(l, After(l, calls[..k]), id, now) == Remainder(l, calls, id, j, k, now)
  {
    assert k > 0;
    var c, before := calls[k - 1], After(l, calls[..k - 1]);
    assert calls[..k][..k - 1] == calls[..k - 1];
    if c.id != id {
      OthersUntouched(l, before, c.id, c.now, id);
      SameLevel(l, After(l, calls[..k]), before, id, now);
      j := LevelIsARemainder(l, calls, id, k - 1, now);
    } else {
      var level := Level(l, before, id, c.now);
      AdmittedMeansLevel(l, calls, k - 1);
      if level < l.burst {
        j := LevelIsARemainder(l, calls, id, k - 1, c.now);
        RemainderNext(l, calls, id, j, k - 1, c.now, now);
      } else {
        j := k - 1;
        assert AdmittedIn(l, calls, id, j, j) == 0;
      }
    }
  }

  /** With call k admitted too, the identity would stay within one burst and the refill since call j. */
  predicate Fits(l: Limits, calls: seq<Call>, j: nat, k: nat)
    requires l.Valid() && j <= k < |calls|
  {
    AdmittedIn(l, calls, calls[k].id, j, k) as real + 1.0 <= l.burst + Refill(l, calls[k].now - calls[j].now)
  }

  lemma AdmittedFits(l: Limits, calls: seq<Call>, j: nat, k: nat)
    requires l.Valid() && Ordered(calls) && j <= k < |calls| && Admitted(l, calls, k)
    ensures Fits(l, calls, j, k)
  {
    AdmissionsAreBounded(l, calls, calls[k].id, j, k + 1, calls[k].now - calls[j].now);
  }

  lemma RefusedDoesNotFit(l: Limits, calls: seq<Call>, k: nat) returns (j: nat)
    requires l.Valid() && Ordered(calls) && k < |calls| && !Admitted(l, calls, k)
    ensures j <= k && !Fits(l, calls, j, k)
  {
    AdmittedMeansLevel(l, calls, k);
    j := LevelIsARemainder(l, calls, calls[k].id, k, calls[k].now);
  }

  /** A call is admitted exactly when it keeps every stretch that ends with it within one burst and its
      refill: the bucket refuses no call that the bound allows. */
  lemma AdmittedExactly(l: Limits, calls: seq<Call>, k: nat)
    requires l.Valid() && Ordered(calls) && k < |calls|
    ensures Admitted(l, calls, k) <==> forall j: nat :: j <= k ==> Fits(l, calls, j, k)
  {
    if Admitted(l, calls, k) {
      forall j: nat | j <= k ensures Fits(l, calls, j, k) {
        AdmittedFits(l, calls, j, k);
      }
    } else {
      var j := RefusedDoesNotFit(l, calls, k);
    }
  }

  // ----- who is served ---------------------------------------------------------------------------------

  predicate HasLast(calls: seq<Call>, id: Identity, at: real) {
    exists c <- calls :: c.id == id && c.now == at
  }

  lemma {:induction false} BucketsHoldTheLastCall(l: Limits, calls: seq<Call>, id: Identity)
    requires l.Valid() && id in After(l, calls)
    ensures HasLast(calls, id, After(l, calls)[id].at)
  {
    var init, c := calls[..|calls| - 1], calls[|calls| - 1];
    assert c in calls;
    if id != c.id {
      BucketsHoldTheLastCall(l, init, id);
    }
  }

  /** A call at least 1/rate after every earlier call of its identity is never refused. */
  lemma SpacedCallIsServed(l: Limits, calls: seq<Call>, k: nat)
    requires l.Valid() && l.rate > 0.0 && Ordered(calls) && k < |calls|
    requires forall c <- calls[..k] :: c.id == calls[k].id ==> calls[k].now - c.now >= 1.0 / l.rate
    ensures Admitted(l, calls, k)
  {
    var id, now := calls[k].id, calls[k].now;
    var before := After(l, calls[..k]);
    AdmittedMeansLevel(l, calls, k);
    RunsAreSane(l, calls[..k], id, now);
    if id in before {
      BucketsHoldTheLastCall(l, calls[..k], id);
      FullPeriodRefills(l, now - before[id].at);
    }
  }

  lemma FullPeriodRefills(l: Limits, dt: real)
    requires l.Valid() && l.rate > 0.0 && dt >= 1.0 / l.rate
    ensures Refill(l, dt) >= 1.0
  {
    assert Refill(l, 1.0 / l.rate) == 1.0;
    assert Refill(l, dt - 1.0 / l.rate) >= 0.0;
    RefillAdds(l, 1.0 / l.rate, dt - 1.0 / l.rate);
    assert 1.0 / l.rate + (dt - 1.0 / l.rate) == dt;
  }

  /** The verdict on a refused identity's next call, if it waits so long and nothing of its own comes
      in between. */
  function NextVerdict(l: Limits, buckets: Buckets, id: Identity, now: real, wait: real): Option<real>
    requires l.Valid()
  {
    Check(l, Check(l, buckets, id, now).0, id, now + wait).1
  }

  /** A refused identity is admitted again exactly from its need on. */
  lemma AdmittedFromNeedOn(l: Limits, buckets: Buckets, id: Identity, now: real, wait: real)
    requires l.Valid() && l.rate > 0.0 && wait >= 0.0
    requires Check(l, buckets, id, now).1.Some?
    ensures NextVerdict(l, buckets, id, now, wait).None? <==> wait >= Need(l, Level(l, buckets, id, now))
  {
    var level := Level(l, buckets, id, now);
    var need := Need(l, level);
    assert need * l.rate == 1.0 - level;
    assert Refill(l, wait) >= 1.0 - level <==> wait >= need;
    assert now + wait - now == wait;
  }

  /** Without a refill a refused identity stays refused, and is told a minute each time. */
  lemma NoRefillNeverReadmits(l: Limits, buckets: Buckets, id: Identity, now: real, wait: real)
    requires l.Valid() && l.rate == 0.0 && wait >= 0.0 && Check(l, buckets, id, now).1.Some?
    ensures Check(l, buckets, id, now).1 == Some(60.0) && NextVerdict(l, buckets, id, now, wait) == Some(60.0)
  {
  }

  /** Waiting the reported seconds is enough exactly when the need is at most a second or rounding did
      not lower it. */
  lemma ReportSufficesExactly(l: Limits, buckets: Buckets, id: Identity, now: real)
    requires l.Valid() && l.rate > 0.0 && Check(l, buckets, id, now).1.Some?
    ensures var report := Check(l, buckets, id, now).1.value; var need := Need(l, Level(l, buckets, id, now));
      NextVerdict(l, buckets, id, now, report).None? <==> need <= 1.0 || Round3(need) >= need
  {
    AdmittedFromNeedOn(l, buckets, id, now, Check(l, buckets, id, now).1.value);
  }

  /** The report is never short by more than half a millisecond, nor long by more unless it is the
      one-second minimum. */
  lemma ReportIsClose(l: Limits, buckets: Buckets, id: Identity, now: real)
    requires l.Valid() && l.rate > 0.0 && Check(l, buckets, id, now).1.Some?
    ensures var report := Check(l, buckets, id, now).1.value; var need := Need(l, Level(l, buckets, id, now));
      && need - 0.0005 <= report
      && (report <= need + 0.0005 || report == 1.0)
      && NextVerdict(l, buckets, id, now, report + 0.0005).None?
  {
    Round3IsClose(Need(l, Level(l, buckets, id, now)));
    AdmittedFromNeedOn(l, buckets, id, now, Check(l, buckets, id, now).1.value + 0.0005);
  }

  /** With 30 a minute and a burst of one, a call at 0.7656 is told to wait 1.234 seconds and is refused
      again when it has. */
  lemma RoundedReportFallsShort()
    ensures var l := LimitsOf(30, 1);
      var first := Check(l, map[], "agent", 0.0).0;
      && Check(l, map[], "agent", 0.0).1.None?
      && Check(l, first, "agent", 0.7656).1 == Some(1.234)
      && NextVerdict(l, first, "agent", 0.7656, 1.234).Some?
  {
    var l := LimitsOf(30, 1);
    var first := Check(l, map[], "agent", 0.0).0;
    assert l == Limits(0.5, 1.0) && first["agent"] == Bucket(0.0, 0.0);
    assert Level(l, first, "agent", 0.7656) == 0.3828;
    assert Need(l, 0.3828) == 1.2344;
    assert (1234.4 as real).Floor == 1234;
    assert Round3(1.2344) == 1.234;
    AdmittedFromNeedOn(l, first, "agent", 0.7656, 1.234);
  }

  /** A refused call costs nothing: the bucket is as full at every later time as without it. */
  lemma RefusalIsFree(l: Limits, buckets: Buckets, id: Identity, now: real, later: real)
    requires l.Valid() && now <= later && Check(l, buckets, id, now).1.Some?
    ensures Level(l, Check(l, buckets, id, now).0, id, later) == Level(l, buckets, id, later)
  {
    assert id in buckets;
    RefillAdds(l, now - buckets[id].at, later - now);
    assert now - buckets[id].at + (later - now) == later - buckets[id].at;
    RefillIsNonNegative(l, later - now);
  }

  function Own(calls: seq<Call>, id: Identity): seq<Call> {
    if calls == [] then []
    else Own(calls[..|calls| - 1], id) + if calls[|calls| - 1].id == id then [calls[|calls| - 1]] else []
  }

  lemma SameVerdict(l: Limits, a: Buckets, b: Buckets, id: Identity, now: real)
    requires l.Valid() && SameBucket(a, b, id)
    ensures Check(l, a, id, now).1 == Check(l, b, id, now).1
    ensures SameBucket(Check(l, a, id, now).0, Check(l, b, id, now).0, id)
  {
  }

  lemma OthersUntouched(l: Limits, buckets: Buckets, who: Identity, now: real, id: Identity)
    requires l.Valid() && who != id
    ensures SameBucket(Check(l, buckets, who, now).0, buckets, id)
  {
  }

  /** An identity's bucket, and so its next verdict, depends on its own calls only. */
  lemma {:induction false} IdentitiesAreIndependent(l: Limits, calls: seq<Call>, id: Identity, now: real)
    requires l.Valid()
    ensures SameBucket(After(l, calls), After(l, Own(calls, id)), id)
    ensures Check(l, After(l, calls), id, now).1 == Check(l, After(l, Own(calls, id)), id, now).1
  {
    if calls != [] {
      var n := |calls| - 1;
      IdentitiesAreIndependent(l, calls[..n], id, calls[n].now);
      if calls[n].id == id {
        var own := Own(calls, id);
        assert own[..|own| - 1] == Own(calls[..n], id);
        SameVerdict(l, After(l, calls[..n]), After(l, Own(calls[..n], id)), id, calls[n].now);
      } else {
        assert Own(calls, id) == Own(calls[..n], id);
        OthersUntouched(l, After(l, calls[..n]), calls[n].id, calls[n].now, id);
      }
    }
    SameVerdict(l, After(l, calls), After(l, Own(calls, id)), id, now);
  }

  // ----- the limiter ------------------------------------------------------------------------------------

  class RateLimiter {
    const limits: Limits
    var buckets: Buckets

    constructor (ratePerMin: int, burst: int)
      ensures limits == LimitsOf(ratePerMin, burst) && buckets == map[]
    {
      limits := LimitsOf(ratePerMin, burst);
      buckets := map[];
    }

    method CheckAt(id: Identity, now: real) returns (retryAfter: Option<real>)
      requires limits.Valid()
      modifies `buckets
      ensures (buckets, retryAfter) == Check(limits, old(buckets), id, now)
    {
      var tokens, at := limits.burst, now;
      if id in buckets {
        tokens, at := buckets[id].tokens, buckets[id].at;
      }
      tokens := Min(limits.burst, tokens + Refill(limits, now - at));
      if tokens < 1.0 {
        buckets := buckets[id := Bucket(tokens, now)];
        if limits.rate <= 0.0 { return Some(60.0); }
        var wait := Round3((1.0 - tokens) / limits.rate);
        return Some(if wait >= 1.0 then wait else 1.0);
      }
      buckets := buckets[id := Bucket(tokens - 1.0, now)];
      return None;
    }
  }
}
