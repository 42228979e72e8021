/** The capacity gate of one model call (runtime/budget.py, runtime/policy.py): caps, zones and
    the verdict over a workstream's allocation rows and the org ceiling. */
module BudgetGate {
  import opened Common

  type Workstream = string

  /** The reserved workstream that holds the org ceiling. */
  const ORG: Workstream := "__org__"

  datatype Period = Daily | Monthly | Rolling30d | AllTime

  datatype Key = Key(workstream: Workstream, period: Period)

  datatype Quantity = Quantity(usd: real, tokens: int)

  /** Spend, estimates and reservations are never negative. */
  type Amount = a: Quantity | a.usd >= 0.0 && a.tokens >= 0 witness Quantity(0.0, 0)

  const ZERO: Amount := Quantity(0.0, 0)

  function Plus(a: Amount, b: Amount): Amount {
    Quantity(a.usd + b.usd, a.tokens + b.tokens)
  }

  /** `GREATEST(a - b, 0)` per column. */
  function FloorMinus(a: Amount, b: Amount): Amount {
    Quantity(if a.usd >= b.usd then a.usd - b.usd else 0.0,
             if a.tokens >= b.tokens then a.tokens - b.tokens else 0)
  }

  datatype Resource = Usd | Tokens

  function Of(a: Quantity, r: Resource): real {
    match r
    case Usd => a.usd
    case Tokens => a.tokens as real
  }

  /** One budgets row's configuration; None is NULL. */
  datatype Caps = Caps(usd: Option<real>, tokens: Option<int>,
                       warn: Option<real>, throttle: Option<real>, reserve: Option<real>)

  function CapOf(c: Caps, r: Resource): Option<real> {
    match r
    case Usd => c.usd
    case Tokens => if c.tokens.Some? then Some(c.tokens.value as real) else None
  }

  /** A row with no cap only tracks; it constrains nothing. */
  predicate Capped(c: Caps) {
    c.usd.Some? || c.tokens.Some?
  }

  /** Where the buffer of a cap starts. */
  function ReserveThreshold(c: Caps, r: Resource): real
    requires c.reserve.Some? && CapOf(c, r).Some?
  {
    c.reserve.value * CapOf(c, r).value
  }

  datatype Purpose = Normal | WindDown | Escalation

  datatype Zone = ZoneOk | ZoneWarn | ZoneThrottle | ZoneReserve | ZoneOver

  /** A cap, its accrued spend, the cushion of other calls in flight, and this call. */
  datatype Status = Status(key: Key, caps: Caps, spent: Amount, reserved: Amount, est: Amount) {
    function Projected(r: Resource): real {
      Of(spent, r) + Of(reserved, r) + Of(est, r)
    }

    /** The policy engine's predicate on (spent, reserved + est). */
    predicate WouldExceed() {
      || (caps.tokens.Some? && spent.tokens + (est.tokens + reserved.tokens) > caps.tokens.value)
      || (caps.usd.Some? && spent.usd + (est.usd + reserved.usd) > caps.usd.value)
    }

    /** The largest projected fraction over the positive caps. */
    function Fraction(): Option<real> {
      var usd := if caps.usd.Some? && caps.usd.value > 0.0 then Some(Projected(Usd) / caps.usd.value) else None;
      var tokens := if caps.tokens.Some? && caps.tokens.value > 0
                    then Some(Projected(Tokens) / (caps.tokens.value as real)) else None;
      if usd.None? then tokens
      else if tokens.None? then usd
      else if usd.value >= tokens.value then usd else tokens
    }

    function ZoneOf(): Zone {
      if WouldExceed() then ZoneOver
      else
        var f := Fraction();
        if f.None? then ZoneOk
        else if caps.reserve.Some? && f.value >= caps.reserve.value then ZoneReserve
        else if caps.throttle.Some? && f.value >= caps.throttle.value then ZoneThrottle
        else if caps.warn.Some? && f.value >= caps.warn.value then ZoneWarn
        else ZoneOk
    }

    /** Does this row refuse the call? */
    predicate Blocks(purpose: Purpose) {
      ZoneOf() == ZoneOver || (purpose == Normal && ZoneOf() == ZoneReserve)
    }
  }

  lemma QuotientBelow(x: real, cap: real, f: real)
    requires cap > 0.0 && x / cap < f
    ensures x < f * cap
  {
  }

  lemma QuotientAtLeast(x: real, cap: real, f: real)
    requires cap > 0.0 && x / cap >= f
    ensures x >= f * cap
  {
  }

  /** `over` means exactly that some configured cap would be crossed. */
  lemma OverMeansCapCrossed(s: Status)
    ensures s.ZoneOf() == ZoneOver <==>
      exists r: Resource :: CapOf(s.caps, r).Some? && s.Projected(r) > CapOf(s.caps, r).value
  {
    if s.ZoneOf() == ZoneOver {
      if s.caps.tokens.Some? && s.spent.tokens + (s.est.tokens + s.reserved.tokens) > s.caps.tokens.value {
        assert CapOf(s.caps, Tokens).Some? && s.Projected(Tokens) > CapOf(s.caps, Tokens).value;
      } else {
        assert CapOf(s.caps, Usd).Some? && s.Projected(Usd) > CapOf(s.caps, Usd).value;
      }
    }
  }

  lemma FractionCovers(s: Status, r: Resource)
    requires CapOf(s.caps, r).Some? && CapOf(s.caps, r).value > 0.0
    ensures s.Fraction().Some? && s.Projected(r) / CapOf(s.caps, r).value <= s.Fraction().value
  {
    match r
    case Usd =>
    case Tokens =>
      assert s.caps.tokens.value > 0;
  }

  lemma BelowReserve(s: Status, r: Resource)
    requires CapOf(s.caps, r).Some? && CapOf(s.caps, r).value > 0.0
    requires s.caps.reserve.Some? && s.Fraction().Some? && s.Fraction().value < s.caps.reserve.value
    ensures s.Projected(r) < ReserveThreshold(s.caps, r)
  {
    FractionCovers(s, r);
    QuotientBelow(s.Projected(r), CapOf(s.caps, r).value, s.caps.reserve.value);
  }

  /** A row lets a call through only below every cap, and a normal call only below the reserve
      threshold of every positive cap. */
  lemma LetThroughMeansRoom(s: Status, purpose: Purpose, r: Resource)
    requires !s.Blocks(purpose) && CapOf(s.caps, r).Some?
    ensures s.Projected(r) <= CapOf(s.caps, r).value
    ensures purpose == Normal && s.caps.reserve.Some? && CapOf(s.caps, r).value > 0.0 ==>
      s.Projected(r) < ReserveThreshold(s.caps, r)
  {
    OverMeansCapCrossed(s);
    assert s.Projected(r) <= CapOf(s.caps, r).value;
    if purpose == Normal && s.caps.reserve.Some? && CapOf(s.caps, r).value > 0.0 {
      FractionCovers(s, r);
      assert s.ZoneOf() != ZoneOver && s.ZoneOf() != ZoneReserve;
      BelowReserve(s, r);
    }
  }

  predicate ReachesReserve(s: Status, r: Resource)
    requires CapOf(s.caps, r).Some?
  {
    && s.caps.reserve.Some? && CapOf(s.caps, r).value > 0.0
    && s.Projected(r) >= ReserveThreshold(s.caps, r)
  }

  /** Exactly when a row refuses a normal call: a cap would be crossed, or some positive cap has
      reached its reserve threshold. */
  lemma NormalBlockedExactly(s: Status)
    ensures s.Blocks(Normal) <==>
      exists r: Resource :: CapOf(s.caps, r).Some? && (s.Projected(r) > CapOf(s.caps, r).value || ReachesReserve(s, r))
  {
    OverMeansCapCrossed(s);
    if !s.Blocks(Normal) {
      forall r: Resource | CapOf(s.caps, r).Some?
        ensures s.Projected(r) <= CapOf(s.caps, r).value && !ReachesReserve(s, r)
      {
        LetThroughMeansRoom(s, Normal, r);
      }
    } else if s.ZoneOf() == ZoneReserve {
      var usd := CapOf(s.caps, Usd);
      if usd.Some? && usd.value > 0.0 && s.Fraction().value == s.Projected(Usd) / usd.value {
        QuotientAtLeast(s.Projected(Usd), usd.value, s.caps.reserve.value);
        assert ReachesReserve(s, Usd);
      } else {
        assert s.caps.tokens.value > 0;
        QuotientAtLeast(s.Projected(Tokens), CapOf(s.caps, Tokens).value, s.caps.reserve.value);
        assert ReachesReserve(s, Tokens);
      }
    }
  }

  /** Some positive cap is used up to this fraction. */
  predicate Reaches(s: Status, fraction: real, r: Resource) {
    CapOf(s.caps, r).Some? && CapOf(s.caps, r).value > 0.0 && s.Projected(r) >= fraction * CapOf(s.caps, r).value
  }

  lemma ReachIsQuotient(s: Status, f: real, r: Resource)
    requires CapOf(s.caps, r).Some? && CapOf(s.caps, r).value > 0.0
    ensures Reaches(s, f, r) <==> s.Projected(r) / CapOf(s.caps, r).value >= f
  {
    var x, cap := s.Projected(r), CapOf(s.caps, r).value;
    if x / cap >= f {
      QuotientAtLeast(x, cap, f);
    } else {
      QuotientBelow(x, cap, f);
    }
  }

  /** The projected fraction of one cap; a missing or zero cap has none. */
  function Part(s: Status, r: Resource): Option<real> {
    var cap := CapOf(s.caps, r);
    if cap.Some? && cap.value > 0.0 then Some(s.Projected(r) / cap.value) else None
  }

  predicate AtLeast(x: Option<real>, f: real) {
    x.Some? && x.value >= f
  }

  lemma FractionIsTheLarger(s: Status, f: real)
    ensures AtLeast(s.Fraction(), f) <==> AtLeast(Part(s, Usd), f) || AtLeast(Part(s, Tokens), f)
  {
  }

  /** The fraction has reached a threshold exactly when some positive cap has. */
  lemma FractionReaches(s: Status, f: real)
    ensures AtLeast(s.Fraction(), f) <==> Reaches(s, f, Usd) || Reaches(s, f, Tokens)
  {
    FractionIsTheLarger(s, f);
    forall r: Resource ensures AtLeast(Part(s, r), f) <==> Reaches(s, f, r) {
      if Part(s, r).Some? {
        ReachIsQuotient(s, f, r);
      }
    }
  }

  /** A threshold that is configured and that some positive cap has reached. */
  predicate Past(s: Status, threshold: Option<real>) {
    threshold.Some? && (Reaches(s, threshold.value, Usd) || Reaches(s, threshold.value, Tokens))
  }

  lemma PastIsFraction(s: Status, threshold: Option<real>)
    ensures Past(s, threshold) <==> threshold.Some? && AtLeast(s.Fraction(), threshold.value)
  {
    if threshold.Some? {
      FractionReaches(s, threshold.value);
    }
  }

  /** Each zone, from the caps and thresholds alone: the hard caps first, then the strictest threshold that
      some positive cap has reached. */
  lemma ZoneExactly(s: Status)
    ensures s.ZoneOf() == ZoneReserve <==> s.ZoneOf() != ZoneOver && Past(s, s.caps.reserve)
    ensures s.ZoneOf() == ZoneThrottle
      <==> s.ZoneOf() != ZoneOver && !Past(s, s.caps.reserve) && Past(s, s.caps.throttle)
    ensures s.ZoneOf() == ZoneWarn
      <==> s.ZoneOf() != ZoneOver && !Past(s, s.caps.reserve) && !Past(s, s.caps.throttle) && Past(s, s.caps.warn)
    ensures s.ZoneOf() == ZoneOk
      <==> s.ZoneOf() != ZoneOver && !Past(s, s.caps.reserve) && !Past(s, s.caps.throttle) && !Past(s, s.caps.warn)
  {
    PastIsFraction(s, s.caps.reserve);
    PastIsFraction(s, s.caps.throttle);
    PastIsFraction(s, s.caps.warn);
  }

  /** With the reserve buffer intact a wind_down or escalation call that fits the buffer is not
      blocked by the row. */
  lemma BufferLetsThrough(s: Status, purpose: Purpose)
    requires purpose != Normal
    requires forall r: Resource :: CapOf(s.caps, r).Some? ==> s.Projected(r) <= CapOf(s.caps, r).value
    ensures !s.Blocks(purpose)
  {
    OverMeansCapCrossed(s);
  }

  // ----- the rows of one call ------------------------------------------------------------------

  /** `workstream = ANY([ws, __org__])` */
  predicate Touches(ws: Workstream, key: Key) {
    key.workstream == ws || key.workstream == ORG
  }

  /** Every capped row of the workstream, with the spend read for it, lets the call through. */
  predicate Admissible(caps: map<Key, Caps>, reserved: map<Key, Amount>, spent: map<Key, Amount>,
                       ws: Workstream, est: Amount, purpose: Purpose)
    requires caps.Keys <= reserved.Keys
    requires forall k <- caps :: Touches(ws, k) && Capped(caps[k]) ==> k in spent
  {
    forall k <- caps :: Touches(ws, k) && Capped(caps[k]) ==>
      !Status(k, caps[k], spent[k], reserved[k], est).Blocks(purpose)
  }

  /** The row has room for the call in every cap, and for a normal call below its reserve. */
  ghost predicate HasRoom(caps: Caps, spent: Amount, reserved: Amount, est: Amount, purpose: Purpose) {
    forall r: Resource :: CapOf(caps, r).Some? ==>
      var projected, cap := Of(spent, r) + Of(reserved, r) + Of(est, r), CapOf(caps, r).value;
      projected <= cap && (purpose == Normal && caps.reserve.Some? && cap > 0.0 ==> projected < caps.reserve.value * cap)
  }

  lemma RoomExactly(k: Key, caps: Caps, spent: Amount, reserved: Amount, est: Amount, purpose: Purpose)
    ensures HasRoom(caps, spent, reserved, est, purpose) <==> !Status(k, caps, spent, reserved, est).Blocks(purpose)
  {
    var s := Status(k, caps, spent, reserved, est);
    forall r: Resource | CapOf(caps, r).Some?
      ensures s.Projected(r) == Of(spent, r) + Of(reserved, r) + Of(est, r)
      ensures caps.reserve.Some? ==> ReserveThreshold(caps, r) == caps.reserve.value * CapOf(caps, r).value
    {
    }
    if purpose == Normal {
      NormalBlockedExactly(s);
    } else {
      OverMeansCapCrossed(s);
    }
  }

  /** A call is admitted exactly when every row of its own workstream and of the org has room for it. */
  lemma AdmissibleExactly(caps: map<Key, Caps>, reserved: map<Key, Amount>, spent: map<Key, Amount>,
                          ws: Workstream, est: Amount, purpose: Purpose)
    requires caps.Keys <= reserved.Keys
    requires forall k <- caps :: Touches(ws, k) && Capped(caps[k]) ==> k in spent
    ensures Admissible(caps, reserved, spent, ws, est, purpose)
      <==> forall k <- caps :: (k.workstream == ws || k.workstream == ORG) && (caps[k].usd.Some? || caps[k].tokens.Some?) ==>
             HasRoom(caps[k], spent[k], reserved[k], est, purpose)
  {
    forall k <- caps | Touches(ws, k) && Capped(caps[k])
      ensures HasRoom(caps[k], spent[k], reserved[k], est, purpose)
        <==> !Status(k, caps[k], spent[k], reserved[k], est).Blocks(purpose)
    {
      RoomExactly(k, caps[k], spent[k], reserved[k], est, purpose);
    }
  }

  /** The reservation of an admitted call: its estimate on every capped row it touches. */
  function Reserve(caps: map<Key, Caps>, reserved: map<Key, Amount>, ws: Workstream, est: Amount): map<Key, Amount> {
    map k <- reserved :: if k in caps && Capped(caps[k]) && Touches(ws, k) then Plus(reserved[k], est) else reserved[k]
  }

  /** `release_reservation`: the estimate off every row the call touches, floored at zero. */
  function Release(reserved: map<Key, Amount>, ws: Workstream, est: Amount): map<Key, Amount> {
    map k <- reserved :: if Touches(ws, k) then FloorMinus(reserved[k], est) else reserved[k]
  }

  /** Releasing what was just reserved leaves every capped row as it was; a tracking-only row
      keeps its cushion exactly when that was zero or the estimate is. */
  lemma ReleaseUndoesReserve(caps: map<Key, Caps>, reserved: map<Key, Amount>, ws: Workstream, est: Amount, k: Key)
    requires k in caps && k in reserved
    ensures var back := Release(Reserve(caps, reserved, ws, est), ws, est);
      && k in back
      && (Capped(caps[k]) || !Touches(ws, k) ==> back[k] == reserved[k])
      && (!Capped(caps[k]) && Touches(ws, k) ==>
            (back[k] == reserved[k] <==>
               (reserved[k].usd == 0.0 || est.usd == 0.0) && (reserved[k].tokens == 0 || est.tokens == 0)))
  {
  }
}
