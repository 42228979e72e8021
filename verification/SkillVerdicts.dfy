/** Keep / revise / retire verdicts on skills (runtime/quality.py), judged from the Wilson intervals
    of the applied and baseline first-pass-merge rates. */
module SkillVerdicts {
  import opened Common
  import opened Rounding
  import opened Wilson

  /** A rate with its sample size and rounded interval. */
  datatype Rate = Rate(successes: int, n: int, ci: Option<Interval>)

  /** The unrounded interval a rate was reported from. */
  ghost predicate Measured(r: Rate, z: real, root: real) {
    && 0 <= r.successes <= r.n && r.n > 0 && z > 0.0
    && IsRoot(root, Radicand(r.successes, r.n, z))
    && r.ci == Some(Rounded(Score(r.successes, r.n, z, root)))
  }

  /** What `_rate_ci` builds: no interval exactly when there is no sample. */
  ghost predicate Made(r: Rate, z: real) {
    && (r.ci.None? <==> r.n <= 0)
    && (r.n > 0 ==> exists root: real :: Measured(r, z, root))
  }

  /** Applied minus baseline means of the exploration counts; None when either side is undefined. */
  datatype Deltas = Deltas(iterations: Option<real>, inputTokens: Option<real>, searchCalls: Option<real>)

  datatype Family = Family(name: string, applied: Rate, baseline: Rate, delta: Deltas)

  datatype Verdict = Retire | Revise | Keep | Insufficient

  predicate ConfidentlyWorse(a: Rate, b: Rate) {
    a.ci.Some? && b.ci.Some? && a.ci.value.upper < b.ci.value.lower
  }

  predicate ConfidentlyBetter(a: Rate, b: Rate) {
    a.ci.Some? && b.ci.Some? && a.ci.value.lower > b.ci.value.upper
  }

  predicate Below(delta: Option<real>, floor: real) {
    delta.Some? && delta.value < -floor
  }

  predicate ExploresLess(d: Deltas, floor: real) {
    Below(d.iterations, floor) || Below(d.inputTokens, floor) || Below(d.searchCalls, floor)
  }

  function FamilyVerdict(f: Family, minSample: int, floor: real): Verdict {
    if f.applied.n < minSample || f.baseline.n < minSample then Insufficient
    else if ConfidentlyWorse(f.applied, f.baseline) then Retire
    else if ExploresLess(f.delta, floor) || ConfidentlyBetter(f.applied, f.baseline) then Keep
    else Revise
  }

  /** The intervals do not meet, the first below the second. */
  predicate Separated(a: Option<Interval>, b: Option<Interval>) {
    a.Some? && b.Some? && a.value.upper < b.value.lower
  }

  /** Each verdict from the samples, the interval ends and the deltas alone. No verdict on a thin sample; a
      confident degradation retires, whatever the deltas; after that a benefit on any axis keeps. */
  lemma VerdictExactly(f: Family, minSample: int, floor: real)
    ensures var v := FamilyVerdict(f, minSample, floor);
      var enough := f.applied.n >= minSample && f.baseline.n >= minSample;
      var worse := Separated(f.applied.ci, f.baseline.ci);
      var benefit := Separated(f.baseline.ci, f.applied.ci)
        || (exists d :: d in {f.delta.iterations, f.delta.inputTokens, f.delta.searchCalls} && d.Some? && d.value < -floor);
      && (v == Insufficient <==> !enough)
      && (v == Retire <==> enough && worse)
      && (v == Keep <==> enough && !worse && benefit)
      && (v == Revise <==> enough && !worse && !benefit)
  {
    var axes := {f.delta.iterations, f.delta.inputTokens, f.delta.searchCalls};
    assert f.delta.iterations in axes && f.delta.inputTokens in axes && f.delta.searchCalls in axes;
  }

  // ----- what a confident comparison means --------------------------------------------------------

  lemma RatioOrder(a: int, n: int, b: int, m: int)
    requires n > 0 && m > 0 && Proportion(a, n) < Proportion(b, m)
    ensures a * m < b * n
  {
    var p, q, x, y := Proportion(a, n), Proportion(b, m), n as real, m as real;
    assert p * x == a as real && q * y == b as real;
    assert p * x * y == (a * m) as real;
    assert q * y * x == (b * n) as real;
    assert (q - p) * (x * y) > 0.0 by {
      assert x * y > 0.0;
    }
  }

  predicate PlausibleFor(r: Rate, z: real, x: real) {
    r.n > 0 && Plausible(Proportion(r.successes, r.n), Share(r.n, z), x)
  }

  /** Separated rounded intervals mean a strictly lower observed rate, and that every proportion
      plausible for the one side is below every proportion plausible for the other. */
  lemma WorseIsLower(a: Rate, b: Rate, z: real, x: real, y: real)
    requires Made(a, z) && Made(b, z) && ConfidentlyWorse(a, b)
    ensures a.n > 0 && b.n > 0 && a.successes * b.n < b.successes * a.n
    ensures PlausibleFor(a, z, x) && PlausibleFor(b, z, y) ==> x < y
  {
    var ra: real :| Measured(a, z, ra);
    var rb: real :| Measured(b, z, rb);
    var sa, sb := Score(a.successes, a.n, z, ra), Score(b.successes, b.n, z, rb);
    if sa.upper >= sb.lower {
      Round4KeepsOrder(sb.lower, sa.upper);
      assert false;
    }
    ScoreHoldsTheEstimate(a.successes, a.n, z, ra);
    ScoreHoldsTheEstimate(b.successes, b.n, z, rb);
    RatioOrder(a.successes, a.n, b.successes, b.n);
    ScoreIsThePlausibleSet(a.successes, a.n, z, ra, x);
    ScoreIsThePlausibleSet(b.successes, b.n, z, rb, y);
  }

  /** An applied cohort is never both confidently worse and confidently better. */
  lemma NeverWorseAndBetter(a: Rate, b: Rate, z: real)
    requires Made(a, z) && Made(b, z)
    ensures !(ConfidentlyWorse(a, b) && ConfidentlyBetter(a, b))
  {
    if ConfidentlyWorse(a, b) && ConfidentlyBetter(a, b) {
      WorseIsLower(a, b, z, 0.0, 0.0);
      WorseIsLower(b, a, z, 0.0, 0.0);
    }
  }

  /** `retire` means both samples reach the minimum and the applied cohort merged first-pass at a
      strictly lower rate; `keep` without an exploration benefit means a strictly higher one. */
  lemma VerdictsAreSound(f: Family, minSample: int, floor: real, z: real)
    requires Made(f.applied, z) && Made(f.baseline, z)
    ensures FamilyVerdict(f, minSample, floor) == Retire ==>
      && f.applied.n >= minSample && f.baseline.n >= minSample
      && f.applied.successes * f.baseline.n < f.baseline.successes * f.applied.n
    ensures FamilyVerdict(f, minSample, floor) == Keep && !ExploresLess(f.delta, floor) ==>
      && f.applied.n >= minSample && f.baseline.n >= minSample
      && f.applied.successes * f.baseline.n > f.baseline.successes * f.applied.n
  {
    if ConfidentlyWorse(f.applied, f.baseline) {
      WorseIsLower(f.applied, f.baseline, z, 0.0, 0.0);
    }
    if ConfidentlyBetter(f.applied, f.baseline) {
      WorseIsLower(f.baseline, f.applied, z, 0.0, 0.0);
    }
  }

  /** Turning a benefit into a harm is never hidden: swapping the cohorts of a retired family gives
      `keep`. */
  lemma SwappedRetireKeeps(f: Family, minSample: int, floor: real, delta: Deltas, z: real)
    requires Made(f.applied, z) && Made(f.baseline, z)
    requires FamilyVerdict(f, minSample, floor) == Retire
    ensures FamilyVerdict(Family(f.name, f.baseline, f.applied, delta), minSample, floor) == Keep
  {
    NeverWorseAndBetter(f.applied, f.baseline, z);
  }

  // ----- the roll-up --------------------------------------------------------------------------------

  datatype Judged = Judged(family: string, verdict: Verdict)

  function Severity(v: Verdict): nat {
    match v
    case Retire => 0
    case Revise => 1
    case Keep => 2
    case Insufficient => 3
  }

  /** Strings in code point order. */
  predicate NameBefore(a: string, b: string) {
    if b == "" then false
    else if a == "" then true
    else if a[0] != b[0] then a[0] < b[0]
    else NameBefore(a[1..], b[1..])
  }

  lemma {:induction false} NameBeforeIsTransitive(a: string, b: string, c: string)
    requires NameBefore(a, b) && NameBefore(b, c)
    ensures NameBefore(a, c)
  {
    if a != "" && a[0] == b[0] == c[0] {
      NameBeforeIsTransitive(a[1..], b[1..], c[1..]);
    }
  }

  lemma {:induction false} NameBeforeIsIrreflexive(a: string)
    ensures !NameBefore(a, a)
  {
    if a != "" {
      NameBeforeIsIrreflexive(a[1..]);
    }
  }

  predicate Before(a: Judged, b: Judged) {
    || Severity(a.verdict) < Severity(b.verdict)
    || (a.verdict == b.verdict && NameBefore(a.family, b.family))
  }

  lemma BeforeIsTransitive(a: Judged, b: Judged, c: Judged)
    requires Before(a, b) && Before(b, c)
    ensures Before(a, c)
  {
    if a.verdict == b.verdict == c.verdict {
      NameBeforeIsTransitive(a.family, b.family, c.family);
    }
  }

  predicate Has(js: seq<Judged>, v: Verdict) {
    exists j <- js :: j.verdict == v
  }

  /** The strongest concern among the families. */
  function Strongest(js: seq<Judged>): Verdict {
    if Has(js, Retire) then Retire
    else if Has(js, Revise) then Revise
    else if Has(js, Keep) then Keep
    else Insufficient
  }

  /** The first family that no other comes before. */
  function Driver(js: seq<Judged>): (d: Judged)
    requires js != []
    ensures d in js
  {
    var last := js[|js| - 1];
    if |js| == 1 then last
    else
      var best := Driver(js[..|js| - 1]);
      if Before(last, best) then last else best
  }

  lemma {:induction false} NoneBeforeDriver(js: seq<Judged>)
    requires js != []
    ensures forall j <- js :: !Before(j, Driver(js))
  {
    var n := |js| - 1;
    var d := Driver(js);
    NameBeforeIsIrreflexive(d.family);
    if n > 0 {
      NoneBeforeDriver(js[..n]);
      forall j <- js[..n] ensures !Before(j, d) {
        if Before(j, d) && d == js[n] && Before(d, Driver(js[..n])) {
          BeforeIsTransitive(j, d, Driver(js[..n]));
        }
      }
    }
  }

  lemma {:induction false} DriverIsStrongest(js: seq<Judged>)
    requires js != []
    ensures Driver(js).verdict == Strongest(js)
    ensures forall j <- js :: j.verdict == Strongest(js) ==> !NameBefore(j.family, Driver(js).family)
  {
    NoneBeforeDriver(js);
    assert Has(js, Driver(js).verdict);
  }

  /** The driving family: the strongest concern, ties to the name that sorts first. */
  method Drive(js: seq<Judged>) returns (driving: Judged)
    requires js != []
    ensures driving == Driver(js) && driving in js && driving.verdict == Strongest(js)
    ensures forall j <- js :: j.verdict == Strongest(js) ==> !NameBefore(j.family, driving.family)
  {
    driving := js[0];
    for i := 1 to |js|
      invariant driving == Driver(js[..i])
    {
      assert js[..i + 1][..i] == js[..i];
      if Before(js[i], driving) {
        driving := js[i];
      }
    }
    assert js[..|js|] == js;
    DriverIsStrongest(js);
  }

  datatype Skill = Skill(name: string, families: seq<Family>)

  datatype Ruling = Ruling(skill: string, verdict: Verdict, driving: Option<string>, families: seq<Judged>)

  function JudgeFamilies(fs: seq<Family>, minSample: int, floor: real): seq<Judged> {
    seq(|fs|, i requires 0 <= i < |fs| => Judged(fs[i].name, FamilyVerdict(fs[i], minSample, floor)))
  }

  function Rule(s: Skill, minSample: int, floor: real): Ruling {
    var js := JudgeFamilies(s.families, minSample, floor);
    Ruling(s.name, Strongest(js), if js == [] then None else Some(Driver(js).family), js)
  }

  /** Only live skills are judged; None judges every one. */
  predicate Live(live: Option<set<string>>, name: string) {
    live.None? || name in live.value
  }

  function Rulings(report: seq<Skill>, live: Option<set<string>>, minSample: int, floor: real): seq<Ruling> {
    if report == [] then []
    else
      var s := report[|report| - 1];
      Rulings(report[..|report| - 1], live, minSample, floor)
      + if Live(live, s.name) then [Rule(s, minSample, floor)] else []
  }

  /** The per-verdict counters of the summary. */
  datatype Counts = Counts(retire: nat, revise: nat, keep: nat, insufficient: nat) {
    function Plus(v: Verdict): Counts {
      match v
      case Retire => this.(retire := retire + 1)
      case Revise => this.(revise := revise + 1)
      case Keep => this.(keep := keep + 1)
      case Insufficient => this.(insufficient := insufficient + 1)
    }
  }

  function CountOf(rulings: seq<Ruling>, v: Verdict): nat {
    if rulings == [] then 0
    else CountOf(rulings[..|rulings| - 1], v) + if rulings[|rulings| - 1].verdict == v then 1 else 0
  }

  predicate Tallies(counts: Counts, rulings: seq<Ruling>) {
    && counts.retire == CountOf(rulings, Retire) && counts.revise == CountOf(rulings, Revise)
    && counts.keep == CountOf(rulings, Keep) && counts.insufficient == CountOf(rulings, Insufficient)
    && counts.retire + counts.revise + counts.keep + counts.insufficient == |rulings|
  }

  lemma CountAppend(rulings: seq<Ruling>, r: Ruling, v: Verdict)
    ensures CountOf(rulings + [r], v) == CountOf(rulings, v) + if r.verdict == v then 1 else 0
  {
  }

  lemma TallyAppend(counts: Counts, rulings: seq<Ruling>, r: Ruling)
    requires Tallies(counts, rulings)
    ensures Tallies(counts.Plus(r.verdict), rulings + [r])
  {
  }

  method JudgeSkill(s: Skill, minSample: int, floor: real) returns (r: Ruling)
    ensures r == Rule(s, minSample, floor)
  {
    var js := JudgeFamilies(s.families, minSample, floor);
    if js == [] { return Ruling(s.name, Insufficient, None, js); }
    var driving := Drive(js);
    return Ruling(s.name, driving.verdict, Some(driving.family), js);
  }

  // ----- the summary's order ---------------------------------------------------------------------------

  lemma {:induction false} NameBeforeIsTotal(a: string, b: string)
    ensures NameBefore(a, b) || NameBefore(b, a) || a == b
  {
    if a != "" && b != "" && a[0] == b[0] {
      NameBeforeIsTotal(a[1..], b[1..]);
      assert a == [a[0]] + a[1..] && b == [b[0]] + b[1..];
    }
  }

  lemma NotBeforeIsTransitive(a: string, b: string, c: string)
    requires !NameBefore(b, a) && !NameBefore(c, b)
    ensures !NameBefore(c, a)
  {
    NameBeforeIsTotal(a, b);
    NameBeforeIsTotal(b, c);
    if NameBefore(c, a) && a != b && b != c {
      NameBeforeIsTransitive(a, b, c);
      NameBeforeIsTransitive(a, c, a);
      NameBeforeIsIrreflexive(a);
    }
  }

  /** Behind every ruling whose skill does not sort after. */
  function Insert(rs: seq<Ruling>, r: Ruling): seq<Ruling> {
    if rs == [] || !NameBefore(r.skill, rs[|rs| - 1].skill) then rs + [r]
    else Insert(rs[..|rs| - 1], r) + [rs[|rs| - 1]]
  }

  /** The rulings on the skills of this name, in the report's order. */
  function RulesOf(report: seq<Skill>, name: string, minSample: int, floor: real): seq<Ruling> {
    if report == [] then []
    else
      var s := report[|report| - 1];
      RulesOf(report[..|report| - 1], name, minSample, floor) + if s.name == name then [Rule(s, minSample, floor)] else []
  }

  /** The rulings under this name: all of the report's if it is live, else none. */
  predicate AllJudged(rulings: seq<Ruling>, report: seq<Skill>, live: Option<set<string>>, name: string,
                      minSample: int, floor: real)
  {
    rulings == if live.None? || name in live.value then RulesOf(report, name, minSample, floor) else []
  }

  /** Every skill of the report that is live is ruled on, once per entry, and no other. */
  lemma {:induction false} LiveSkillsAreJudged(report: seq<Skill>, live: Option<set<string>>, minSample: int,
                                               floor: real, name: string)
    ensures AllJudged(OfSkill(Rulings(report, live, minSample, floor), name), report, live, name, minSample, floor)
  {
    if report != [] {
      var init, s := report[..|report| - 1], report[|report| - 1];
      LiveSkillsAreJudged(init, live, minSample, floor, name);
      if Live(live, s.name) {
        assert Rulings(report, live, minSample, floor) == Rulings(init, live, minSample, floor) + [Rule(s, minSample, floor)];
        OfSkillAppend(Rulings(init, live, minSample, floor), Rule(s, minSample, floor), name);
      } else {
        assert Rulings(report, live, minSample, floor) == Rulings(init, live, minSample, floor);
      }
    }
  }

  /** `list.sort(key=skill)` */
  function SortBySkill(rs: seq<Ruling>): seq<Ruling> {
    if rs == [] then [] else Insert(SortBySkill(rs[..|rs| - 1]), rs[|rs| - 1])
  }

  ghost predicate SortedBySkill(rs: seq<Ruling>) {
    forall i, j :: 0 <= i < j < |rs| ==> !NameBefore(rs[j].skill, rs[i].skill)
  }

  function OfSkill(rs: seq<Ruling>, skill: string): seq<Ruling> {
    if rs == [] then []
    else OfSkill(rs[..|rs| - 1], skill) + if rs[|rs| - 1].skill == skill then [rs[|rs| - 1]] else []
  }

  lemma {:induction false} InsertKeepsAll(rs: seq<Ruling>, r: Ruling)
    ensures multiset(Insert(rs, r)) == multiset(rs) + multiset{r}
  {
    if rs != [] && NameBefore(r.skill, rs[|rs| - 1].skill) {
      InsertKeepsAll(rs[..|rs| - 1], r);
      assert rs == rs[..|rs| - 1] + [rs[|rs| - 1]];
    }
  }

  lemma {:induction false} InsertHolds(rs: seq<Ruling>, r: Ruling)
    ensures forall x <- Insert(rs, r) :: x == r || x in rs
  {
    if rs != [] && NameBefore(r.skill, rs[|rs| - 1].skill) {
      InsertHolds(rs[..|rs| - 1], r);
    }
  }

  lemma SortedAppend(rs: seq<Ruling>, r: Ruling)
    requires SortedBySkill(rs) && forall x <- rs :: !NameBefore(r.skill, x.skill)
    ensures SortedBySkill(rs + [r])
  {
  }

  lemma {:induction false} InsertSorts(rs: seq<Ruling>, r: Ruling)
    requires SortedBySkill(rs)
    ensures SortedBySkill(Insert(rs, r))
  {
    if rs != [] {
      var init, last := rs[..|rs| - 1], rs[|rs| - 1];
      if NameBefore(r.skill, last.skill) {
        InsertSorts(init, r);
        InsertHolds(init, r);
        NotBothBefore(r.skill, last.skill);
        SortedAppend(Insert(init, r), last);
      } else {
        forall x <- rs ensures !NameBefore(r.skill, x.skill) {
          if x != last {
            NotBeforeIsTransitive(x.skill, last.skill, r.skill);
          }
        }
        SortedAppend(rs, r);
      }
    }
  }

  lemma NotBothBefore(a: string, b: string)
    ensures !(NameBefore(a, b) && NameBefore(b, a))
  {
    if NameBefore(a, b) && NameBefore(b, a) {
      NameBeforeIsTransitive(a, b, a);
      NameBeforeIsIrreflexive(a);
    }
  }

  lemma OfSkillAppend(rs: seq<Ruling>, r: Ruling, skill: string)
    ensures OfSkill(rs + [r], skill) == OfSkill(rs, skill) + if r.skill == skill then [r] else []
  {
    assert (rs + [r])[..|rs|] == rs;
  }

  lemma {:induction false} InsertIsStable(rs: seq<Ruling>, r: Ruling, skill: string)
    ensures OfSkill(Insert(rs, r), skill) == OfSkill(rs, skill) + if r.skill == skill then [r] else []
  {
    if rs != [] && NameBefore(r.skill, rs[|rs| - 1].skill) {
      var init, last := rs[..|rs| - 1], rs[|rs| - 1];
      InsertIsStable(init, r, skill);
      OfSkillAppend(Insert(init, r), last, skill);
      NameBeforeIsIrreflexive(r.skill);
    } else {
      OfSkillAppend(rs, r, skill);
    }
  }

  /** The summary is the rulings, sorted by skill, those of one skill in the order they were made. */
  lemma {:induction false} SortIsAStableSort(rs: seq<Ruling>, skill: string)
    ensures SortedBySkill(SortBySkill(rs)) && multiset(SortBySkill(rs)) == multiset(rs)
    ensures OfSkill(SortBySkill(rs), skill) == OfSkill(rs, skill)
  {
    if rs != [] {
      var init, last := rs[..|rs| - 1], rs[|rs| - 1];
      SortIsAStableSort(init, skill);
      assert rs == init + [last];
      InsertSorts(SortBySkill(init), last);
      InsertKeepsAll(SortBySkill(init), last);
      InsertIsStable(SortBySkill(init), last, skill);
    }
  }

  lemma SummaryIsComplete(report: seq<Skill>, live: Option<set<string>>, minSample: int, floor: real)
    ensures var summary := SortBySkill(Rulings(report, live, minSample, floor));
      && SortedBySkill(summary)
      && forall name: string :: AllJudged(OfSkill(summary, name), report, live, name, minSample, floor)
  {
    var rulings := Rulings(report, live, minSample, floor);
    SortIsAStableSort(rulings, "");
    forall name: string ensures AllJudged(OfSkill(SortBySkill(rulings), name), report, live, name, minSample, floor) {
      SortIsAStableSort(rulings, name);
      LiveSkillsAreJudged(report, live, minSample, floor, name);
    }
  }

  /** One ruling per live skill, sorted by skill, and counters that add up to them. */
  method LifecycleVerdicts(report: seq<Skill>, live: Option<set<string>>, minSample: int, floor: real)
    returns (rulings: seq<Ruling>, counts: Counts)
    ensures rulings == SortBySkill(Rulings(report, live, minSample, floor))
    ensures Tallies(counts, Rulings(report, live, minSample, floor))
    ensures SortedBySkill(rulings)
    ensures forall name: string :: AllJudged(OfSkill(rulings, name), report, live, name, minSample, floor)
  {
    rulings, counts := [], Counts(0, 0, 0, 0);
    for i := 0 to |report|
      invariant rulings == Rulings(report[..i], live, minSample, floor)
      invariant Tallies(counts, rulings)
    {
      var s := report[i];
      assert report[..i + 1][..i] == report[..i];
      if Live(live, s.name) {
        var r := JudgeSkill(s, minSample, floor);
        TallyAppend(counts, rulings, r);
        rulings := rulings + [r];
        counts := counts.Plus(r.verdict);
      }
    }
    assert report[..|report|] == report;
    SummaryIsComplete(report, live, minSample, floor);
    rulings := SortBySkill(rulings);
  }

  /** A skill is retired only on the evidence of some family: both of its samples reach the minimum and
      its applied rate is strictly lower. */
  lemma RetiredSkillHasEvidence(s: Skill, minSample: int, floor: real, z: real) returns (f: Family)
    requires forall g <- s.families :: Made(g.applied, z) && Made(g.baseline, z)
    requires Rule(s, minSample, floor).verdict == Retire
    ensures f in s.families && f.applied.n >= minSample && f.baseline.n >= minSample
    ensures f.applied.successes * f.baseline.n < f.baseline.successes * f.applied.n
  {
    var js := JudgeFamilies(s.families, minSample, floor);
    var j :| j in js && j.verdict == Retire;
    var i :| 0 <= i < |js| && js[i] == j;
    f := s.families[i];
    VerdictsAreSound(f, minSample, floor, z);
  }
}
