/**
 Per-skill win rates: the accumulator loop over the jobs of an organisation, the ordering of its
 result, and what the figures mean.
 */
module SkillStats {
  import opened Prelude
  import Bits

  // ---------- jobs ----------

  datatype Job = Job(status: string, wonAmountUsd: Option<int>, intelligence: Json)

  function Strings(items: seq<Json>): seq<string> {
    if items == [] then []
    else Strings(items[..|items| - 1]) + (if items[|items| - 1].JString? then [items[|items| - 1].s] else [])
  }

  // The strings of the analysis' stack; none when the analysis or its stack has another shape.
  function StackOf(j: Job): seq<string> {
    if j.intelligence.JObject? && "stack" in j.intelligence.fields && j.intelligence.fields["stack"].JArray?
    then Strings(j.intelligence.fields["stack"].items)
    else []
  }

  // [...new Set(stack)]: first occurrences, in order.
  function Unique(s: seq<string>): seq<string> {
    if s == [] then []
    else
      var before := Unique(s[..|s| - 1]);
      if s[|s| - 1] in before then before else before + [s[|s| - 1]]
  }

  lemma {:induction false} UniqueIsDistinct(s: seq<string>)
    ensures Distinct(Unique(s)) && forall x :: x in Unique(s) <==> x in s
  {
    if s != [] {
      UniqueIsDistinct(s[..|s| - 1]);
      assert s == s[..|s| - 1] + [s[|s| - 1]];
    }
  }

  predicate Mentions(j: Job, skill: string) { skill in StackOf(j) }

  // ---------- what the figures mean ----------

  datatype Standing = Any | Decided | Won | Lost

  predicate Has(j: Job, standing: Standing) {
    match standing
    case Any => true
    case Decided => j.status == "won" || j.status == "lost"
    case Won => j.status == "won"
    case Lost => j.status == "lost"
  }

  // The jobs of that standing that mention the skill.
  function JobsWith(jobs: seq<Job>, skill: string, standing: Standing): nat {
    if jobs == [] then 0
    else
      var j := jobs[|jobs| - 1];
      JobsWith(jobs[..|jobs| - 1], skill, standing) + (if Mentions(j, skill) && Has(j, standing) then 1 else 0)
  }

  // The amounts of the won jobs that mention the skill.
  function WonAmounts(jobs: seq<Job>, skill: string): seq<int> {
    if jobs == [] then []
    else
      var j := jobs[|jobs| - 1];
      WonAmounts(jobs[..|jobs| - 1], skill)
      + (if Mentions(j, skill) && j.status == "won" && j.wonAmountUsd.Some? then [j.wonAmountUsd.value] else [])
  }

  // The strings listed in the analysis, and nothing else.
  lemma {:induction false} StringsAreListed(items: seq<Json>, s: string)
    ensures s in Strings(items) <==> JString(s) in items
  {
    if items != [] {
      var k := |items| - 1;
      StringsAreListed(items[..k], s);
      assert items == items[..k] + [items[k]];
    }
  }

  // A job mentions what its analysis lists under stack; a job without such a list mentions nothing.
  lemma MentionsWhatIsListed(j: Job, skill: string)
    ensures Mentions(j, skill)
       <==> && j.intelligence.JObject? && "stack" in j.intelligence.fields && j.intelligence.fields["stack"].JArray?
            && JString(skill) in j.intelligence.fields["stack"].items
  {
    if j.intelligence.JObject? && "stack" in j.intelligence.fields && j.intelligence.fields["stack"].JArray? {
      StringsAreListed(j.intelligence.fields["stack"].items, skill);
    }
  }

  // The positions of the jobs that pass a test.
  ghost function Positions(jobs: seq<Job>, test: Job -> bool): set<int> { set i | 0 <= i < |jobs| && test(jobs[i]) }

  lemma PositionsNext(jobs: seq<Job>, test: Job -> bool)
    requires jobs != []
    ensures
      var k := |jobs| - 1;
      |Positions(jobs, test)| == |Positions(jobs[..k], test)| + if test(jobs[k]) then 1 else 0
  {
    var k := |jobs| - 1;
    if test(jobs[k]) {
      assert Positions(jobs, test) == Positions(jobs[..k], test) + {k};
    } else {
      assert Positions(jobs, test) == Positions(jobs[..k], test);
    }
  }

  // JobsWith counts the jobs of the standing that mention the skill.
  lemma {:induction false} JobsWithCounts(jobs: seq<Job>, skill: string, standing: Standing)
    ensures JobsWith(jobs, skill, standing) == |Positions(jobs, (j: Job) => Mentions(j, skill) && Has(j, standing))|
  {
    var test: Job -> bool := (j: Job) => Mentions(j, skill) && Has(j, standing);
    if jobs == [] {
      assert Positions(jobs, test) == {};
    } else {
      JobsWithCounts(jobs[..|jobs| - 1], skill, standing);
      PositionsNext(jobs, test);
    }
  }

  // ---------- accumulators ----------

  datatype Acc = Acc(count: nat, decided: nat, wins: nat, losses: nat, wonAmounts: seq<int>)

  const NO_JOBS := Acc(0, 0, 0, 0, [])

  function Bump(acc: Acc, j: Job): Acc {
    Acc(acc.count + 1,
        if j.status in {"won", "lost"} then acc.decided + 1 else acc.decided,
        if j.status == "won" then acc.wins + 1 else acc.wins,
        if j.status == "lost" then acc.losses + 1 else acc.losses,
        if j.status == "won" && j.wonAmountUsd.Some? then acc.wonAmounts + [j.wonAmountUsd.value] else acc.wonAmounts)
  }

  // What one skill's accumulator means.
  function Meaning(jobs: seq<Job>, skill: string): Acc {
    Acc(JobsWith(jobs, skill, Any), JobsWith(jobs, skill, Decided), JobsWith(jobs, skill, Won),
        JobsWith(jobs, skill, Lost), WonAmounts(jobs, skill))
  }

  lemma MeaningStep(jobs: seq<Job>, j: Job, skill: string)
    ensures Meaning(jobs + [j], skill)
         == if Mentions(j, skill) then Bump(Meaning(jobs, skill), j) else Meaning(jobs, skill)
  {
    assert (jobs + [j])[..|jobs|] == jobs;
    assert WonAmounts(jobs, skill) + [] == WonAmounts(jobs, skill);
  }

  // decided = wins + losses <= count.
  lemma {:induction false} DecidedAreWinsAndLosses(jobs: seq<Job>, skill: string)
    ensures
      var acc := Meaning(jobs, skill);
      acc.decided == acc.wins + acc.losses <= acc.count && |acc.wonAmounts| <= acc.wins
  {
    if jobs != [] {
      var k := |jobs| - 1;
      DecidedAreWinsAndLosses(jobs[..k], skill);
      MeaningStep(jobs[..k], jobs[k], skill);
      assert jobs[..k] + [jobs[k]] == jobs;
    }
  }

  // ---------- rows ----------

  // Rates are kept in hundredths.
  datatype Skill = Skill(
    skill: string, count: nat, decided: nat, wins: nat, losses: nat,
    winRate: Option<int>, avgWonUsd: Option<int>, revenueWonUsd: int)

  // How often d goes into n, rounded down.
  function Quotient(n: int, d: int): int
    requires d > 0
    decreases if n < 0 then d - n else n
  {
    if n < 0 then Quotient(n + d, d) - 1
    else if n < d then 0
    else Quotient(n - d, d) + 1
  }

  // Math.round of n / d
  function RoundedQuotient(n: int, d: int): int
    requires d > 0
  {
    Quotient(2 * n + d, 2 * d)
  }

  lemma {:induction false} QuotientIsFloor(n: int, d: int)
    requires d > 0
    ensures Quotient(n, d) * d <= n < Quotient(n, d) * d + d
    decreases if n < 0 then d - n else n
  {
    if n < 0 {
      QuotientIsFloor(n + d, d);
      OneMore(Quotient(n, d), d);
    } else if n >= d {
      QuotientIsFloor(n - d, d);
      OneMore(Quotient(n - d, d), d);
    }
  }

  lemma OneMore(q: int, d: int)
    ensures (q + 1) * d == q * d + d
  {
  }

  // q is the whole number nearest to n / d; a half goes up.
  predicate Nearest(q: int, n: int, d: int) { -d < 2 * (q * d - n) <= d }

  lemma RoundedIsNearest(n: int, d: int)
    requires d > 0
    ensures Nearest(RoundedQuotient(n, d), n, d)
  {
    var q := RoundedQuotient(n, d);
    QuotientIsFloor(2 * n + d, 2 * d);
    Bits.Doubled(q, d);
  }

  // How the rate of wins over decided comes out in hundredths. It is computed through an inexact
  // quotient of doubles, so that a half may go either way: 57 of 200 gives 28, not 29.
  type Rounding = (nat, nat) -> int

  predicate NearestEitherWay(q: int, n: int, d: int) { -d <= 2 * (q * d - n) <= d }

  ghost predicate RoundsRates(round: Rounding) {
    forall wins: nat, decided: nat | decided > 0 && wins <= decided ::
        NearestEitherWay(round(wins, decided), 100 * wins, decided)
  }

  // Halves up is one such rounding.
  lemma RoundingsExist()
    ensures RoundsRates((wins: nat, decided: nat) => if decided > 0 then RoundedQuotient(100 * wins, decided) else 0)
  {
    var round: Rounding := (wins: nat, decided: nat) => if decided > 0 then RoundedQuotient(100 * wins, decided) else 0;
    forall wins: nat, decided: nat | decided > 0 && wins <= decided
      ensures NearestEitherWay(round(wins, decided), 100 * wins, decided)
    {
      RoundedIsNearest(100 * wins, decided);
    }
  }

  // A rate that lies halfway between two hundredths.
  ghost predicate Tied(wins: nat, decided: nat) { exists k: int :: 2 * (100 * wins) == 2 * (k * decided) + decided }

  lemma OneNearest(p: int, q: int, n: int, d: int)
    requires d > 0 && NearestEitherWay(p, n, d) && NearestEitherWay(q, n, d) && p < q
    ensures q == p + 1 && 2 * n == 2 * (p * d) + d
  {
    var gap := q - p;
    assert q * d == p * d + gap * d;
    if gap > 1 {
      TimesGrows(2, gap, d);
    }
  }

  lemma TwoNearest(k: int, n: int, d: int)
    requires d > 0 && 2 * n == 2 * (k * d) + d
    ensures NearestEitherWay(k, n, d) && NearestEitherWay(k + 1, n, d)
  {
    OneMore(k, d);
  }

  // Halves up everywhere but at one rate.
  function Except(wins: nat, decided: nat, q: int): Rounding {
    (w: nat, d: nat) => if w == wins && d == decided then q else if d > 0 then RoundedQuotient(100 * w, d) else 0
  }

  lemma ExceptRounds(wins: nat, decided: nat, q: int)
    requires decided > 0 && NearestEitherWay(q, 100 * wins, decided)
    ensures RoundsRates(Except(wins, decided, q))
  {
    forall w: nat, d: nat | d > 0 && w <= d ensures NearestEitherWay(Except(wins, decided, q)(w, d), 100 * w, d) {
      if w != wins || d != decided {
        RoundedIsNearest(100 * w, d);
      }
    }
  }

  // All roundings agree on a rate if and only if it is not tied.
  lemma RateIsDeterminedIff(wins: nat, decided: nat)
    requires decided > 0 && wins <= decided
    ensures (forall f: Rounding, g: Rounding | RoundsRates(f) && RoundsRates(g) :: f(wins, decided) == g(wins, decided))
       <==> !Tied(wins, decided)
  {
    var n := 100 * wins;
    if k: int :| 2 * n == 2 * (k * decided) + decided {
      TwoNearest(k, n, decided);
      ExceptRounds(wins, decided, k);
      ExceptRounds(wins, decided, k + 1);
      assert Except(wins, decided, k)(wins, decided) != Except(wins, decided, k + 1)(wins, decided);
    } else {
      forall f: Rounding, g: Rounding | RoundsRates(f) && RoundsRates(g) ensures f(wins, decided) == g(wins, decided) {
        var p, q := f(wins, decided), g(wins, decided);
        assert NearestEitherWay(p, n, decided) && NearestEitherWay(q, n, decided);
        if p < q {
          OneNearest(p, q, n, decided);
        } else if q < p {
          OneNearest(q, p, n, decided);
        }
      }
    }
  }

  // 57 wins of 200 are tied: 28 and 29 hundredths are equally near.
  lemma FiftySevenOfTwoHundred()
    ensures Tied(57, 200) && NearestEitherWay(28, 5700, 200) && NearestEitherWay(29, 5700, 200)
  {
    assert 2 * (100 * 57) == 2 * (28 * 200) + 200;
  }

  function Sum(xs: seq<int>): int { if xs == [] then 0 else Sum(xs[..|xs| - 1]) + xs[|xs| - 1] }

  // The sum adds up, however the list is cut.
  lemma {:induction false} SumAdds(xs: seq<int>, ys: seq<int>)
    ensures Sum(xs + ys) == Sum(xs) + Sum(ys)
    decreases |ys|
  {
    if ys == [] {
      assert xs + ys == xs;
    } else {
      var k := |ys| - 1;
      assert (xs + ys)[..|xs| + k] == xs + ys[..k];
      SumAdds(xs, ys[..k]);
    }
  }

  lemma SumOfOne(x: int)
    ensures Sum([]) == 0 && Sum([x]) == x
  {
    assert [x][..0] == [];
  }

  // One more job brings its amount, if it was won, mentions the skill and has one.
  lemma RevenueStep(jobs: seq<Job>, j: Job, skill: string)
    ensures Sum(WonAmounts([], skill)) == 0
    ensures Sum(WonAmounts(jobs + [j], skill))
         == Sum(WonAmounts(jobs, skill))
            + if Mentions(j, skill) && j.status == "won" && j.wonAmountUsd.Some? then j.wonAmountUsd.value else 0
  {
    MeaningStep(jobs, j, skill);
    if j.wonAmountUsd.Some? {
      SumAdds(WonAmounts(jobs, skill), [j.wonAmountUsd.value]);
      SumOfOne(j.wonAmountUsd.value);
    }
  }

  function RowOf(skill: string, acc: Acc, round: Rounding): Skill {
    Skill(skill, acc.count, acc.decided, acc.wins, acc.losses,
          if acc.decided > 0 then Some(round(acc.wins, acc.decided)) else None,
          if acc.wonAmounts != [] then Some(RoundedQuotient(Sum(acc.wonAmounts), |acc.wonAmounts|)) else None,
          Sum(acc.wonAmounts))
  }

  // Every figure of a row, in terms of the jobs that mention its skill.
  lemma FiguresAreRight(jobs: seq<Job>, skill: string, round: Rounding)
    requires RoundsRates(round)
    ensures
      var r := RowOf(skill, Meaning(jobs, skill), round);
      && r.skill == skill && r.count == JobsWith(jobs, skill, Any)
      && r.wins == JobsWith(jobs, skill, Won) && r.losses == JobsWith(jobs, skill, Lost)
          && r.decided == r.wins + r.losses
      && r.revenueWonUsd == Sum(WonAmounts(jobs, skill))
      && (r.winRate.Some? <==> r.decided > 0)
      && (r.winRate.Some? ==> 0 <= r.winRate.value <= 100 && NearestEitherWay(r.winRate.value, 100 * r.wins, r.decided))
      && (r.avgWonUsd.Some? <==> WonAmounts(jobs, skill) != [])
      && (r.avgWonUsd.Some? ==> Nearest(r.avgWonUsd.value, r.revenueWonUsd, |WonAmounts(jobs, skill)|))
  {
    var acc := Meaning(jobs, skill);
    DecidedAreWinsAndLosses(jobs, skill);
    if acc.decided > 0 {
      PercentageInRange(round(acc.wins, acc.decided), acc.wins, acc.decided);
    }
    if acc.wonAmounts != [] {
      RoundedIsNearest(Sum(acc.wonAmounts), |acc.wonAmounts|);
    }
  }

  lemma PercentageInRange(rate: int, wins: nat, decided: nat)
    requires 0 < decided && wins <= decided && NearestEitherWay(rate, 100 * wins, decided)
    ensures 0 <= rate <= 100
  {
    if rate < 0 {
      TimesGrows(rate, -1, decided);
    } else if rate > 100 {
      TimesGrows(101, rate, decided);
    }
  }

  lemma TimesGrows(x: int, y: int, d: nat)
    requires x <= y
    ensures x * d <= y * d
  {
    assert y * d == x * d + (y - x) * d;
  }

  // ---------- ordering ----------

  function Rank(s: Skill): int { s.winRate.GetOr(-100) }

  // The comparator returns a positive number: a belongs behind b.
  predicate Behind(a: Skill, b: Skill) { a.count < b.count || (a.count == b.count && Rank(a) < Rank(b)) }

  predicate Ordered(s: seq<Skill>) { forall i, j | 0 <= i < j < |s| :: !Behind(s[i], s[j]) }

  // A stable sort puts each row behind all earlier ones it does not beat.
  function Insert(x: Skill, s: seq<Skill>): seq<Skill> {
    if s == [] then [x]
    else if Behind(s[|s| - 1], x) then Insert(x, s[..|s| - 1]) + [s[|s| - 1]]
    else s + [x]
  }

  function Sorted(s: seq<Skill>): seq<Skill> {
    if s == [] then [] else Insert(s[|s| - 1], Sorted(s[..|s| - 1]))
  }

  lemma {:induction false} InsertIsPermutation(x: Skill, s: seq<Skill>)
    ensures multiset(Insert(x, s)) == multiset(s) + multiset{x}
  {
    if s != [] && Behind(s[|s| - 1], x) {
      InsertIsPermutation(x, s[..|s| - 1]);
      assert s == s[..|s| - 1] + [s[|s| - 1]];
    }
  }

  lemma {:induction false} InsertMembers(x: Skill, s: seq<Skill>, y: Skill)
    requires y in Insert(x, s)
    ensures y == x || y in s
  {
    if s != [] && Behind(s[|s| - 1], x) && y != s[|s| - 1] {
      InsertMembers(x, s[..|s| - 1], y);
    }
  }

  lemma {:induction false} InsertIsOrdered(x: Skill, s: seq<Skill>)
    requires Ordered(s)
    ensures Ordered(Insert(x, s))
  {
    if s != [] && Behind(s[|s| - 1], x) {
      var k := |s| - 1;
      InsertIsOrdered(x, s[..k]);
      forall y | y in Insert(x, s[..k]) ensures !Behind(y, s[k]) {
        InsertMembers(x, s[..k], y);
      }
    }
  }

  // More jobs first; of as many, the higher rate first, and rows without a rate behind those with one.
  predicate InSequence(a: Skill, b: Skill) {
    && a.count >= b.count
    && (a.count == b.count && b.winRate.Some? ==> a.winRate.Some? && a.winRate.value >= b.winRate.value)
  }

  // Rows whose rates are rates, that is, not negative, are ordered exactly when they are in sequence.
  lemma OrderedMeansInSequence(s: seq<Skill>)
    requires forall r | r in s :: r.winRate.Some? ==> r.winRate.value >= 0
    ensures Ordered(s) <==> forall i, j | 0 <= i < j < |s| :: InSequence(s[i], s[j])
  {
    forall i, j | 0 <= i < j < |s| ensures !Behind(s[i], s[j]) <==> InSequence(s[i], s[j]) {
      assert s[i] in s && s[j] in s;
    }
  }

  predicate ComparesEqual(a: Skill, b: Skill) { a.count == b.count && Rank(a) == Rank(b) }

  // The rows that compare equal to one, in their order.
  function Peers(s: seq<Skill>, r: Skill): seq<Skill> {
    if s == [] then [] else Peers(s[..|s| - 1], r) + PeerOrNot(s[|s| - 1], r)
  }

  function PeerOrNot(x: Skill, r: Skill): seq<Skill> { if ComparesEqual(x, r) then [x] else [] }

  lemma PeersSnoc(s: seq<Skill>, x: Skill, r: Skill)
    ensures Peers(s + [x], r) == Peers(s, r) + PeerOrNot(x, r)
  {
    assert (s + [x])[..|s|] == s;
  }

  lemma {:induction false} InsertComesLastOfPeers(x: Skill, s: seq<Skill>, r: Skill)
    ensures Peers(Insert(x, s), r) == Peers(s, r) + PeerOrNot(x, r)
  {
    if s == [] {
      PeersSnoc([], x, r);
      assert [] + [x] == [x];
    } else if Behind(s[|s| - 1], x) {
      var front, last := s[..|s| - 1], s[|s| - 1];
      InsertComesLastOfPeers(x, front, r);
      PeersSnoc(Insert(x, front), last, r);
      NotBoth(Peers(front, r), x, last, r);
    } else {
      PeersSnoc(s, x, r);
    }
  }

  lemma NotBoth(peers: seq<Skill>, x: Skill, last: Skill, r: Skill)
    requires Behind(last, x)
    ensures peers + PeerOrNot(x, r) + PeerOrNot(last, r) == peers + PeerOrNot(last, r) + PeerOrNot(x, r)
  {
    assert PeerOrNot(x, r) == [] || PeerOrNot(last, r) == [];
  }

  // Sorting leaves rows that compare equal in their order.
  lemma {:induction false} SortIsStable(s: seq<Skill>, r: Skill)
    ensures Peers(Sorted(s), r) == Peers(s, r)
  {
    if s != [] {
      SortIsStable(s[..|s| - 1], r);
      InsertComesLastOfPeers(s[|s| - 1], Sorted(s[..|s| - 1]), r);
    }
  }

  // The result is a permutation of the rows, by count and then by rounded win rate, undecided last.
  lemma {:induction false} SortedIsOrderedPermutation(s: seq<Skill>)
    ensures Ordered(Sorted(s)) && multiset(Sorted(s)) == multiset(s)
  {
    if s != [] {
      var k := |s| - 1;
      SortedIsOrderedPermutation(s[..k]);
      InsertIsOrdered(s[k], Sorted(s[..k]));
      InsertIsPermutation(s[k], Sorted(s[..k]));
      assert s == s[..k] + [s[k]];
    }
  }

  // ---------- the skills in order of first appearance ----------

  function AddNew(order: seq<string>, skills: seq<string>): seq<string> {
    if skills == [] then order
    else
      var before := AddNew(order, skills[..|skills| - 1]);
      if skills[|skills| - 1] in before then before else before + [skills[|skills| - 1]]
  }

  function Appearances(jobs: seq<Job>): seq<string> {
    if jobs == [] then [] else AddNew(Appearances(jobs[..|jobs| - 1]), Unique(StackOf(jobs[|jobs| - 1])))
  }

  lemma {:induction false} AddNewMembers(order: seq<string>, skills: seq<string>)
    requires Distinct(order)
    ensures Distinct(AddNew(order, skills)) && forall x :: x in AddNew(order, skills) <==> x in order || x in skills
  {
    if skills != [] {
      AddNewMembers(order, skills[..|skills| - 1]);
      assert skills == skills[..|skills| - 1] + [skills[|skills| - 1]];
    }
  }

  // Each skill that some job mentions appears once, and no other.
  lemma {:induction false} EachSkillAppearsOnce(jobs: seq<Job>)
    ensures Distinct(Appearances(jobs))
    ensures forall skill :: skill in Appearances(jobs) <==> JobsWith(jobs, skill, Any) > 0
  {
    if jobs != [] {
      var k := |jobs| - 1;
      EachSkillAppearsOnce(jobs[..k]);
      UniqueIsDistinct(StackOf(jobs[k]));
      AddNewMembers(Appearances(jobs[..k]), Unique(StackOf(jobs[k])));
    }
  }

  lemma {:induction false} NewOnesComeBehind(order: seq<string>, skills: seq<string>)
    ensures order <= AddNew(order, skills)
  {
    if skills != [] {
      NewOnesComeBehind(order, skills[..|skills| - 1]);
    }
  }

  // The skills are in order of first appearance: what the first n jobs mention comes first, and within
  // the next job what its first m entries mention.
  lemma {:induction false} FirstMentionedComesFirst(jobs: seq<Job>, n: nat, m: nat)
    requires n < |jobs| && m <= |StackOf(jobs[n])|
    ensures Appearances(jobs[..n]) <= Upto(jobs, n, m) <= Appearances(jobs)
    ensures forall x :: x in Upto(jobs, n, m) <==> x in Appearances(jobs[..n]) || x in StackOf(jobs[n])[..m]
  {
    UptoMembers(jobs, n, m);
    NewOnesComeBehind(Appearances(jobs[..n]), Unique(StackOf(jobs[n])[..m]));
    UptoIsInFront(jobs, n, m);
    AppearancesGrow(jobs, n + 1);
  }

  // The skills found in the first n jobs and in the first m entries of the next.
  function Upto(jobs: seq<Job>, n: nat, m: nat): seq<string>
    requires n < |jobs| && m <= |StackOf(jobs[n])|
  {
    AddNew(Appearances(jobs[..n]), Unique(StackOf(jobs[n])[..m]))
  }

  lemma UptoMembers(jobs: seq<Job>, n: nat, m: nat)
    requires n < |jobs| && m <= |StackOf(jobs[n])|
    ensures forall x :: x in Upto(jobs, n, m) <==> x in Appearances(jobs[..n]) || x in StackOf(jobs[n])[..m]
  {
    EachSkillAppearsOnce(jobs[..n]);
    AddNewMembers(Appearances(jobs[..n]), Unique(StackOf(jobs[n])[..m]));
    UniqueIsDistinct(StackOf(jobs[n])[..m]);
  }

  lemma UptoIsInFront(jobs: seq<Job>, n: nat, m: nat)
    requires n < |jobs| && m <= |StackOf(jobs[n])|
    ensures Upto(jobs, n, m) <= Appearances(jobs[..n + 1])
  {
    var stack, order := StackOf(jobs[n]), Appearances(jobs[..n]);
    assert Appearances(jobs[..n + 1]) == AddNew(order, Unique(stack)) by {
      assert jobs[..n + 1][..n] == jobs[..n];
    }
    UniqueGrows(stack, m);
    AddNewGrows(order, Unique(stack), Unique(stack[..m]));
  }

  lemma {:induction false} AppearancesGrow(jobs: seq<Job>, n: nat)
    requires n <= |jobs|
    ensures Appearances(jobs[..n]) <= Appearances(jobs)
    decreases |jobs|
  {
    if n == |jobs| {
      assert jobs[..n] == jobs;
    } else {
      var k := |jobs| - 1;
      AppearancesGrow(jobs[..k], n);
      assert jobs[..k][..n] == jobs[..n];
      NewOnesComeBehind(Appearances(jobs[..k]), Unique(StackOf(jobs[k])));
    }
  }

  lemma {:induction false} UniqueGrows(s: seq<string>, m: nat)
    requires m <= |s|
    ensures Unique(s[..m]) <= Unique(s)
    decreases |s|
  {
    if m == |s| {
      assert s[..m] == s;
    } else {
      UniqueGrows(s[..|s| - 1], m);
      assert s[..|s| - 1][..m] == s[..m];
    }
  }

  lemma {:induction false} AddNewGrows(order: seq<string>, skills: seq<string>, first: seq<string>)
    requires first <= skills
    ensures AddNew(order, first) <= AddNew(order, skills)
    decreases |skills|
  {
    if |first| < |skills| {
      AddNewGrows(order, skills[..|skills| - 1], first);
    } else {
      assert first == skills;
    }
  }

  // ---------- counts add up ----------

  function CountSum(jobs: seq<Job>, skills: seq<string>): nat {
    if skills == [] then 0 else CountSum(jobs, skills[..|skills| - 1]) + JobsWith(jobs, skills[|skills| - 1], Any)
  }

  function StackSizes(jobs: seq<Job>): nat {
    if jobs == [] then 0 else StackSizes(jobs[..|jobs| - 1]) + |Unique(StackOf(jobs[|jobs| - 1]))|
  }

  function Mentioned(j: Job, skills: seq<string>): set<string> { set x | x in skills && Mentions(j, x) }

  lemma MentionedStep(j: Job, skills: seq<string>)
    requires skills != [] && Distinct(skills)
    ensures
      var k := |skills| - 1;
      |Mentioned(j, skills)| == |Mentioned(j, skills[..k])| + if Mentions(j, skills[k]) then 1 else 0
  {
    var k := |skills| - 1;
    var before := Mentioned(j, skills[..k]);
    assert skills[k] !in skills[..k];
    assert skills == skills[..k] + [skills[k]];
    assert Mentioned(j, skills) == if Mentions(j, skills[k]) then before + {skills[k]} else before;
  }

  lemma JobsWithStep(jobs: seq<Job>, j: Job, skill: string)
    ensures JobsWith(jobs + [j], skill, Any) == JobsWith(jobs, skill, Any) + if Mentions(j, skill) then 1 else 0
  {
    assert (jobs + [j])[..|jobs|] == jobs;
  }

  // One job adds as much as it mentions of the listed skills.
  lemma {:induction false} CountSumStep(jobs: seq<Job>, j: Job, skills: seq<string>)
    requires Distinct(skills)
    ensures CountSum(jobs + [j], skills) == CountSum(jobs, skills) + |Mentioned(j, skills)|
  {
    if skills == [] {
      assert Mentioned(j, skills) == {};
    } else {
      var k := |skills| - 1;
      CountSumStep(jobs, j, skills[..k]);
      JobsWithStep(jobs, j, skills[k]);
      MentionedStep(j, skills);
    }
  }

  lemma {:induction false} CountsAddUpOver(jobs: seq<Job>, skills: seq<string>)
    requires Distinct(skills) && forall j, x | j in jobs && Mentions(j, x) :: x in skills
    ensures CountSum(jobs, skills) == StackSizes(jobs)
  {
    if jobs == [] {
      NothingCounted(skills);
    } else {
      var k := |jobs| - 1;
      assert jobs == jobs[..k] + [jobs[k]];
      CountsAddUpOver(jobs[..k], skills);
      CountSumStep(jobs[..k], jobs[k], skills);
      MentionedSize(jobs[k], skills);
    }
  }

  lemma MentionedSize(j: Job, skills: seq<string>)
    requires forall x | Mentions(j, x) :: x in skills
    ensures |Mentioned(j, skills)| == |Unique(StackOf(j))|
  {
    UniqueIsDistinct(StackOf(j));
    EnumerationLength(Unique(StackOf(j)), Mentioned(j, skills));
  }

  lemma {:induction false} NothingCounted(skills: seq<string>)
    ensures CountSum([], skills) == 0
  {
    if skills != [] { NothingCounted(skills[..|skills| - 1]); }
  }

  // Over all skills the counts sum to the sizes of the de-duplicated stacks.
  lemma CountsAddUp(jobs: seq<Job>)
    ensures CountSum(jobs, Appearances(jobs)) == StackSizes(jobs)
  {
    EachSkillAppearsOnce(jobs);
    forall j, x | j in jobs && Mentions(j, x) ensures x in Appearances(jobs) {
      MentionedIsCounted(jobs, j, x);
    }
    CountsAddUpOver(jobs, Appearances(jobs));
  }

  lemma {:induction false} MentionedIsCounted(jobs: seq<Job>, j: Job, skill: string)
    requires j in jobs && Mentions(j, skill)
    ensures JobsWith(jobs, skill, Any) > 0
  {
    var k := |jobs| - 1;
    assert jobs == jobs[..k] + [jobs[k]];
    if j in jobs[..k] {
      MentionedIsCounted(jobs[..k], j, skill);
    } else {
      assert j == jobs[k];
    }
  }

  // ---------- the loop ----------

  function RowsFor(jobs: seq<Job>, skills: seq<string>, round: Rounding): (rows: seq<Skill>)
    ensures |rows| == |skills|
    ensures forall i | 0 <= i < |skills| :: rows[i] == RowOf(skills[i], Meaning(jobs, skills[i]), round)
  {
    seq(|skills|, i requires 0 <= i < |skills| => RowOf(skills[i], Meaning(jobs, skills[i]), round))
  }

  // A map keeps its keys in insertion order; order is that order.
  ghost predicate Accumulates(order: seq<string>, accs: map<string, Acc>, jobs: seq<Job>) {
    && order == Appearances(jobs)
    && (forall x :: x in accs <==> x in order)
    && (forall x | x in accs :: accs[x] == Meaning(jobs, x))
  }

  method BySkill(jobs: seq<Job>, round: Rounding) returns (skills: seq<Skill>)
    ensures skills == Sorted(RowsFor(jobs, Appearances(jobs), round))
  {
    var order: seq<string>, accs: map<string, Acc> := [], map[];
    var n := 0;
    while n < |jobs|
      invariant 0 <= n <= |jobs|
      invariant Accumulates(order, accs, jobs[..n])
    {
      order, accs := AddJob(jobs[..n], jobs[n], order, accs);
      assert jobs[..n] + [jobs[n]] == jobs[..n + 1];
      n := n + 1;
    }
    assert jobs[..n] == jobs;
    skills := BuildRows(order, accs, round);
    RowsCarryTheMeaning(skills, order, accs, jobs, round);
    skills := SortRows(skills);
  }

  ghost predicate AreRows(rows: seq<Skill>, order: seq<string>, accs: map<string, Acc>, round: Rounding) {
    && |rows| == |order|
    && forall k | 0 <= k < |order| :: order[k] in accs && rows[k] == RowOf(order[k], accs[order[k]], round)
  }

  method BuildRows(order: seq<string>, accs: map<string, Acc>, round: Rounding) returns (rows: seq<Skill>)
    requires forall k | 0 <= k < |order| :: order[k] in accs
    ensures AreRows(rows, order, accs, round)
  {
    rows := [];
    var i := 0;
    while i < |order|
      invariant 0 <= i <= |order| && |rows| == i
      invariant forall k | 0 <= k < i :: rows[k] == RowOf(order[k], accs[order[k]], round)
    {
      rows := rows + [RowOf(order[i], accs[order[i]], round)];
      i := i + 1;
    }
  }

  lemma RowsCarryTheMeaning(rows: seq<Skill>, order: seq<string>, accs: map<string, Acc>, jobs: seq<Job>,
          round: Rounding)
    requires Accumulates(order, accs, jobs) && AreRows(rows, order, accs, round)
    ensures rows == RowsFor(jobs, Appearances(jobs), round)
  {
    forall k | 0 <= k < |order| ensures rows[k] == RowsFor(jobs, order, round)[k] {
      assert order[k] in accs;
    }
  }

  // Between two skills of one job: those done have the job counted, the others do not yet.
  ghost predicate Midway(order: seq<string>, accs: map<string, Acc>, order0: seq<string>, earlier: seq<Job>, j: Job,
          done: seq<string>) {
    && order == AddNew(order0, done)
    && (forall x :: x in accs <==> x in order)
    && (forall x | x in accs :: accs[x] == if x in done then Bump(Meaning(earlier, x), j) else Meaning(earlier, x))
  }

  // What one turn of the loop over a job's skills does.
  function Counted(accs: map<string, Acc>, skill: string, j: Job): map<string, Acc> {
    accs[skill := Bump(if skill in accs then accs[skill] else NO_JOBS, j)]
  }

  lemma CountedStep(order: seq<string>, accs: map<string, Acc>, order0: seq<string>, earlier: seq<Job>, j: Job,
          done: seq<string>, skill: string)
    requires Midway(order, accs, order0, earlier, j, done) && order0 == Appearances(earlier) && skill !in done
    ensures Midway(if skill in accs then order else order + [skill],
                   Counted(accs, skill, j), order0, earlier, j, done + [skill])
  {
    assert (done + [skill])[..|done|] == done;
    if skill !in accs {
      NewSkillMeansNothing(order0, earlier, done, skill);
    }
  }

  lemma NewSkillMeansNothing(order0: seq<string>, earlier: seq<Job>, done: seq<string>, skill: string)
    requires order0 == Appearances(earlier) && skill !in AddNew(order0, done)
    ensures Meaning(earlier, skill) == NO_JOBS
  {
    EachSkillAppearsOnce(earlier);
    AddNewMembers(order0, done);
    EmptyMeaning(earlier, skill);
  }

  method CountSkill(order0: seq<string>, accs0: map<string, Acc>, ghost first: seq<string>, ghost earlier: seq<Job>,
        j: Job, ghost done: seq<string>, skill: string)
    returns (order: seq<string>, accs: map<string, Acc>)
    requires Midway(order0, accs0, first, earlier, j, done) && first == Appearances(earlier) && skill !in done
    ensures Midway(order, accs, first, earlier, j, done + [skill])
  {
    order, accs := order0, accs0;
    if skill !in accs {
      order := order + [skill];
      accs := accs[skill := NO_JOBS];
    }
    accs := accs[skill := Bump(accs[skill], j)];
    assert accs == Counted(accs0, skill, j);
    CountedStep(order0, accs0, first, earlier, j, done, skill);
  }

  method AddJob(ghost earlier: seq<Job>, j: Job, order0: seq<string>, accs0: map<string, Acc>)
    returns (order: seq<string>, accs: map<string, Acc>)
    requires Accumulates(order0, accs0, earlier)
    ensures Accumulates(order, accs, earlier + [j])
  {
    order, accs := order0, accs0;
    var stack := Unique(StackOf(j));
    UniqueIsDistinct(StackOf(j));
    var i := 0;
    while i < |stack|
      invariant 0 <= i <= |stack|
      invariant Midway(order, accs, order0, earlier, j, stack[..i])
    {
      order, accs := CountSkill(order, accs, order0, earlier, j, stack[..i], stack[i]);
      assert stack[..i] + [stack[i]] == stack[..i + 1];
      i := i + 1;
    }
    assert stack[..i] == stack;
    JobCounted(order, accs, order0, earlier, j);
  }

  lemma JobCounted(order: seq<string>, accs: map<string, Acc>, order0: seq<string>, earlier: seq<Job>, j: Job)
    requires Midway(order, accs, order0, earlier, j, Unique(StackOf(j))) && order0 == Appearances(earlier)
    ensures Accumulates(order, accs, earlier + [j])
  {
    UniqueIsDistinct(StackOf(j));
    assert (earlier + [j])[..|earlier|] == earlier;
    forall x | x in accs ensures accs[x] == Meaning(earlier + [j], x) {
      MeaningStep(earlier, j, x);
    }
  }

  lemma {:induction false} EmptyMeaning(jobs: seq<Job>, skill: string)
    requires JobsWith(jobs, skill, Any) == 0
    ensures Meaning(jobs, skill) == NO_JOBS
  {
    DecidedAreWinsAndLosses(jobs, skill);
  }

  // skills.sort(..) with the comparator above, in place on the list.
  method SortRows(rows: seq<Skill>) returns (sorted: seq<Skill>)
    ensures sorted == Sorted(rows)
  {
    sorted := [];
    var i := 0;
    while i < |rows|
      invariant 0 <= i <= |rows|
      invariant sorted == Sorted(rows[..i])
    {
      assert rows[..i + 1][..i] == rows[..i];
      sorted := Insert(rows[i], sorted);
      i := i + 1;
    }
    assert rows[..i] == rows;
  }
}
