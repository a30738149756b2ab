/** Reasoning levels of internal/compat/reasoning.go: which levels a model profile offers, and which of
    them a request resolves to. */
module Reasoning {

  datatype Level = Unset | Off | Auto | Minimal | Low | Medium | High | XHigh | Max | Other(name: string)

  predicate Known(l: Level) {
    !l.Unset? && !l.Other?
  }

  /** The budget table; a level outside it counts as 0. */
  function Budget(l: Level): int {
    match l
    case Auto => -1
    case Minimal => 512
    case Low => 1024
    case Medium => 8192
    case High => 24576
    case XHigh => 32768
    case Max => 128000
    case _ => 0
  }

  function Rank(l: Level): int {
    if l.Auto? then 1 else Budget(l) + 1
  }

  datatype Profile = Profile(supported: bool, levels: seq<Level>, minBudget: int, maxBudget: int, zeroAllowed: bool,
    dynamicAllowed: bool)
  datatype Spec = Spec(requested: bool, level: Level, budget: int, hasBudget: bool)
  datatype Decision = Decision(requested: bool, requestedLevel: Level, requestedBudget: int, effectiveLevel: Level,
    effectiveBudget: int, downgraded: bool)
  datatype Result = Decided(d: Decision) | Unsupported | Unrecognized

  const ALL_LEVELS: seq<Level> := [Off, Auto, Minimal, Low, Medium, High, XHigh, Max]

  // ---------------------------------------------------------------- available levels

  predicate Usable(l: Level, profile: Profile) {
    Known(l) && (l.Off? ==> profile.zeroAllowed)
  }

  function Offered(profile: Profile): seq<Level> {
    if profile.levels == [] then ALL_LEVELS else profile.levels
  }

  /** Usable levels in order of first occurrence. */
  function Picked(levels: seq<Level>, profile: Profile): seq<Level> {
    if levels == [] then []
    else
      var before, last := Picked(levels[..|levels| - 1], profile), levels[|levels| - 1];
      if Usable(last, profile) && last !in before then before + [last] else before
  }

  /** Stable insertion by rank. */
  function Insert(sorted: seq<Level>, l: Level): seq<Level> {
    if sorted == [] || Rank(sorted[|sorted| - 1]) <= Rank(l) then sorted + [l]
    else Insert(sorted[..|sorted| - 1], l) + [sorted[|sorted| - 1]]
  }

  function Sort(levels: seq<Level>): seq<Level> {
    if levels == [] then [] else Insert(Sort(levels[..|levels| - 1]), levels[|levels| - 1])
  }

  function AvailableLevels(profile: Profile): seq<Level> {
    Sort(Picked(Offered(profile), profile))
  }

  predicate Ascending(levels: seq<Level>) {
    forall i, j :: 0 <= i < j < |levels| ==> Rank(levels[i]) <= Rank(levels[j]) && levels[i] != levels[j]
  }

  lemma {:induction false} PickedMeans(levels: seq<Level>, profile: Profile, l: Level)
    ensures l in Picked(levels, profile) <==> l in levels && Usable(l, profile)
  {
    if levels != [] {
      PickedMeans(levels[..|levels| - 1], profile, l);
      PickedMeans(levels[..|levels| - 1], profile, levels[|levels| - 1]);
      assert levels == levels[..|levels| - 1] + [levels[|levels| - 1]];
    }
  }

  lemma {:induction false} PickedOnce(levels: seq<Level>, profile: Profile)
    ensures forall i, j :: 0 <= i < j < |Picked(levels, profile)| ==>
            Picked(levels, profile)[i] != Picked(levels, profile)[j]
  {
    if levels != [] {
      PickedOnce(levels[..|levels| - 1], profile);
    }
  }

  lemma {:induction false} InsertHas(sorted: seq<Level>, l: Level, x: Level)
    ensures x in Insert(sorted, l) <==> x in sorted || x == l
    ensures |Insert(sorted, l)| == |sorted| + 1
  {
    if sorted != [] && Rank(sorted[|sorted| - 1]) > Rank(l) {
      InsertHas(sorted[..|sorted| - 1], l, x);
      assert sorted == sorted[..|sorted| - 1] + [sorted[|sorted| - 1]];
    }
  }

  lemma AscendingSnoc(levels: seq<Level>, l: Level)
    requires Ascending(levels) && forall x :: x in levels ==> Rank(x) <= Rank(l) && x != l
    ensures Ascending(levels + [l])
  {
    assert forall i :: 0 <= i < |levels| ==> levels[i] in levels;
  }

  lemma AscendingLast(levels: seq<Level>, x: Level)
    requires Ascending(levels) && levels != [] && x in levels[..|levels| - 1]
    ensures Rank(x) <= Rank(levels[|levels| - 1]) && x != levels[|levels| - 1]
  {}

  lemma {:induction false} InsertMeans(sorted: seq<Level>, l: Level)
    requires Ascending(sorted) && l !in sorted
    ensures Ascending(Insert(sorted, l))
  {
    if sorted == [] || Rank(sorted[|sorted| - 1]) <= Rank(l) {
      forall x | x in sorted ensures Rank(x) <= Rank(l) && x != l {
        if x != sorted[|sorted| - 1] { AscendingLast(sorted, x); }
      }
      AscendingSnoc(sorted, l);
    } else {
      var front, last := sorted[..|sorted| - 1], sorted[|sorted| - 1];
      assert l !in front && l != last;
      InsertMeans(front, l);
      forall x | x in Insert(front, l) ensures Rank(x) <= Rank(last) && x != last {
        InsertHas(front, l, x);
        if x in front { AscendingLast(sorted, x); }
      }
      AscendingSnoc(Insert(front, l), last);
    }
  }

  lemma {:induction false} SortMeans(levels: seq<Level>)
    requires forall i, j :: 0 <= i < j < |levels| ==> levels[i] != levels[j]
    ensures Ascending(Sort(levels)) && |Sort(levels)| == |levels|
    ensures forall x :: x in Sort(levels) <==> x in levels
  {
    if levels != [] {
      var front, last := levels[..|levels| - 1], levels[|levels| - 1];
      SortMeans(front);
      assert levels == front + [last];
      assert last !in front;
      InsertMeans(Sort(front), last);
      forall x ensures x in Sort(levels) <==> x in levels { InsertHas(Sort(front), last, x); }
      InsertHas(Sort(front), last, last);
    }
  }

  /** Exactly the offered levels that are known and allowed, once each, in ascending budget order. */
  lemma AvailableMeans(profile: Profile)
    ensures Ascending(AvailableLevels(profile))
    ensures forall l :: l in AvailableLevels(profile) <==> l in Offered(profile) && Usable(l, profile)
  {
    var picked := Picked(Offered(profile), profile);
    PickedOnce(Offered(profile), profile);
    SortMeans(picked);
    forall l ensures l in picked <==>
      l in Offered(profile) && Usable(l, profile) { PickedMeans(Offered(profile), profile, l); }
  }

  method ComputeAvailable(profile: Profile) returns (result: seq<Level>)
    ensures result == AvailableLevels(profile)
  {
    var levels := profile.levels;
    if |levels| == 0 { levels := ALL_LEVELS; }
    var seen: set<Level> := {};
    var picked := [];
    for i := 0 to |levels|
      invariant picked == Picked(levels[..i], profile) && forall l :: l in seen <==> l in picked
    {
      assert levels[..i + 1][..i] == levels[..i];
      var l := levels[i];
      if !Known(l) || (l.Off? && !profile.zeroAllowed) { continue; }
      if l in seen { continue; }
      seen := seen + {l};
      picked := picked + [l];
    }
    assert levels[..|levels|] == levels;
    result := Sort(picked);
  }

  // ---------------------------------------------------------------- the nearest level

  function Abs(x: int): nat {
    if x < 0 then -x else x
  }

  /** What a level stands for in the comparison: auto follows the request. */
  function Cost(l: Level, budget: int): int {
    if l.Auto? then (if budget < 0 then 0 else budget) else Budget(l)
  }

  /** Within the profile's bounds; off and auto are exempt from the lower one. */
  predicate Admissible(l: Level, budget: int, profile: Profile) {
    && (profile.maxBudget > 0 ==> Cost(l, budget) <= profile.maxBudget)
    && (profile.minBudget > 0 && !l.Off? && !l.Auto? ==> Cost(l, budget) >= profile.minBudget)
  }

  function Distance(l: Level, budget: int): nat {
    Abs(Cost(l, budget) - budget)
  }

  function TieBreak(l: Level, best: Level, requested: Level, budget: int): bool {
    || (l == requested && best != requested)
    || (best.Auto? && !l.Auto?)
    || (!l.Auto? && !best.Auto? && Cost(l, budget) < Budget(best))
  }

  /** The better of the best so far and one more level. */
  function Better(best: Level, l: Level, requested: Level, budget: int, profile: Profile): Level {
    if !Admissible(l, budget, profile) then best
    else if best.Unset? || Distance(l, budget) < Distance(best, budget) then l
    else if Distance(l, budget) == Distance(best, budget) && TieBreak(l, best, requested, budget) then l
    else best
  }

  /** The scan over the levels; Unset until one is admissible. */
  function Scan(levels: seq<Level>, requested: Level, budget: int, profile: Profile): Level {
    if levels == [] then Unset
    else Better(Scan(levels[..|levels| - 1], requested, budget, profile), levels[|levels| - 1], requested, budget,
      profile)
  }

  function NearestLevel(requested: Level, budget: int, levels: seq<Level>, profile: Profile): Level {
    if requested.Off? && profile.zeroAllowed && Off in levels then Off
    else if requested.Auto? && Auto in levels then Auto
    else Scan(levels, requested, budget, profile)
  }

  /** `l` comes before `m` when both are admissible: nearer; or as near and the one asked for, or not auto
      while the other is, or the cheaper one. */
  predicate Beats(l: Level, m: Level, requested: Level, budget: int) {
    || Distance(l, budget) < Distance(m, budget)
    || (Distance(l, budget) == Distance(m, budget)
        && (l == m || l == requested || (m != requested && (m.Auto? || (!l.Auto? && Budget(l) <= Budget(m))))))
  }

  /** The scan finds the best admissible level of the list, if there is one. */
  ghost predicate Best(best: Level, levels: seq<Level>, requested: Level, budget: int, profile: Profile) {
    if best.Unset? then forall i :: 0 <= i < |levels| ==> !Admissible(levels[i], budget, profile)
    else
      && best in levels && Admissible(best, budget, profile)
      && forall i :: 0 <= i < |levels| && Admissible(levels[i], budget, profile) ==>
        Beats(best, levels[i], requested, budget)
  }

  lemma {:induction false} ScanFindsBest(levels: seq<Level>, requested: Level, budget: int, profile: Profile)
    requires Ascending(levels) && forall i :: 0 <= i < |levels| ==> Known(levels[i])
    requires requested.Auto? ==> Auto !in levels
    ensures Best(Scan(levels, requested, budget, profile), levels, requested, budget, profile)
  {
    if levels != [] {
      var front, l := levels[..|levels| - 1], levels[|levels| - 1];
      ScanFindsBest(front, requested, budget, profile);
      assert levels == front + [l];
      var before := Scan(front, requested, budget, profile);
      var best := Scan(levels, requested, budget, profile);
      assert before in front || before.Unset?;
      forall i | 0 <= i < |levels|
        && Admissible(levels[i], budget, profile) ensures Beats(best, levels[i], requested, budget) {
        if i < |front| {
          assert front[i] == levels[i];
        }
      }
    }
  }

  method ComputeCost(l: Level, budget: int) returns (cost: int)
    ensures cost == Cost(l, budget)
  {
    cost := Budget(l);
    if l.Auto? {
      cost := budget;
      if cost < 0 { cost := 0; }
    }
  }

  method BreaksTie(l: Level, cost: int, best: Level, requested: Level, budget: int) returns (tieBreak: bool)
    requires cost == Cost(l, budget)
    ensures tieBreak == TieBreak(l, best, requested, budget)
  {
    tieBreak := l == requested && best != requested;
    if !tieBreak && best.Auto? && !l.Auto? { tieBreak := true; }
    if !tieBreak && !l.Auto? && !best.Auto? { tieBreak := cost < Budget(best); }
  }

  /** One turn of the scan. */
  method Consider(best: Level, bestDistance: nat, l: Level, requested: Level, budget: int, profile: Profile)
    returns (next: Level, distance: nat)
    requires !best.Unset? ==> bestDistance == Distance(best, budget)
    ensures next == Better(best, l, requested, budget, profile)
    ensures !next.Unset? ==> distance == Distance(next, budget)
  {
    next, distance := best, bestDistance;
    var cost := ComputeCost(l, budget);
    if profile.maxBudget > 0 && cost > profile.maxBudget { return; }
    if profile.minBudget > 0 && !l.Off? && !l.Auto? && cost < profile.minBudget { return; }
    var here := Abs(cost - budget);
    var tieBreak := BreaksTie(l, cost, best, requested, budget);
    if best.Unset? || here < bestDistance || (here == bestDistance && tieBreak) {
      next, distance := l, here;
    }
  }

  method Nearest(requested: Level, budget: int, levels: seq<Level>, profile: Profile) returns (best: Level)
    ensures best == NearestLevel(requested, budget, levels, profile)
  {
    if requested.Off? && profile.zeroAllowed {
      if Off in levels { return Off; }
    }
    if requested.Auto? {
      if Auto in levels { return Auto; }
    }
    best := Unset;
    var bestDistance: nat := 0;
    for i := 0 to |levels|
      invariant best == Scan(levels[..i], requested, budget, profile)
      invariant !best.Unset? ==> bestDistance == Distance(best, budget)
    {
      assert levels[..i + 1][..i] == levels[..i];
      best, bestDistance := Consider(best, bestDistance, levels[i], requested, budget, profile);
    }
    assert levels[..|levels|] == levels;
  }

  // ---------------------------------------------------------------- a level for a bare budget

  /** The known level, other than auto, nearest to the value; the cheaper of two. */
  ghost predicate NearestTo(l: Level, value: int) {
    Known(l) && !l.Auto? && forall m {:trigger Budget(m)} :: Known(m) && !m.Auto? ==>
      Abs(value - Budget(l)) < Abs(value - Budget(m))
        || (Abs(value - Budget(l)) == Abs(value - Budget(m)) && Budget(l) <= Budget(m))
  }

  function LevelForBudget(value: int): Level {
    if value == -1 then Auto
    else if value <= 256 then Off
    else if value <= 768 then Minimal
    else if value <= 4608 then Low
    else if value <= 16384 then Medium
    else if value <= 28672 then High
    else if value <= 80384 then XHigh
    else Max
  }

  lemma LevelForBudgetMeans(value: int)
    requires value != -1
    ensures forall l :: NearestTo(l, value) <==> l == LevelForBudget(value)
  {
    var r := LevelForBudget(value);
    forall l ensures NearestTo(l, value) <==> l == r {
      var b := Budget(r);
    }
  }

  /** The table is a map with no order of its own: whatever order it is walked in, the answer is the same. */
  method ComputeLevelForBudget(value: int, walk: seq<Level>) returns (best: Level)
    requires forall l :: l in walk <==> Known(l)
    ensures best == LevelForBudget(value)
  {
    if value == -1 { return Auto; }
    best := Off;
    var bestDistance, found := 0, false;
    for i := 0 to |walk|
      invariant Known(best) && !best.Auto? && (found ==> bestDistance == Abs(value - Budget(best)))
      invariant found ==> forall j :: 0 <= j < i && !walk[j].Auto? ==>
                  bestDistance < Abs(value - Budget(walk[j]))
                    || (bestDistance == Abs(value - Budget(walk[j])) && Budget(best) <= Budget(walk[j]))
      invariant !found ==> forall j :: 0 <= j < i ==> walk[j].Auto?
    {
      var l := walk[i];
      assert l in walk;
      if l.Auto? { continue; }
      var distance := Abs(value - Budget(l));
      if !found || distance < bestDistance || (distance == bestDistance && Budget(l) < Budget(best)) {
        best, bestDistance, found := l, distance, true;
      }
    }
    assert Off in walk;
    assert NearestTo(best, value) by {
      forall m | Known(m) && !m.Auto?
        ensures Abs(value - Budget(best)) < Abs(value - Budget(m))
                || (Abs(value - Budget(best)) == Abs(value - Budget(m)) && Budget(best) <= Budget(m))
      {
        assert m in walk;
      }
    }
    LevelForBudgetMeans(value);
  }

  // ---------------------------------------------------------------- resolution

  function ClampBudget(value: int, profile: Profile): int {
    if value < 0 then -1
    else
      var low := if profile.minBudget > 0 && value < profile.minBudget then profile.minBudget else value;
      if profile.maxBudget > 0 && low > profile.maxBudget then profile.maxBudget else low
  }

  /** The profile sets no bound that the budget breaks; a bound of zero or less is none. */
  predicate WithinBounds(value: int, profile: Profile) {
    (profile.minBudget > 0 ==> value >= profile.minBudget) && (profile.maxBudget > 0 ==> value <= profile.maxBudget)
  }

  /** Clamping gives the budget within the bounds that is nearest to the value asked for; -1, for dynamic, stands for
      any negative value. */
  lemma ClampBudgetMeans(value: int, profile: Profile)
    ensures value < 0 ==> ClampBudget(value, profile) == -1
    ensures value >= 0 && (profile.minBudget > 0 && profile.maxBudget > 0 ==> profile.minBudget <= profile.maxBudget)
            ==>
            && WithinBounds(ClampBudget(value, profile), profile)
            && forall x :: WithinBounds(x, profile) ==>
                 Abs(value - ClampBudget(value, profile)) <= Abs(value - x)
  {
    if value >= 0 {
      forall x | WithinBounds(x, profile) && WithinBounds(ClampBudget(value, profile), profile)
        ensures Abs(value - ClampBudget(value, profile)) <= Abs(value - x)
      {
      }
    }
  }

  function Resolve(spec: Spec, profile: Profile): Result {
    if !spec.requested then Decided(Decision(false, Unset, 0, Unset, 0, false))
    else if !profile.supported || AvailableLevels(profile) == [] then Unsupported
    else
      var levels := AvailableLevels(profile);
      var requested := if spec.level.Unset? then LevelForBudget(spec.budget) else spec.level;
      var budget := if spec.hasBudget then spec.budget else Budget(requested);
      if !Known(requested) then
        if profile.dynamicAllowed then Decided(Decision(true, requested, budget, requested, -1, false))
          else Unrecognized
      else
        var level := NearestLevel(requested, budget, levels, profile);
        if level.Unset? then Unsupported
        else
          var effective :=
            if level.Off? then 0
            else if level.Auto? && profile.dynamicAllowed then -1
            else if spec.hasBudget && profile.dynamicAllowed then ClampBudget(spec.budget, profile)
            else Budget(level);
          Decided(Decision(true, requested, budget, level, effective, requested != level
            || (spec.hasBudget && budget != effective)))
  }

  /** A level that the profile offers within its bounds. */
  predicate Acceptable(l: Level, profile: Profile) {
    l in AvailableLevels(profile) && (l.Auto? || l.Off? || Admissible(l, Budget(l), profile))
  }

  lemma AvailableKnown(profile: Profile)
    ensures forall i :: 0 <= i < |AvailableLevels(profile)| ==> Known(AvailableLevels(profile)[i])
  {
    AvailableMeans(profile);
    forall i | 0 <= i < |AvailableLevels(profile)| ensures Known(AvailableLevels(profile)[i]) {
      assert AvailableLevels(profile)[i] in AvailableLevels(profile);
    }
  }

  /** Whatever the request, the level chosen from the profile is acceptable to it. */
  lemma NearestAcceptable(requested: Level, budget: int, profile: Profile)
    ensures var l := NearestLevel(requested, budget, AvailableLevels(profile), profile);
            l.Unset? || Acceptable(l, profile)
  {
    var levels := AvailableLevels(profile);
    AvailableMeans(profile);
    AvailableKnown(profile);
    if !(requested.Auto? && Auto in levels) {
      ScanFindsBest(levels, requested, budget, profile);
    }
  }

  /** An acceptable level asked for without a budget is returned unchanged. */
  lemma AcceptableIsKept(l: Level, profile: Profile)
    requires Acceptable(l, profile)
    ensures NearestLevel(l, Budget(l), AvailableLevels(profile), profile) == l
  {
    var levels := AvailableLevels(profile);
    AvailableMeans(profile);
    AvailableKnown(profile);
    if !l.Auto? && !l.Off? {
      ScanFindsBest(levels, l, Budget(l), profile);
      var i :| 0 <= i < |levels| && levels[i] == l;
      var best := Scan(levels, l, Budget(l), profile);
      assert Beats(best, levels[i], l, Budget(l));
    }
  }

  /** Resolution is idempotent: asking for the effective level again gives it back, not downgraded. */
  lemma ResolveTwice(spec: Spec, profile: Profile)
    requires spec.requested && Resolve(spec, profile).Decided?
    ensures var d := Resolve(spec, profile).d;
            var again := Resolve(Spec(true, d.effectiveLevel, 0, false), profile);
            again.Decided? && again.d.effectiveLevel == d.effectiveLevel && !again.d.downgraded
  {
    var d := Resolve(spec, profile).d;
    if Known(d.requestedLevel) {
      NearestAcceptable(d.requestedLevel, d.requestedBudget, profile);
      AvailableMeans(profile);
      AcceptableIsKept(d.effectiveLevel, profile);
    }
  }

  /** A decision counts as a downgrade exactly when the client does not get what it asked for: the level itself, and
      with an explicit budget that budget. A level that only a dynamic profile understands is passed on as it is. */
  lemma DowngradedExactly(spec: Spec, profile: Profile)
    requires spec.requested && Resolve(spec, profile).Decided?
    ensures var d := Resolve(spec, profile).d;
            && d.requestedLevel == (if spec.level.Unset? then LevelForBudget(spec.budget) else spec.level)
            && (Known(d.requestedLevel) ==>
                  (!d.downgraded <==>
                    d.effectiveLevel == d.requestedLevel && (spec.hasBudget ==> d.effectiveBudget == spec.budget)))
            && (!Known(d.requestedLevel) ==>
                  profile.dynamicAllowed && !d.downgraded && d.effectiveLevel == d.requestedLevel)
  {}

  /** The budget that goes with the level: none for off, dynamic for auto where the profile allows that, the one asked
      for, kept within the bounds, where the profile takes any, and otherwise that of the level. */
  lemma EffectiveBudgetMeans(spec: Spec, profile: Profile)
    requires spec.requested && Resolve(spec, profile).Decided? && Known(Resolve(spec, profile).d.requestedLevel)
    ensures var d := Resolve(spec, profile).d;
            && (d.effectiveLevel.Off? ==> d.effectiveBudget == 0)
            && (d.effectiveLevel.Auto? && profile.dynamicAllowed ==> d.effectiveBudget == -1)
            && (!d.effectiveLevel.Off? && !d.effectiveLevel.Auto? && spec.hasBudget && profile.dynamicAllowed ==>
                  && (WithinBounds(spec.budget, profile) && spec.budget >= 0 ==> d.effectiveBudget == spec.budget)
                  && (spec.budget < 0 ==> d.effectiveBudget == -1))
            && (!d.effectiveLevel.Off? && !(spec.hasBudget && profile.dynamicAllowed)
                && !(d.effectiveLevel.Auto? && profile.dynamicAllowed) ==>
                  d.effectiveBudget == Budget(d.effectiveLevel))
  {}

  /** With an explicit budget the level is still the best admissible one for that budget. */
  lemma ResolveIsNearest(spec: Spec, profile: Profile)
    requires spec.requested && Resolve(spec, profile).Decided? && Known(Resolve(spec, profile).d.requestedLevel)
    ensures var d := Resolve(spec, profile).d;
            var levels := AvailableLevels(profile);
            if d.requestedLevel in levels && (d.requestedLevel.Auto? || d.requestedLevel.Off?)
              then d.effectiveLevel == d.requestedLevel
            else Best(d.effectiveLevel, levels, d.requestedLevel, d.requestedBudget, profile)
  {
    AvailableMeans(profile);
    AvailableKnown(profile);
    var d := Resolve(spec, profile).d;
    var levels := AvailableLevels(profile);
    if !(d.requestedLevel.Auto? && Auto in levels) {
      ScanFindsBest(levels, d.requestedLevel, d.requestedBudget, profile);
    }
  }
}
