/** The failover matcher of internal/fault/matcher.go: parsed ranges are sorted, merged and searched. */
module FaultMatcher {

  datatype Range = Range(low: int, high: int)

  /** One token of the spec, already cut at commas and line ends and trimmed. */
  datatype Token = Code(code: int) | Span(first: int, last: int) | NotANumber

  predicate Contains(r: Range, status: int) {
    r.low <= status <= r.high
  }

  predicate Covers(rs: seq<Range>, status: int) {
    exists i :: 0 <= i < |rs| && Contains(rs[i], status)
  }

  predicate NonEmpty(rs: seq<Range>) {
    forall i :: 0 <= i < |rs| ==> rs[i].low <= rs[i].high
  }

  /** Ascending, with at least one uncovered status between any two ranges. */
  predicate Separated(rs: seq<Range>) {
    forall i, j :: 0 <= i < j < |rs| ==> rs[i].high + 1 < rs[j].low
  }

  predicate SortedByLow(rs: seq<Range>) {
    forall i, j :: 0 <= i < j < |rs| ==> rs[i].low <= rs[j].low
  }

  predicate Precedes(a: Range, b: Range) {
    a.low < b.low || (a.low == b.low && a.high < b.high)
  }

  // ---------------------------------------------------------------- parsing

  function Meaning(t: Token): Range {
    match t case Code(c) => Range(c, c) case Span(a, b) => Range(a, b) case NotANumber => Range(0, -1)
  }

  /** The spec takes numeric tokens that are not reversed and lie inside [400, 599]. */
  predicate Acceptable(t: Token) {
    400 <= Meaning(t).low <= Meaning(t).high <= 599
  }

  method ParseToken(t: Token) returns (ok: bool, r: Range)
    ensures ok == Acceptable(t) && (ok ==> r == Meaning(t))
  {
    r := Range(0, -1);
    match t {
      case NotANumber => return false, r;
      case Code(c) => r := Range(c, c);
      case Span(a, b) =>
        if a > b {
          return false, r;
        }
        r := Range(a, b);
    }
    if r.low < 100 || r.high > 599 {
      return false, r;
    }
    if r.low < 400 {
      return false, r;
    }
    ok := true;
  }

  predicate AllAcceptable(tokens: seq<Token>) {
    tokens != [] && forall i :: 0 <= i < |tokens| ==> Acceptable(tokens[i])
  }

  /** Accepts a spec exactly when it has a token and accepts every token. */
  method ParseSpec(tokens: seq<Token>) returns (ok: bool, ranges: seq<Range>)
    ensures ok <==> AllAcceptable(tokens)
    ensures ok ==> |ranges| == |tokens| && forall i :: 0 <= i < |tokens| ==> ranges[i] == Meaning(tokens[i])
  {
    ranges := [];
    for i := 0 to |tokens|
      invariant |ranges| == i && forall j :: 0 <= j < i ==> Acceptable(tokens[j]) && ranges[j] == Meaning(tokens[j])
    {
      var good, r := ParseToken(tokens[i]);
      if !good {
        return false, [];
      }
      ranges := ranges + [r];
    }
    ok := |ranges| != 0;
  }

  // ---------------------------------------------------------------- sorting and merging

  method Insert(sorted: seq<Range>, r: Range) returns (grown: seq<Range>)
    requires SortedByLow(sorted)
    ensures multiset(grown) == multiset(sorted) + multiset{r} && SortedByLow(grown)
  {
    var at := 0;
    while at < |sorted| && !Precedes(r, sorted[at])
      invariant at <= |sorted|
      invariant forall i :: 0 <= i < at ==> sorted[i].low <= r.low
    {
      at := at + 1;
    }
    grown := sorted[..at] + [r] + sorted[at..];
    InsertKeepsMembers(sorted, r, at);
    InsertKeepsOrder(sorted, r, at, grown);
  }

  lemma InsertKeepsMembers(sorted: seq<Range>, r: Range, at: nat)
    requires at <= |sorted|
    ensures multiset(sorted[..at] + [r] + sorted[at..]) == multiset(sorted) + multiset{r}
  {
    assert sorted == sorted[..at] + sorted[at..];
  }

  lemma InsertKeepsOrder(sorted: seq<Range>, r: Range, at: nat, grown: seq<Range>)
    requires SortedByLow(sorted) && at <= |sorted| && grown == sorted[..at] + [r] + sorted[at..]
    requires forall i :: 0 <= i < at ==> sorted[i].low <= r.low
    requires at < |sorted| ==> r.low <= sorted[at].low
    ensures SortedByLow(grown)
  {
    forall i, j | 0 <= i < j < |grown| ensures grown[i].low <= grown[j].low {
      var a := if i < at then sorted[i].low else if i == at then r.low else sorted[i - 1].low;
      var b := if j < at then sorted[j].low else if j == at then r.low else sorted[j - 1].low;
      assert grown[i].low == a && grown[j].low == b;
    }
  }

  method Sort(ranges: seq<Range>) returns (sorted: seq<Range>)
    ensures multiset(sorted) == multiset(ranges) && SortedByLow(sorted)
  {
    sorted := [];
    for n := 0 to |ranges|
      invariant multiset(sorted) == multiset(ranges[..n]) && SortedByLow(sorted)
    {
      assert ranges[..n + 1] == ranges[..n] + [ranges[n]];
      sorted := Insert(sorted, ranges[n]);
    }
    assert ranges[..|ranges|] == ranges;
  }

  lemma SameMembersCover(a: seq<Range>, b: seq<Range>, status: int)
    requires multiset(a) == multiset(b) && Covers(a, status)
    ensures Covers(b, status)
  {
    var i :| 0 <= i < |a| && Contains(a[i], status);
    assert a[i] in multiset(b);
    assert a[i] in b;
  }

  lemma SameMembersNonEmpty(a: seq<Range>, b: seq<Range>)
    requires multiset(a) == multiset(b) && NonEmpty(a)
    ensures NonEmpty(b)
  {
    forall i | 0 <= i < |b| ensures b[i].low <= b[i].high {
      assert b[i] in multiset(a);
      assert b[i] in a;
    }
  }

  lemma CoversAppend(rs: seq<Range>, r: Range, status: int)
    ensures Covers(rs + [r], status) <==> Covers(rs, status) || Contains(r, status)
  {
    var all := rs + [r];
    assert all[|rs|] == r;
    if Covers(rs, status) {
      var i :| 0 <= i < |rs| && Contains(rs[i], status);
      assert all[i] == rs[i];
    }
  }

  /** Widening the last range of a merged list by an overlapping or adjacent one. */
  lemma WidenLast(merged: seq<Range>, r: Range, status: int)
    requires merged != [] && NonEmpty(merged) && r.low <= r.high
    requires merged[|merged| - 1].low <= r.low <= merged[|merged| - 1].high + 1
    ensures var last := merged[|merged| - 1];
            Covers(merged[..|merged| - 1] + [last.(high := if r.high > last.high then r.high else last.high)], status)
            <==> Covers(merged, status) || Contains(r, status)
  {
    var front, last := merged[..|merged| - 1], merged[|merged| - 1];
    assert merged == front + [last];
    CoversAppend(front, last, status);
    CoversAppend(front, last.(high := if r.high > last.high then r.high else last.high), status);
  }

  /** Sorts and collapses: the result is separated and covers exactly the same statuses. */
  method MergeRanges(ranges: seq<Range>) returns (merged: seq<Range>)
    requires NonEmpty(ranges)
    ensures Separated(merged) && NonEmpty(merged)
    ensures forall status :: Covers(merged, status) <==> Covers(ranges, status)
    ensures ranges == [] <==> merged == []
  {
    if ranges == [] {
      return [];
    }
    var sorted := Sort(ranges);
    SameMembersNonEmpty(ranges, sorted);
    assert |sorted| == |multiset(sorted)| == |ranges|;
    merged := [sorted[0]];
    assert sorted[..1] == [sorted[0]];
    for n := 1 to |sorted|
      invariant merged != [] && Separated(merged) && NonEmpty(merged)
      invariant merged[|merged| - 1].low <= sorted[n - 1].low
      invariant forall status :: Covers(merged, status) <==> Covers(sorted[..n], status)
    {
      var current := sorted[n];
      var last := merged[|merged| - 1];
      assert sorted[..n + 1] == sorted[..n] + [current];
      forall status ensures Covers(sorted[..n + 1], status) <==>
        Covers(sorted[..n], status) || Contains(current, status) {
        CoversAppend(sorted[..n], current, status);
      }
      ghost var before := merged;
      if current.low <= last.high + 1 {
        var wide := merged[..|merged| - 1]
          + [last.(high := if current.high > last.high then current.high else last.high)];
        forall status ensures Covers(wide, status) <==> Covers(before, status) || Contains(current, status) {
          WidenLast(before, current, status);
        }
        merged := wide;
      } else {
        forall status ensures Covers(before + [current], status) <==>
          Covers(before, status) || Contains(current, status) {
          CoversAppend(before, current, status);
        }
        merged := merged + [current];
      }
    }
    assert sorted[..|sorted|] == sorted;
    forall status ensures Covers(sorted, status) <==> Covers(ranges, status) {
      if Covers(sorted, status) { SameMembersCover(sorted, ranges, status); }
      if Covers(ranges, status) { SameMembersCover(ranges, sorted, status); }
    }
  }

  // ---------------------------------------------------------------- matching

  /** Binary search over a merged list. */
  method Match(ranges: seq<Range>, status: int) returns (hit: bool)
    requires Separated(ranges) && NonEmpty(ranges)
    ensures hit <==> status > 0 && Covers(ranges, status)
  {
    if status <= 0 || |ranges| == 0 {
      return false;
    }
    var lo, hi := 0, |ranges|;
    while lo < hi
      invariant lo <= hi <= |ranges|
      invariant forall i :: 0 <= i < lo ==> ranges[i].high < status
      invariant hi < |ranges| ==> ranges[hi].high >= status
    {
      var mid := (lo + hi) / 2;
      if ranges[mid].high >= status {
        hi := mid;
      } else {
        forall i | 0 <= i <= mid ensures ranges[i].high < status {
          assert i < mid ==> ranges[i].high + 1 < ranges[mid].low;
        }
        lo := mid + 1;
      }
    }
    if lo >= |ranges| {
      return false;
    }
    hit := ranges[lo].low <= status && status <= ranges[lo].high;
    if i :| 0 <= i < |ranges| && Contains(ranges[i], status) {
      assert i == lo;
    }
  }

  /** A spec of white space only, or the tokens of any other one. */
  datatype Spec = Blank | Tokens(tokens: seq<Token>)

  predicate Valid(spec: Spec) {
    spec.Blank? || AllAcceptable(spec.tokens)
  }

  /** What the operator asked for. */
  predicate Means(spec: Spec, status: int) {
    spec.Tokens? && exists i :: 0 <= i < |spec.tokens| && Contains(Meaning(spec.tokens[i]), status)
  }

  /** A matcher for every valid spec; a blank one matches nothing. */
  method NewMatcher(spec: Spec) returns (ok: bool, ranges: seq<Range>)
    ensures ok <==> Valid(spec)
    ensures Separated(ranges) && NonEmpty(ranges)
    ensures ok ==> forall status :: Covers(ranges, status) <==> Means(spec, status)
  {
    if spec.Blank? {
      return true, [];
    }
    var parsed;
    ok, parsed := ParseSpec(spec.tokens);
    if !ok {
      return false, [];
    }
    ranges := MergeRanges(parsed);
    forall status ensures Covers(parsed, status) <==> Means(spec, status) {
      if Means(spec, status) {
        var i :| 0 <= i < |spec.tokens| && Contains(Meaning(spec.tokens[i]), status);
        assert Contains(parsed[i], status);
      }
    }
  }

  /** Building a matcher and asking it agrees with the tokens one by one. */
  method NewMatcherMatch(spec: Spec, status: int) returns (ok: bool, hit: bool)
    ensures ok <==> Valid(spec)
    ensures ok ==> (hit <==> status > 0 && Means(spec, status))
  {
    var ranges;
    ok, ranges := NewMatcher(spec);
    hit := Match(ranges, status);
  }
}
