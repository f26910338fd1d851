// Masking configured URLs in error text: which characters are hidden, which are kept, and the
// final cut. A pattern is known by the matches it has in the window.
module Redactor {
  import opened Numbers
  import opened Wrappers

  const MAX_INPUT := 8192

  // The length of the match that starts at an index, 0 where none does.
  type Pattern = nat -> nat

  datatype Range = Range(from: nat, to: nat)

  ghost predicate Fits(pattern: Pattern, size: nat) {
    forall i: nat :: pattern(i) > 0 ==> i + pattern(i) <= size
  }

  // RegExp.exec from lastIndex: the first match at or after it.
  function Exec(pattern: Pattern, size: nat, lastIndex: nat): (r: Option<nat>)
    ensures r.Some? ==> lastIndex <= r.value < size && pattern(r.value) > 0
    ensures r.Some? ==> forall i :: lastIndex <= i < r.value ==> pattern(i) == 0
    ensures r.None? ==> forall i :: lastIndex <= i < size ==> pattern(i) == 0
    decreases size - lastIndex
  {
    if lastIndex >= size then None
    else if pattern(lastIndex) > 0 then Some(lastIndex)
    else Exec(pattern, size, lastIndex + 1)
  }

  // In an occurrence of the pattern that starts before the cut.
  ghost predicate CoveredBy(pattern: Pattern, pos: nat) {
    exists i: nat :: i < MAX_INPUT && i <= pos < i + pattern(i)
  }

  ghost predicate Covered(patterns: seq<Pattern>, pos: nat) {
    exists k :: 0 <= k < |patterns| && CoveredBy(patterns[k], pos)
  }

  ghost predicate In(ranges: seq<Range>, pos: nat) {
    exists k :: 0 <= k < |ranges| && ranges[k].from <= pos < ranges[k].to
  }

  ghost predicate Proper(ranges: seq<Range>, size: nat) {
    forall k :: 0 <= k < |ranges| ==> ranges[k].from < ranges[k].to <= size && ranges[k].from < MAX_INPUT
  }

  ghost predicate SortedByStart(ranges: seq<Range>) {
    forall i, j :: 0 <= i < j < |ranges| ==> ranges[i].from <= ranges[j].from
  }

  // Sorted, disjoint and not touching.
  ghost predicate Separate(ranges: seq<Range>) {
    forall i, j :: 0 <= i < j < |ranges| ==> ranges[i].to < ranges[j].from
  }

  // ---- sorting by start ----

  function Insert(r: Range, ranges: seq<Range>): seq<Range> {
    if ranges == [] then [r]
    else if ranges[0].from <= r.from then [ranges[0]] + Insert(r, ranges[1..])
    else [r] + ranges
  }

  function Sort(ranges: seq<Range>): seq<Range> {
    if ranges == [] then [] else Insert(ranges[|ranges| - 1], Sort(ranges[..|ranges| - 1]))
  }

  lemma {:induction false} InsertMembers(r: Range, ranges: seq<Range>)
    ensures multiset(Insert(r, ranges)) == multiset{r} + multiset(ranges)
    ensures forall x :: x in Insert(r, ranges) <==> x == r || x in ranges
  {
    if ranges != [] {
      assert ranges == [ranges[0]] + ranges[1..];
      if ranges[0].from <= r.from { InsertMembers(r, ranges[1..]); }
    }
  }

  lemma {:induction false} InsertSorts(r: Range, ranges: seq<Range>)
    requires SortedByStart(ranges)
    ensures SortedByStart(Insert(r, ranges))
  {
    if ranges != [] && ranges[0].from <= r.from {
      InsertSorts(r, ranges[1..]);
      InsertMembers(r, ranges[1..]);
      forall x | x in Insert(r, ranges[1..]) ensures ranges[0].from <= x.from {}
    }
  }

  lemma SortKeeps(ranges: seq<Range>)
    ensures multiset(Sort(ranges)) == multiset(ranges) && SortedByStart(Sort(ranges))
  {
    if ranges != [] {
      var n := |ranges| - 1;
      assert ranges == ranges[..n] + [ranges[n]];
      SortKeeps(ranges[..n]);
      InsertMembers(ranges[n], Sort(ranges[..n]));
      InsertSorts(ranges[n], Sort(ranges[..n]));
    }
  }

  lemma SortMembers(ranges: seq<Range>, size: nat)
    requires Proper(ranges, size)
    ensures Proper(Sort(ranges), size)
    ensures forall pos: nat :: In(Sort(ranges), pos) <==> In(ranges, pos)
  {
    SortKeeps(ranges);
    var sorted := Sort(ranges);
    forall k | 0 <= k < |sorted| ensures sorted[k] in ranges { assert sorted[k] in multiset(sorted); }
    forall k | 0 <= k < |ranges| ensures ranges[k] in sorted { assert ranges[k] in multiset(ranges); }
  }

  // ---- every match, merged ----

  ghost predicate CoveredFrom(pattern: Pattern, below: nat, pos: nat) {
    exists i: nat :: i < below && i < MAX_INPUT && i <= pos < i + pattern(i)
  }

  method MatchesOf(pattern: Pattern, size: nat) returns (ranges: seq<Range>)
    requires Fits(pattern, size)
    ensures Proper(ranges, size)
    ensures forall pos: nat :: In(ranges, pos) <==> CoveredBy(pattern, pos)
  {
    ranges := [];
    var lastIndex := 0;
    var at := Exec(pattern, size, lastIndex);
    while at.Some?
      invariant at == Exec(pattern, size, lastIndex)
      invariant Proper(ranges, size)
      invariant forall pos: nat :: In(ranges, pos) <==> CoveredFrom(pattern, lastIndex, pos)
      decreases size - lastIndex, if at.Some? then 1 else 0
    {
      if at.value >= MAX_INPUT {
        break;
      }
      ghost var before := ranges;
      var found := Range(at.value, at.value + pattern(at.value));
      ranges := ranges + [found];
      assert ranges[|before|] == found && forall k :: 0 <= k < |before| ==> ranges[k] == before[k];
      forall pos: nat ensures In(ranges, pos) <==> CoveredFrom(pattern, at.value + 1, pos) {
        if CoveredFrom(pattern, at.value + 1, pos) {
          var i: nat :| i < at.value + 1 && i < MAX_INPUT && i <= pos < i + pattern(i);
          if i == at.value { assert ranges[|before|].from <= pos < ranges[|before|].to; }
          else { assert CoveredFrom(pattern, lastIndex, pos) || i >= lastIndex; assert In(before, pos); }
        }
        if In(ranges, pos) {
          var k :| 0 <= k < |ranges| && ranges[k].from <= pos < ranges[k].to;
          if k < |before| { assert In(before, pos); }
        }
      }
      lastIndex := at.value + 1;
      at := Exec(pattern, size, lastIndex);
    }
  }

  lemma InConcat(a: seq<Range>, b: seq<Range>, pos: nat)
    ensures In(a + b, pos) <==> In(a, pos) || In(b, pos)
  {
    if In(a, pos) {
      var k :| 0 <= k < |a| && a[k].from <= pos < a[k].to;
      assert (a + b)[k] == a[k];
    }
    if In(b, pos) {
      var k :| 0 <= k < |b| && b[k].from <= pos < b[k].to;
      assert (a + b)[|a| + k] == b[k];
    }
  }

  method AllMatches(patterns: seq<Pattern>, size: nat) returns (ranges: seq<Range>)
    requires forall k :: 0 <= k < |patterns| ==> Fits(patterns[k], size)
    ensures Proper(ranges, size)
    ensures forall pos: nat :: In(ranges, pos) <==> Covered(patterns, pos)
  {
    ranges := [];
    for n := 0 to |patterns|
      invariant Proper(ranges, size)
      invariant forall pos: nat :: In(ranges, pos) <==> Covered(patterns[..n], pos)
    {
      var found := MatchesOf(patterns[n], size);
      forall pos: nat ensures In(ranges + found, pos) <==> Covered(patterns[..n + 1], pos) {
        InConcat(ranges, found, pos);
        CoveredStep(patterns, n, pos);
      }
      ranges := ranges + found;
    }
    assert patterns[..|patterns|] == patterns;
  }

  lemma CoveredStep(patterns: seq<Pattern>, n: nat, pos: nat)
    requires n < |patterns|
    ensures Covered(patterns[..n + 1], pos) <==> Covered(patterns[..n], pos) || CoveredBy(patterns[n], pos)
  {
    if Covered(patterns[..n], pos) {
      var k :| 0 <= k < |patterns[..n]| && CoveredBy(patterns[..n][k], pos);
      assert patterns[..n + 1][k] == patterns[k];
    }
    if CoveredBy(patterns[n], pos) { assert patterns[..n + 1][n] == patterns[n]; }
    if Covered(patterns[..n + 1], pos) {
      var k :| 0 <= k < |patterns[..n + 1]| && CoveredBy(patterns[..n + 1][k], pos);
      if k < n { assert patterns[..n][k] == patterns[k]; }
    }
  }

  lemma InOne(r: Range, pos: nat)
    ensures In([r], pos) <==> r.from <= pos < r.to
  {
    assert [r][0] == r;
  }

  // The last range made longer to take in `r`.
  function Grown(ranges: seq<Range>, r: Range): seq<Range>
    requires ranges != []
  {
    var last := ranges[|ranges| - 1];
    ranges[..|ranges| - 1] + [Range(last.from, if last.to > r.to then last.to else r.to)]
  }

  lemma GrownCovers(ranges: seq<Range>, r: Range, pos: nat)
    requires ranges != [] && r.from < r.to
    requires var last := ranges[|ranges| - 1]; last.from <= r.from <= last.to && last.from < last.to
    ensures In(Grown(ranges, r), pos) <==> In(ranges, pos) || r.from <= pos < r.to
  {
    var n := |ranges| - 1;
    var last := ranges[n];
    var grown := Range(last.from, if last.to > r.to then last.to else r.to);
    InConcat(ranges[..n], [grown], pos);
    InConcat(ranges[..n], [last], pos);
    InOne(grown, pos);
    InOne(last, pos);
    assert ranges == ranges[..n] + [last];
  }

  // The next range overlaps or touches the last one, or starts a new one.
  lemma MergeGrows(merged: seq<Range>, r: Range, size: nat)
    requires Proper(merged, size) && Separate(merged) && r.from < r.to <= size && r.from < MAX_INPUT
    requires merged != [] && merged[|merged| - 1].from <= r.from <= merged[|merged| - 1].to
    ensures Proper(Grown(merged, r), size) && Separate(Grown(merged, r))
    ensures forall pos: nat :: In(Grown(merged, r), pos) <==> In(merged, pos) || r.from <= pos < r.to
    ensures Grown(merged, r)[|merged| - 1].from == merged[|merged| - 1].from
  {
    forall pos: nat ensures In(Grown(merged, r), pos) <==> In(merged, pos) || r.from <= pos < r.to {
      GrownCovers(merged, r, pos);
    }
  }

  lemma MergeAppends(merged: seq<Range>, r: Range, size: nat)
    requires Proper(merged, size) && Separate(merged) && r.from < r.to <= size && r.from < MAX_INPUT
    requires merged == [] || merged[|merged| - 1].to < r.from
    ensures Proper(merged + [r], size) && Separate(merged + [r])
    ensures forall pos: nat :: In(merged + [r], pos) <==> In(merged, pos) || r.from <= pos < r.to
  {
    forall pos: nat ensures In(merged + [r], pos) <==> In(merged, pos) || r.from <= pos < r.to {
      InConcat(merged, [r], pos);
      InOne(r, pos);
    }
    if merged != [] {
      forall i | 0 <= i < |merged| ensures merged[i].to < r.from {
        if i < |merged| - 1 { assert merged[i].to < merged[|merged| - 1].from; }
      }
    }
  }

  lemma InPrefix(ranges: seq<Range>, n: nat)
    requires n < |ranges|
    ensures forall pos: nat ::
      In(ranges[..n + 1], pos) <==> In(ranges[..n], pos) || ranges[n].from <= pos < ranges[n].to
  {
    assert ranges[..n + 1] == ranges[..n] + [ranges[n]];
    forall pos: nat
      ensures In(ranges[..n + 1], pos) <==> In(ranges[..n], pos) || ranges[n].from <= pos < ranges[n].to
    {
      InConcat(ranges[..n], [ranges[n]], pos);
      InOne(ranges[n], pos);
    }
  }

  // Ranges sorted by start, merged where they overlap or touch.
  method Merge(ranges: seq<Range>, size: nat) returns (merged: seq<Range>)
    requires Proper(ranges, size) && SortedByStart(ranges)
    ensures Proper(merged, size) && Separate(merged)
    ensures forall pos: nat :: In(merged, pos) <==> In(ranges, pos)
  {
    merged := [];
    for n := 0 to |ranges|
      invariant Proper(merged, size) && Separate(merged)
      invariant n > 0 ==> merged != [] && merged[|merged| - 1].from <= ranges[n - 1].from
      invariant n == 0 ==> merged == []
      invariant forall pos: nat :: In(merged, pos) <==> In(ranges[..n], pos)
    {
      var r := ranges[n];
      assert n > 0 ==> ranges[n - 1].from <= r.from;
      InPrefix(ranges, n);
      if merged != [] && r.from <= merged[|merged| - 1].to {
        MergeGrows(merged, r, size);
        merged := Grown(merged, r);
      } else {
        MergeAppends(merged, r, size);
        merged := merged + [r];
      }
    }
    assert ranges[..|ranges|] == ranges;
  }

  // A position is in the ranges exactly if it lies in an occurrence, overlapping ones included, that
  // starts before the cut.
  method ConfiguredRanges(patterns: seq<Pattern>, size: nat) returns (merged: seq<Range>)
    requires forall k :: 0 <= k < |patterns| ==> Fits(patterns[k], size)
    ensures Proper(merged, size) && Separate(merged)
    ensures forall pos: nat :: In(merged, pos) <==> Covered(patterns, pos)
  {
    var ranges := AllMatches(patterns, size);
    SortMembers(ranges, size);
    SortKeeps(ranges);
    merged := Merge(Sort(ranges), size);
  }

  // ---- what is kept ----

  // Output before URL masking: a character of the input, or the placeholder of a masked range.
  datatype Item = Char(index: nat) | Placeholder

  function Slice(from: nat, to: nat): (items: seq<Item>)
    requires from <= to
    ensures |items| == to - from && forall i :: 0 <= i < |items| ==> items[i] == Char(from + i)
  {
    seq(to - from, i requires 0 <= i < to - from => Char(from + i))
  }

  // Characters appear in the order of the input.
  ghost predicate InOrder(items: seq<Item>) {
    forall i, j :: 0 <= i < j < |items| && items[i].Char? && items[j].Char? ==> items[i].index < items[j].index
  }

  // Exactly the characters below `limit` outside `ranges` are kept, in order.
  ghost predicate Keeps(items: seq<Item>, ranges: seq<Range>, limit: nat) {
    && InOrder(items)
    && forall i: nat :: Char(i) in items <==> i < limit && !In(ranges, i)
  }


  // No range reaches into the stretch.
  ghost predicate Clear(ranges: seq<Range>, from: nat, to: nat) {
    forall i :: from <= i < to ==> !In(ranges, i)
  }

  lemma {:induction false} CopyKeeps(items: seq<Item>, ranges: seq<Range>, pos: nat, to: nat)
    requires Keeps(items, ranges, pos) && pos <= to && Clear(ranges, pos, to)
    ensures Keeps(items + Slice(pos, to), ranges, to)
  {
    var more := Slice(pos, to);
    var all := items + more;
    forall i: nat ensures Char(i) in all <==> i < to && !In(ranges, i) {
      if pos <= i < to { assert more[i - pos] == Char(i); }
    }
    forall i, j | 0 <= i < j < |all| && all[i].Char? && all[j].Char? ensures all[i].index < all[j].index {
      if i < |items| <= j { assert Char(all[i].index) in items; }
    }
  }

  lemma {:induction false} SkipKeeps(items: seq<Item>, ranges: seq<Range>, pos: nat, to: nat)
    requires Keeps(items, ranges, pos) && pos <= to && forall i :: pos <= i < to ==> In(ranges, i)
    ensures Keeps(items + [Placeholder], ranges, to) && Keeps(items, ranges, to)
  {
    var all := items + [Placeholder];
    forall i: nat ensures Char(i) in all <==> Char(i) in items {}
  }

  // Between one range and the next nothing is covered.
  lemma {:induction false} Gap(ranges: seq<Range>, n: nat, pos: nat, to: nat)
    requires Separate(ranges) && n <= |ranges|
    requires forall k :: 0 <= k < n ==> ranges[k].to <= pos
    requires forall k :: n <= k < |ranges| ==> to <= ranges[k].from
    ensures Clear(ranges, pos, to)
  {
  }

  // ---- what the placeholders stand for ----

  function Placeholders(items: seq<Item>): nat {
    if items == [] then 0
    else Placeholders(items[..|items| - 1]) + if items[|items| - 1].Placeholder? then 1 else 0
  }

  // The items with the stretches of input put back for the placeholders, one each.
  function Restore(items: seq<Item>, stretches: seq<Range>): seq<Item>
    requires Placeholders(items) == |stretches| && forall r <- stretches :: r.from <= r.to
  {
    if items == [] then []
    else
      var front, last := items[..|items| - 1], items[|items| - 1];
      if last.Char? then Restore(front, stretches) + [last]
      else
        var r := stretches[|stretches| - 1];
        Restore(front, stretches[..|stretches| - 1]) + Slice(r.from, r.to)
  }

  function LastEnd(ranges: seq<Range>): nat {
    if ranges == [] then 0 else ranges[|ranges| - 1].to
  }

  // The ranges, and what cutTailAt cuts off behind the last of them.
  function Stretches(ranges: seq<Range>, size: nat, cutTail: Option<nat>): seq<Range> {
    var limit := Min(size, MAX_INPUT);
    if LastEnd(ranges) < limit && cutTail.Some?
    then ranges + [Range(Min(LastEnd(ranges) + cutTail.value, limit), limit)]
    else ranges
  }

  // The output is the input up to `to`, with a placeholder for each stretch, in order.
  ghost predicate StandsFor(items: seq<Item>, stretches: seq<Range>, to: nat) {
    && Placeholders(items) == |stretches| && (forall r <- stretches :: r.from <= r.to)
    && Restore(items, stretches) == Slice(0, to)
  }

  lemma {:induction false} CopyStands(items: seq<Item>, stretches: seq<Range>, from: nat, end: nat)
    requires StandsFor(items, stretches, from) && from <= end
    ensures StandsFor(items + Slice(from, end), stretches, end)
    decreases end
  {
    var all := items + Slice(from, end);
    if from == end {
      assert all == items;
    } else {
      CopyStands(items, stretches, from, end - 1);
      assert Slice(from, end) == Slice(from, end - 1) + [Char(end - 1)];
      assert all[..|all| - 1] == items + Slice(from, end - 1) && all[|all| - 1] == Char(end - 1);
      assert Slice(0, end) == Slice(0, end - 1) + [Char(end - 1)];
    }
  }

  lemma MarkStands(items: seq<Item>, stretches: seq<Range>, from: nat, to: nat)
    requires StandsFor(items, stretches, from) && from <= to
    ensures StandsFor(items + [Placeholder], stretches + [Range(from, to)], to)
  {
    var all, more := items + [Placeholder], stretches + [Range(from, to)];
    assert all[..|all| - 1] == items && more[..|more| - 1] == stretches;
    assert Slice(0, to) == Slice(0, from) + Slice(from, to);
  }

  // The first `n` ranges are masked, and all is handled up to `pos`.
  ghost predicate Masked(items: seq<Item>, ranges: seq<Range>, n: nat, pos: nat) {
    && n <= |ranges| && pos == LastEnd(ranges[..n])
    && Keeps(items, ranges, pos) && StandsFor(items, ranges[..n], pos)
  }

  lemma MaskKeeps(items: seq<Item>, ranges: seq<Range>, n: nat, pos: nat)
    requires Separate(ranges) && n < |ranges| && forall r <- ranges :: r.from <= r.to
    requires pos == LastEnd(ranges[..n]) && Keeps(items, ranges, pos)
    ensures pos <= ranges[n].from && Keeps(items + Slice(pos, ranges[n].from) + [Placeholder], ranges, ranges[n].to)
  {
    var r := ranges[n];
    assert r in ranges;
    forall k | 0 <= k < n ensures ranges[k].to <= pos {
      assert ranges[n - 1] in ranges && pos == ranges[n - 1].to;
      if k < n - 1 { assert ranges[k].to < ranges[n - 1].from; }
    }
    if n > 0 { assert ranges[n - 1].to < r.from; }
    forall k | n <= k < |ranges| ensures r.from <= ranges[k].from { if k > n { assert r.to < ranges[k].from; } }
    Gap(ranges, n, pos, r.from);
    CopyKeeps(items, ranges, pos, r.from);
    SkipKeeps(items + Slice(pos, r.from), ranges, r.from, r.to);
  }

  lemma MaskStep(items: seq<Item>, ranges: seq<Range>, n: nat, pos: nat)
    requires Separate(ranges) && n < |ranges| && (forall r <- ranges :: r.from <= r.to) && Masked(items, ranges, n, pos)
    ensures pos <= ranges[n].from
    ensures Masked(items + Slice(pos, ranges[n].from) + [Placeholder], ranges, n + 1, ranges[n].to)
  {
    var r := ranges[n];
    MaskKeeps(items, ranges, n, pos);
    CopyStands(items, ranges[..n], pos, r.from);
    MarkStands(items + Slice(pos, r.from), ranges[..n], r.from, r.to);
    assert ranges[..n + 1] == ranges[..n] + [Range(r.from, r.to)];
  }

  // Nothing is covered behind the last range.
  lemma TailKeeps(items: seq<Item>, ranges: seq<Range>, pos: nat, end: nat)
    requires Separate(ranges) && pos == LastEnd(ranges) <= end && Keeps(items, ranges, pos)
    requires forall r <- ranges :: r.from <= r.to
    ensures Keeps(items + Slice(pos, end), ranges, end) && Keeps(items + Slice(pos, end) + [Placeholder], ranges, end)
  {
    forall k | 0 <= k < |ranges| ensures ranges[k].to <= pos {
      assert ranges[|ranges| - 1] in ranges;
      if k < |ranges| - 1 { assert ranges[k].to < ranges[|ranges| - 1].from; }
    }
    Gap(ranges, |ranges|, pos, end);
    CopyKeeps(items, ranges, pos, end);
    SkipKeeps(items + Slice(pos, end), ranges, end, end);
  }

  ghost predicate MaskedAll(out: seq<Item>, limit: nat, ranges: seq<Range>, size: nat, cutTail: Option<nat>) {
    && limit <= Min(size, MAX_INPUT) && (cutTail.None? ==> limit == Min(size, MAX_INPUT))
    && Keeps(out, ranges, limit)
    && StandsFor(out, Stretches(ranges, size, cutTail), Max(LastEnd(ranges), Min(size, MAX_INPUT)))
  }

  // Where the text behind the last range is cut.
  function TailEnd(pos: nat, size: nat, cutTail: Option<nat>): nat {
    if cutTail.Some? then Min(pos + cutTail.value, Min(size, MAX_INPUT)) else Min(size, MAX_INPUT)
  }

  lemma TailStands(masked: seq<Item>, ranges: seq<Range>, pos: nat, size: nat, cutTail: Option<nat>)
    requires pos == LastEnd(ranges) < Min(size, MAX_INPUT) && StandsFor(masked, ranges, pos)
    ensures var kept := masked + Slice(pos, TailEnd(pos, size, cutTail));
      StandsFor(if cutTail.Some? then kept + [Placeholder] else kept, Stretches(ranges, size, cutTail),
        Min(size, MAX_INPUT))
  {
    var end := TailEnd(pos, size, cutTail);
    CopyStands(masked, ranges, pos, end);
    if cutTail.Some? { MarkStands(masked + Slice(pos, end), ranges, end, Min(size, MAX_INPUT)); }
  }

  lemma ReachedKeeps(masked: seq<Item>, ranges: seq<Range>, pos: nat, size: nat)
    requires Proper(ranges, size) && Min(size, MAX_INPUT) <= pos <= size && pos == LastEnd(ranges)
    requires Keeps(masked, ranges, pos)
    ensures Keeps(masked, ranges, Min(size, MAX_INPUT))
  {
    LastRangeReaches(ranges, pos, size);
    Shrink(masked, ranges, Min(size, MAX_INPUT), pos);
  }

  lemma TailMasked(masked: seq<Item>, ranges: seq<Range>, pos: nat, size: nat, cutTail: Option<nat>)
    requires Proper(ranges, size) && Separate(ranges) && pos < Min(size, MAX_INPUT)
    requires pos == LastEnd(ranges) && Keeps(masked, ranges, pos) && StandsFor(masked, ranges, pos)
    ensures var end := TailEnd(pos, size, cutTail);
      var kept := masked + Slice(pos, end);
      MaskedAll(if cutTail.Some? then kept + [Placeholder] else kept, end, ranges, size, cutTail)
  {
    TailKeeps(masked, ranges, pos, TailEnd(pos, size, cutTail));
    TailStands(masked, ranges, pos, size, cutTail);
  }

  lemma ReachedMasked(masked: seq<Item>, ranges: seq<Range>, pos: nat, size: nat)
    requires Proper(ranges, size) && Min(size, MAX_INPUT) <= pos <= size && pos == LastEnd(ranges)
    requires Keeps(masked, ranges, pos) && StandsFor(masked, ranges, pos)
    ensures MaskedAll(masked, Min(size, MAX_INPUT), ranges, size, None)
  {
    ReachedKeeps(masked, ranges, pos, size);
  }

  // ---- the start of a secret at the end of a cut text ----

  const MIN_PART := 4

  predicate UrlContext(s: string) { s != "" && s[|s| - 1] in {'/', '\\', '@', ':', '='} }

  predicate TokenChar(c: char) { 'a' <= c <= 'z' || 'A' <= c <= 'Z' || '0' <= c <= '9' }

  predicate HoldsDigit(s: string) { exists i :: 0 <= i < |s| && '0' <= s[i] <= '9' }

  // What cutTailAt is given: the tail, its lower case as the platform gives it, and what it looks for.
  datatype Tail = Tail(text: string, lower: string, prefixes: seq<string>, hostnames: set<string>, truncated: bool)

  // The tail ends in the first `length` characters of the part, not the whole of it.
  predicate EndsIn(t: Tail, part: string, length: nat) {
    && MIN_PART <= length < |part| && length <= |t.text| && length <= |t.lower|
    && t.lower[|t.lower| - length..] == part[..length]
  }

  // And that counts as a cut secret: any part but a hostname does, and a hostname's start in these cases.
  predicate CutSecret(t: Tail, part: string, length: nat) {
    EndsIn(t, part, length)
    && (part !in t.hostnames || t.truncated || UrlContext(t.text[..|t.text| - length])
        || TokenChar(part[length]) || HoldsDigit(part[..length]))
  }

  // The cut is before the longest cut secret the tail ends in, if it ends in any.
  ghost predicate CutFound(t: Tail, cut: Option<nat>) {
    && (forall part <- t.prefixes, length: nat :: CutSecret(t, part, length) ==>
          cut.Some? && cut.value <= |t.text| - length)
    && (cut.Some? ==> exists part <- t.prefixes, length: nat ::
          CutSecret(t, part, length) && cut.value == |t.text| - length)
  }

  // Letter case does not hide the start of a part.
  lemma CaseDoesNotMatter(t: Tail, u: Tail, part: string, length: nat)
    requires t.lower == u.lower && |t.text| == |u.text|
    ensures EndsIn(t, part, length) <==> EndsIn(u, part, length)
  {
  }

  // No start of a secret is left at the end: of a hostname that holds only where the text was cut there, since a word
  // may begin like one.
  lemma CutsEveryStart(t: Tail, cut: Option<nat>, part: string, length: nat)
    requires CutFound(t, cut) && part in t.prefixes && EndsIn(t, part, length)
    requires part !in t.hostnames || t.truncated
    ensures cut.Some? && cut.value <= |t.text| - length
  {
    assert CutSecret(t, part, length);
  }

  // In a whole text nothing is cut if all it ends in are starts of hostnames, with no address before them, no digit
  // in them, and no letter or digit of the name next.
  lemma KeepsWords(t: Tail, cut: Option<nat>)
    requires CutFound(t, cut) && !t.truncated
    requires forall part <- t.prefixes, length: nat :: EndsIn(t, part, length) ==>
      && part in t.hostnames && !UrlContext(t.text[..|t.text| - length])
      && !TokenChar(part[length]) && !HoldsDigit(part[..length])
    ensures cut.None?
  {
  }

  // The inner loop: the longest start of one part.
  method LongestCut(t: Tail, part: string) returns (found: Option<nat>)
    ensures found.Some? ==> CutSecret(t, part, found.value)
    ensures forall length: nat :: CutSecret(t, part, length) ==> found.Some? && length <= found.value
  {
    var length: int := Min(|part| - 1, |t.text|);
    while length >= MIN_PART
      invariant length <= Min(|part| - 1, |t.text|)
      invariant forall n: nat :: CutSecret(t, part, n) ==> n <= length
    {
      if CutSecret(t, part, length) {
        return Some(length);
      }
      length := length - 1;
    }
    return None;
  }

  method CutTailAt(t: Tail) returns (cut: Option<nat>)
    ensures CutFound(t, cut) && (cut.Some? ==> cut.value <= |t.text|)
  {
    cut := None;
    for k := 0 to |t.prefixes|
      invariant cut.Some? ==> cut.value <= |t.text|
      invariant CutFound(t.(prefixes := t.prefixes[..k]), cut)
    {
      var found := LongestCut(t, t.prefixes[k]);
      CutStep(t, k, cut, found);
      if found.Some? {
        var from := |t.text| - found.value;
        cut := Some(if cut.Some? then Min(cut.value, from) else from);
      }
    }
    assert t.prefixes[..|t.prefixes|] == t.prefixes;
  }

  lemma CutStep(t: Tail, k: nat, cut: Option<nat>, found: Option<nat>)
    requires k < |t.prefixes| && CutFound(t.(prefixes := t.prefixes[..k]), cut)
    requires found.Some? ==> CutSecret(t, t.prefixes[k], found.value)
    requires forall length: nat :: CutSecret(t, t.prefixes[k], length) ==> found.Some? && length <= found.value
    ensures var from := if found.Some? then |t.text| - found.value else 0;
      CutFound(t.(prefixes := t.prefixes[..k + 1]),
        if found.None? then cut else Some(if cut.Some? then Min(cut.value, from) else from))
  {
    var before, after := t.(prefixes := t.prefixes[..k]), t.(prefixes := t.prefixes[..k + 1]);
    assert after.prefixes == before.prefixes + [t.prefixes[k]];
    forall part, length: nat
      ensures CutSecret(after, part, length) == CutSecret(before, part, length) == CutSecret(t, part, length)
    {
    }
  }

  // The text behind the last range, and what cutTailAt finds in it.
  method MaskTail(masked: seq<Item>, ranges: seq<Range>, pos: nat, size: nat, tail: Tail)
    returns (out: seq<Item>, limit: nat, cut: Option<nat>)
    requires Proper(ranges, size) && Separate(ranges) && pos <= size
    requires pos == LastEnd(ranges) && Keeps(masked, ranges, pos) && StandsFor(masked, ranges, pos)
    ensures MaskedAll(out, limit, ranges, size, cut)
    ensures if pos < Min(size, MAX_INPUT) then CutFound(tail, cut) && limit == TailEnd(pos, size, cut) else cut.None?
  {
    if pos < Min(size, MAX_INPUT) {
      cut := CutTailAt(tail);
      limit := TailEnd(pos, size, cut);
      TailMasked(masked, ranges, pos, size, cut);
      out := if cut.Some? then masked + Slice(pos, limit) + [Placeholder] else masked + Slice(pos, limit);
    } else {
      ReachedMasked(masked, ranges, pos, size);
      out, limit, cut := masked, Min(size, MAX_INPUT), None;
    }
  }

  // What the closure is created with: the parts to look for at the end of a cut text, and the length of the longest
  // configured value. `lowerCase` is the platform's.
  datatype Secrets = Secrets(prefixes: seq<string>, hostnames: set<string>, longest: nat, lowerCase: string -> string)

  function Window(text: string, secrets: Secrets): string { text[..Min(|text|, MAX_INPUT + secrets.longest)] }

  // What is left of the window behind the last range.
  function TailOf(text: string, secrets: Secrets, ranges: seq<Range>): Tail {
    var window := Window(text, secrets);
    var to := Min(|window|, MAX_INPUT);
    var rest := if LastEnd(ranges) <= to then window[LastEnd(ranges)..to] else "";
    Tail(rest, secrets.lowerCase(rest), secrets.prefixes, secrets.hostnames, |text| > MAX_INPUT)
  }

  // The closure's loop: text outside the ranges is copied, each range becomes one placeholder, and the tail is cut
  // where a secret may begin. Exactly the characters before the cut that no range covers are kept, and putting the
  // ranges back for the placeholders gives the window back.
  method Mask(text: string, secrets: Secrets, ranges: seq<Range>) returns (out: seq<Item>, limit: nat, cut: Option<nat>)
    requires Proper(ranges, |Window(text, secrets)|) && Separate(ranges)
    ensures var size := |Window(text, secrets)|;
      && limit <= Min(size, MAX_INPUT) && Keeps(out, ranges, limit)
      && (cut.None? ==> limit == Min(size, MAX_INPUT))
      && StandsFor(out, Stretches(ranges, size, cut), Max(LastEnd(ranges), Min(size, MAX_INPUT)))
      && (if LastEnd(ranges) < Min(size, MAX_INPUT)
          then CutFound(TailOf(text, secrets, ranges), cut) && limit == TailEnd(LastEnd(ranges), size, cut)
          else cut.None?)
  {
    var window := Window(text, secrets);
    out := [];
    var pos: nat := 0;
    for n := 0 to |ranges|
      invariant pos <= |window| && Masked(out, ranges, n, pos)
    {
      MaskStep(out, ranges, n, pos);
      out := out + Slice(pos, ranges[n].from) + [Placeholder];
      pos := ranges[n].to;
    }
    assert ranges[..|ranges|] == ranges;
    out, limit, cut := MaskTail(out, ranges, pos, |window|, TailOf(text, secrets, ranges));
  }

  // When the last range reaches past the cut, it covers all from the cut to its end.
  lemma {:induction false} LastRangeReaches(ranges: seq<Range>, pos: nat, size: nat)
    requires Proper(ranges, size) && pos <= size && pos >= Min(size, MAX_INPUT)
    requires pos == if ranges == [] then 0 else ranges[|ranges| - 1].to
    ensures forall i :: Min(size, MAX_INPUT) <= i < pos ==> In(ranges, i)
  {
  }

  lemma {:induction false} Shrink(items: seq<Item>, ranges: seq<Range>, limit: nat, pos: nat)
    requires Keeps(items, ranges, pos) && limit <= pos && forall i :: limit <= i < pos ==> In(ranges, i)
    ensures Keeps(items, ranges, limit)
  {
  }

  // The loop over ranges computed from the patterns: a kept character is one no occurrence covers.
  method MaskConfigured(text: string, secrets: Secrets, patterns: seq<Pattern>)
    returns (out: seq<Item>, limit: nat, cut: Option<nat>)
    requires forall k :: 0 <= k < |patterns| ==> Fits(patterns[k], |Window(text, secrets)|)
    ensures limit <= Min(|text|, MAX_INPUT) && (cut.None? ==> limit == Min(|text|, MAX_INPUT))
    ensures InOrder(out)
    ensures forall i: nat :: Char(i) in out <==> i < limit && !Covered(patterns, i)
  {
    var ranges := ConfiguredRanges(patterns, |Window(text, secrets)|);
    out, limit, cut := Mask(text, secrets, ranges);
  }

  // ---- the final cut ----

  const RPC_URL := "[rpc-url]"
  const REDACTED_URL := "[redacted-url]"
  const REDACTED := "/[redacted]"
  const PLACEHOLDERS: seq<string> := [RPC_URL, REDACTED_URL, REDACTED]
  const MAX_OUTPUT := MAX_INPUT + |RPC_URL|

  ghost predicate Occurs(text: string, part: string, at: int) {
    0 <= at && at + |part| <= |text| && text[at..at + |part|] == part
  }

  // An occurrence with characters on both sides of the cut.
  ghost predicate Splits(text: string, part: string, cut: int) {
    exists at :: Occurs(text, part, at) && at < cut < at + |part|
  }

  // lastIndexOf: the last occurrence that starts at or before `from`, or -1.
  method LastIndexOf(text: string, part: string, from: nat) returns (at: int)
    requires from < |text|
    ensures at == -1 || (0 <= at <= from && Occurs(text, part, at))
    ensures forall i :: at < i <= from ==> !Occurs(text, part, i)
  {
    at := from;
    while at >= 0
      invariant -1 <= at <= from
      invariant forall i :: at < i <= from ==> !Occurs(text, part, i)
    {
      if at + |part| <= |text| && text[at..at + |part|] == part {
        return;
      }
      at := at - 1;
    }
  }

  lemma OccursAt(text: string, part: string, at: int, i: nat)
    requires Occurs(text, part, at) && i < |part|
    ensures text[at + i] == part[i]
  {
    assert text[at..at + |part|][i] == text[at + i];
  }

  // Two placeholders never overlap unless they are the same one.
  lemma {:induction false} PlaceholdersAreApart(text: string, p: string, a: int, q: string, b: int)
    requires p in PLACEHOLDERS && q in PLACEHOLDERS && Occurs(text, p, a) && Occurs(text, q, b)
    requires a < b
    ensures a + |p| <= b
  {
    if b < a + |p| {
      OccursAt(text, p, a, b - a);
      OccursAt(text, q, b, 0);
      // A placeholder starts with a bracket or a slash; inside another only the bracket of the third
      // is one, and what follows it there is no placeholder.
      assert p == REDACTED && b == a + 1 by { StartsInside(p, q, b - a); }
      var i := if q == RPC_URL then 2 else 9;
      OccursAt(text, p, a, i + 1);
      OccursAt(text, q, b, i);
    }
  }

  // Where the first character of a placeholder can appear inside one, past its start.
  lemma StartsInside(p: string, q: string, i: int)
    requires p in PLACEHOLDERS && q in PLACEHOLDERS && 0 < i < |p| && p[i] == q[0]
    ensures p == REDACTED && i == 1 && q[0] == '['
  {
  }

  // Stepping back for one placeholder: the new cut splits it no more.
  lemma {:induction false} StepBack(text: string, p: string, at: int, cut: nat)
    requires p in PLACEHOLDERS && 0 < cut < |text|
    requires at == -1 || (0 <= at < cut && Occurs(text, p, at))
    requires forall i :: at < i < cut ==> !Occurs(text, p, i)
    ensures Splits(text, p, cut) ==> at != -1 && at + |p| > cut
    ensures at != -1 && at + |p| > cut ==> forall q <- PLACEHOLDERS :: !Splits(text, q, at)
  {
    if Splits(text, p, cut) {
      var b :| Occurs(text, p, b) && b < cut < b + |p|;
    }
    if at != -1 && at + |p| > cut {
      forall q <- PLACEHOLDERS ensures !Splits(text, q, at) {
        if Splits(text, q, at) {
          var b :| Occurs(text, q, b) && b < at < b + |q|;
          PlaceholdersAreApart(text, q, b, p, at);
          assert false;
        }
      }
    }
  }

  // The result is a prefix within the bound that cuts no placeholder in two, and steps back by less
  // than the longest placeholder.
  method Bounded(out: string) returns (r: string)
    ensures r <= out && |r| <= MAX_OUTPUT
    ensures |out| <= MAX_OUTPUT ==> r == out
    ensures forall p <- PLACEHOLDERS :: !Splits(out, p, |r|)
    ensures |out| > MAX_OUTPUT ==> |r| > MAX_OUTPUT - |REDACTED_URL|
  {
    if |out| <= MAX_OUTPUT {
      return out;
    }
    var cut := MAX_OUTPUT;
    for k := 0 to |PLACEHOLDERS|
      invariant MAX_OUTPUT - |REDACTED_URL| < cut <= MAX_OUTPUT
      invariant forall j :: 0 <= j < k ==> !Splits(out, PLACEHOLDERS[j], cut)
      invariant cut != MAX_OUTPUT ==> forall q <- PLACEHOLDERS :: !Splits(out, q, cut)
    {
      var placeholder := PLACEHOLDERS[k];
      var at := LastIndexOf(out, placeholder, cut - 1);
      StepBack(out, placeholder, at, cut);
      if at != -1 && at + |placeholder| > cut {
        cut := at;
      }
    }
    return out[..cut];
  }
}
