/** Choosing the boundaries of subcompactions: candidate keys from the input files, the approximate
    size of each gap between neighbours, then a greedy grouping of the gaps. */
module SubcompactionBoundaries {
  import opened Options
  import opened Records
  import opened Compactions
  import opened IteratorSpec
  import opened Subcompactions

  /** The files of one input level. */
  datatype InputLevel = InputLevel(level: nat, files: seq<FileRange>)

  predicate Strict(keys: seq<Key>) {
    forall i, j | 0 <= i < j < |keys| :: keys[i] < keys[j]
  }

  /** The candidate keys that one level contributes. */
  function Candidates(l: InputLevel, outLevel: nat): seq<Key> {
    if l.files == [] then []
    else if l.level == 0 then BothEnds(l.files)
    else
      [l.files[0].smallest, l.files[|l.files| - 1].largest] +
      (if l.level == outLevel then Smallests(l.files[1..]) else [])
  }

  function BothEnds(files: seq<FileRange>): seq<Key> {
    if files == [] then []
    else BothEnds(files[..|files| - 1]) + [files[|files| - 1].smallest, files[|files| - 1].largest]
  }

  function Smallests(files: seq<FileRange>): seq<Key> {
    if files == [] then [] else Smallests(files[..|files| - 1]) + [files[|files| - 1].smallest]
  }

  function AllCandidates(levels: seq<InputLevel>, startLevel: nat, outLevel: nat): seq<Key> {
    if levels == [] then []
    else
      var l := levels[|levels| - 1];
      AllCandidates(levels[..|levels| - 1], startLevel, outLevel) +
      (if startLevel <= l.level <= outLevel then Candidates(l, outLevel) else [])
  }

  // ---- The candidates span the input

  /** Files of a level above 0 are ordered; neighbours may share one user key. */
  ghost predicate LevelOrdered(l: InputLevel) {
    && (forall i | 0 <= i < |l.files| :: l.files[i].smallest <= l.files[i].largest)
    && (l.level > 0 ==> forall i, j | 0 <= i < j < |l.files| :: l.files[i].largest <= l.files[j].smallest)
  }

  /** The keys lie between two of these. */
  ghost predicate Spans(keys: seq<Key>, f: FileRange) {
    exists a, b | a in keys && b in keys :: a <= f.smallest && f.largest <= b
  }

  /** The key is an end of one of the files. */
  ghost predicate IsEnd(files: seq<FileRange>, x: Key) {
    exists i | 0 <= i < |files| :: x == files[i].smallest || x == files[i].largest
  }

  lemma IsEndMore(files: seq<FileRange>, n: nat, x: Key)
    requires n <= |files| && IsEnd(files[..n], x)
    ensures IsEnd(files, x)
  {
    var i :| 0 <= i < n && (x == files[..n][i].smallest || x == files[..n][i].largest);
    assert files[..n][i] == files[i];
  }

  lemma {:induction false} BothEndsHas(files: seq<FileRange>, i: nat)
    requires i < |files|
    ensures files[i].smallest in BothEnds(files) && files[i].largest in BothEnds(files)
    decreases |files|
  {
    var n := |files| - 1;
    if i < n {
      BothEndsHas(files[..n], i);
    } else {
      assert BothEnds(files)[|BothEnds(files)| - 2] == files[n].smallest;
    }
  }

  lemma {:induction false} BothEndsOnly(files: seq<FileRange>, x: Key)
    requires x in BothEnds(files)
    ensures IsEnd(files, x)
    decreases |files|
  {
    var n := |files| - 1;
    if x in BothEnds(files[..n]) {
      BothEndsOnly(files[..n], x);
      IsEndMore(files, n, x);
    }
  }

  lemma {:induction false} SmallestsAre(files: seq<FileRange>)
    ensures forall x | x in Smallests(files) :: IsEnd(files, x)
    decreases |files|
  {
    if files != [] {
      var n := |files| - 1;
      SmallestsAre(files[..n]);
      forall x | x in Smallests(files[..n]) ensures IsEnd(files, x) {
        IsEndMore(files, n, x);
      }
    }
  }

  /** Each level's candidates are ends of its files, and all its files lie between two of them. */
  lemma LevelSpans(l: InputLevel, outLevel: nat)
    requires LevelOrdered(l)
    ensures forall i | 0 <= i < |l.files| :: Spans(Candidates(l, outLevel), l.files[i])
    ensures forall x | x in Candidates(l, outLevel) :: IsEnd(l.files, x)
  {
    if l.files != [] {
      if l.level == 0 {
        ZeroSpans(l.files);
      } else {
        DeepSpans(l, outLevel);
      }
    }
  }

  lemma ZeroSpans(files: seq<FileRange>)
    ensures forall i | 0 <= i < |files| :: Spans(BothEnds(files), files[i])
    ensures forall x | x in BothEnds(files) :: IsEnd(files, x)
  {
    hide BothEnds;
    forall i | 0 <= i < |files| ensures Spans(BothEnds(files), files[i]) {
      BothEndsHas(files, i);
    }
    forall x | x in BothEnds(files) ensures IsEnd(files, x) {
      BothEndsOnly(files, x);
    }
  }

  lemma DeepSpans(l: InputLevel, outLevel: nat)
    requires LevelOrdered(l) && l.files != [] && l.level > 0
    ensures forall i | 0 <= i < |l.files| :: Spans(Candidates(l, outLevel), l.files[i])
    ensures forall x | x in Candidates(l, outLevel) :: IsEnd(l.files, x)
  {
    hide Smallests;
    var keys := Candidates(l, outLevel);
    assert keys[0] in keys && keys[1] in keys;
    forall i | 0 <= i < |l.files| ensures Spans(keys, l.files[i]) {
      assert keys[0] <= l.files[i].smallest && l.files[i].largest <= keys[1];
    }
    SmallestsAre(l.files[1..]);
    forall x | x in keys ensures IsEnd(l.files, x) {
      if x in Smallests(l.files[1..]) {
        LaterEnd(l.files, x);
      }
    }
  }

  lemma LaterEnd(files: seq<FileRange>, x: Key)
    requires files != [] && IsEnd(files[1..], x)
    ensures IsEnd(files, x)
  {
    var i :| 0 <= i < |files| - 1 && (x == files[1..][i].smallest || x == files[1..][i].largest);
    assert files[1..][i] == files[i + 1];
  }

  /** File `f` is an input at one of the levels that give candidates. */
  ghost predicate IsInput(levels: seq<InputLevel>, startLevel: nat, outLevel: nat, f: FileRange) {
    exists l | 0 <= l < |levels| :: startLevel <= levels[l].level <= outLevel && f in levels[l].files
  }

  ghost predicate EndsInput(levels: seq<InputLevel>, startLevel: nat, outLevel: nat, x: Key) {
    exists f | IsInput(levels, startLevel, outLevel, f) :: x == f.smallest || x == f.largest
  }

  lemma {:induction false} CandidatesOfLevel(levels: seq<InputLevel>, startLevel: nat, outLevel: nat, j: nat)
    requires j < |levels| && startLevel <= levels[j].level <= outLevel
    ensures forall x | x in Candidates(levels[j], outLevel) :: x in AllCandidates(levels, startLevel, outLevel)
    decreases |levels|
  {
    hide Candidates;
    if j < |levels| - 1 {
      CandidatesOfLevel(levels[..|levels| - 1], startLevel, outLevel, j);
    }
  }

  lemma {:induction false} LevelOfCandidate(levels: seq<InputLevel>, startLevel: nat, outLevel: nat, x: Key)
    returns (j: nat)
    requires x in AllCandidates(levels, startLevel, outLevel)
    ensures j < |levels| && startLevel <= levels[j].level <= outLevel && x in Candidates(levels[j], outLevel)
    decreases |levels|
  {
    hide Candidates;
    var n := |levels| - 1;
    if x in AllCandidates(levels[..n], startLevel, outLevel) {
      j := LevelOfCandidate(levels[..n], startLevel, outLevel, x);
    } else {
      j := n;
    }
  }

  lemma InputBetween(levels: seq<InputLevel>, startLevel: nat, outLevel: nat, f: FileRange)
    requires forall l | 0 <= l < |levels| :: LevelOrdered(levels[l])
    requires IsInput(levels, startLevel, outLevel, f)
    ensures Spans(AllCandidates(levels, startLevel, outLevel), f)
  {
    hide Candidates, LevelOrdered, AllCandidates;
    var j :| 0 <= j < |levels| && startLevel <= levels[j].level <= outLevel && f in levels[j].files;
    LevelSpans(levels[j], outLevel);
    CandidatesOfLevel(levels, startLevel, outLevel, j);
    var i :| 0 <= i < |levels[j].files| && levels[j].files[i] == f;
    assert Spans(Candidates(levels[j], outLevel), levels[j].files[i]);
    var a, b :| a in Candidates(levels[j], outLevel) && b in Candidates(levels[j], outLevel) && a <= f.smallest
      && f.largest <= b;
    assert a in AllCandidates(levels, startLevel, outLevel) && b in AllCandidates(levels, startLevel, outLevel);
  }

  lemma CandidateIsEnd(levels: seq<InputLevel>, startLevel: nat, outLevel: nat, x: Key)
    requires forall l | 0 <= l < |levels| :: LevelOrdered(levels[l])
    requires x in AllCandidates(levels, startLevel, outLevel)
    ensures EndsInput(levels, startLevel, outLevel, x)
  {
    hide Candidates, LevelOrdered, AllCandidates;
    var j := LevelOfCandidate(levels, startLevel, outLevel, x);
    LevelSpans(levels[j], outLevel);
    assert IsEnd(levels[j].files, x);
    var i :| 0 <= i < |levels[j].files| && (x == levels[j].files[i].smallest || x == levels[j].files[i].largest);
    assert IsInput(levels, startLevel, outLevel, levels[j].files[i]);
  }

  /** So the least and the greatest bound are the ends of the whole input. */
  lemma BoundsAreEnds(levels: seq<InputLevel>, startLevel: nat, outLevel: nat, bounds: seq<Key>)
    requires forall l | 0 <= l < |levels| :: LevelOrdered(levels[l])
    requires Strict(bounds) && bounds != []
    requires forall x :: x in bounds <==> x in AllCandidates(levels, startLevel, outLevel)
    ensures forall f | IsInput(levels, startLevel, outLevel, f) ::
              bounds[0] <= f.smallest && f.largest <= bounds[|bounds| - 1]
    ensures EndsInput(levels, startLevel, outLevel, bounds[0])
    ensures EndsInput(levels, startLevel, outLevel, bounds[|bounds| - 1])
  {
    hide AllCandidates, IsInput, EndsInput, LevelOrdered;
    var n := |bounds| - 1;
    assert bounds[0] in bounds && bounds[n] in bounds;
    CandidateIsEnd(levels, startLevel, outLevel, bounds[0]);
    CandidateIsEnd(levels, startLevel, outLevel, bounds[n]);
    forall f | IsInput(levels, startLevel, outLevel, f) ensures bounds[0] <= f.smallest && f.largest <= bounds[n] {
      InputBetween(levels, startLevel, outLevel, f);
      var a, b :| a in AllCandidates(levels, startLevel, outLevel) && b in AllCandidates(levels, startLevel, outLevel)
                  && a <= f.smallest && f.largest <= b;
      assert a in bounds && b in bounds;
    }
  }

  /** Sorting and removing duplicates, one key at a time. */
  function Insert(sorted: seq<Key>, k: Key): (r: seq<Key>)
    requires Strict(sorted)
    ensures Strict(r)
    ensures forall x :: x in r <==> x in sorted || x == k
  {
    if sorted == [] then [k]
    else if k < sorted[0] then [k] + sorted
    else if k == sorted[0] then sorted
    else
      var r := Insert(sorted[1..], k);
      assert forall x :: x in sorted <==> x == sorted[0] || x in sorted[1..];
      assert forall i | 0 <= i < |sorted[1..]| :: sorted[0] < sorted[1..][i];
      assert forall x | x in r :: sorted[0] < x;
      FrontStrict(sorted[0], r);
      [sorted[0]] + r
  }

  lemma FrontStrict(k: Key, keys: seq<Key>)
    requires Strict(keys) && forall x | x in keys :: k < x
    ensures Strict([k] + keys)
  {
    forall i | 0 <= i < |keys| ensures k < keys[i] {
      assert keys[i] in keys;
    }
  }

  /** The same keys, strictly increasing. */
  function SortUnique(keys: seq<Key>): (r: seq<Key>)
    ensures Strict(r)
    ensures forall x :: x in r <==> x in keys
  {
    if keys == [] then []
    else
      assert forall x :: x in keys <==> x == keys[0] || x in keys[1..];
      Insert(SortUnique(keys[1..]), keys[0])
  }

  function Sum(xs: seq<nat>): nat {
    if xs == [] then 0 else Sum(xs[..|xs| - 1]) + xs[|xs| - 1]
  }

  lemma SumAdd(xs: seq<nat>, x: nat)
    ensures Sum(xs + [x]) == Sum(xs) + x
  {
    assert (xs + [x])[..|xs|] == xs;
  }

  lemma SumExtend(xs: seq<nat>, lo: nat, i: nat)
    requires lo <= i < |xs|
    ensures Sum(xs[lo..i + 1]) == Sum(xs[lo..i]) + xs[i]
  {
    assert xs[lo..i + 1] == xs[lo..i] + [xs[i]];
    SumAdd(xs[lo..i], xs[i]);
  }

  function Ceil(x: real): int {
    if x.Floor as real == x then x.Floor else x.Floor + 1
  }

  function Min3(a: int, b: int, c: int): int {
    if a <= b && a <= c then a else if b <= c then b else c
  }

  /** A key that may become a boundary: an end of a file of level 0, an outer end of another input level, or the start
      of a file of the output level. */
  ghost predicate IsCandidate(levels: seq<InputLevel>, startLevel: nat, outLevel: nat, x: Key) {
    exists l | 0 <= l < |levels| :: startLevel <= levels[l].level <= outLevel && LevelCandidate(levels[l], outLevel, x)
  }

  ghost predicate LevelCandidate(l: InputLevel, outLevel: nat, x: Key) {
    && l.files != []
    && if l.level == 0 then exists f | f in l.files :: x == f.smallest || x == f.largest
       else
         || x == l.files[0].smallest || x == l.files[|l.files| - 1].largest
         || (l.level == outLevel && exists f | f in l.files :: x == f.smallest)
  }

  lemma {:induction false} EndsAre(files: seq<FileRange>, x: Key)
    ensures x in BothEnds(files) <==> exists f | f in files :: x == f.smallest || x == f.largest
    ensures x in Smallests(files) <==> exists f | f in files :: x == f.smallest
    decreases |files|
  {
    if files != [] {
      var n := |files| - 1;
      EndsAre(files[..n], x);
      assert files == files[..n] + [files[n]];
    }
  }

  lemma LevelCandidatesAre(l: InputLevel, outLevel: nat, x: Key)
    ensures x in Candidates(l, outLevel) <==> LevelCandidate(l, outLevel, x)
  {
    if l.files != [] {
      EndsAre(l.files, x);
      EndsAre(l.files[1..], x);
      assert l.files == [l.files[0]] + l.files[1..];
    }
  }

  lemma {:induction false} CandidatesAre(levels: seq<InputLevel>, startLevel: nat, outLevel: nat, x: Key)
    ensures x in AllCandidates(levels, startLevel, outLevel) <==> IsCandidate(levels, startLevel, outLevel, x)
    decreases |levels|
  {
    hide Candidates, LevelCandidate;
    if levels != [] {
      var n := |levels| - 1;
      CandidatesAre(levels[..n], startLevel, outLevel, x);
      LevelCandidatesAre(levels[n], outLevel, x);
    }
  }

  /** The first loop: keys of certain input files. */
  method CollectBounds(levels: seq<InputLevel>, startLevel: nat, outLevel: nat) returns (bounds: seq<Key>)
    ensures bounds == AllCandidates(levels, startLevel, outLevel)
  {
    bounds := [];
    for idx := 0 to |levels|
      invariant bounds == AllCandidates(levels[..idx], startLevel, outLevel)
    {
      assert levels[..idx + 1][..idx] == levels[..idx];
      var l := levels[idx];
      if startLevel <= l.level <= outLevel {
        var more := LevelBounds(l, outLevel);
        bounds := bounds + more;
      }
    }
    assert levels[..|levels|] == levels;
  }

  lemma SmallestsNone()
    ensures Smallests([]) == []
  {
  }

  lemma SmallestsNext(files: seq<FileRange>, i: nat)
    requires 1 <= i < |files|
    ensures Smallests(files[1..i + 1]) == Smallests(files[1..i]) + [files[i].smallest]
  {
    var more := files[1..i + 1];
    assert more[..|more| - 1] == files[1..i];
  }

  /** What one turn of it adds. */
  method LevelBounds(l: InputLevel, outLevel: nat) returns (bounds: seq<Key>)
    ensures bounds == Candidates(l, outLevel)
  {
    hide Smallests;
    bounds := [];
    SmallestsNone();
    var numFiles := |l.files|;
    if numFiles == 0 {
      return;
    }
    if l.level == 0 {
      for i := 0 to numFiles
        invariant bounds == BothEnds(l.files[..i])
      {
        assert l.files[..i + 1][..i] == l.files[..i];
        bounds := bounds + [l.files[i].smallest, l.files[i].largest];
      }
      assert l.files[..numFiles] == l.files;
    } else {
      bounds := [l.files[0].smallest, l.files[numFiles - 1].largest];
      if l.level == outLevel {
        ghost var head := bounds;
        assert l.files[1..1] == [] && bounds == head + [];
        for i := 1 to numFiles
          invariant bounds == head + Smallests(l.files[1..i])
        {
          SmallestsNext(l.files, i);
          bounds := bounds + [l.files[i].smallest];
        }
        assert l.files[1..numFiles] == l.files[1..];
      }
    }
  }

  /** Boundary `g` is the bound at index `cuts[g]`, and size `g` sums the gaps since the cut before. */
  ghost predicate Grouping(bounds: seq<Key>, gaps: seq<nat>, cuts: seq<nat>, boundaries: seq<Key>, sizes: seq<nat>) {
    && |cuts| == |boundaries| == |sizes|
    && (forall g, h | 0 <= g < h < |cuts| :: cuts[g] < cuts[h])
    && (forall g | 0 <= g < |cuts| :: 0 < cuts[g] < |bounds| && boundaries[g] == bounds[cuts[g]])
    && (forall g {:trigger sizes[g]} | 0 <= g < |cuts| ::
          CutBefore(cuts, g) <= cuts[g] <= |gaps| && sizes[g] == Sum(gaps[CutBefore(cuts, g)..cuts[g]]))
  }

  function CutBefore(cuts: seq<nat>, g: nat): nat
    requires g <= |cuts|
  {
    if g == 0 then 0 else cuts[g - 1]
  }

  lemma GroupingAdd(bounds: seq<Key>, gaps: seq<nat>, cuts: seq<nat>, boundaries: seq<Key>, sizes: seq<nat>, cut: nat)
    requires Grouping(bounds, gaps, cuts, boundaries, sizes)
    requires CutBefore(cuts, |cuts|) < cut < |bounds| && cut <= |gaps|
    ensures Grouping(bounds, gaps, cuts + [cut], boundaries + [bounds[cut]],
                     sizes + [Sum(gaps[CutBefore(cuts, |cuts|)..cut])])
  {
    hide Sum;
    var cuts' := cuts + [cut];
    forall g | 0 <= g < |cuts'| ensures CutBefore(cuts', g) == CutBefore(cuts, g) {
      assert g > 0 ==> cuts'[g - 1] == cuts[g - 1];
    }
    forall g | 0 <= g < |cuts| ensures cuts[g] < cut {
      assert cuts[g] <= cuts[|cuts| - 1];
    }
  }

  lemma GroupingInside(bounds: seq<Key>, gaps: seq<nat>, cuts: seq<nat>, boundaries: seq<Key>, sizes: seq<nat>)
    requires Strict(bounds) && Grouping(bounds, gaps, cuts, boundaries, sizes)
    requires CutBefore(cuts, |cuts|) < |bounds| - 1
    ensures Increasing(boundaries, None)
    ensures forall g | 0 <= g < |boundaries| ::
              boundaries[g] in bounds && bounds[0] < boundaries[g] < bounds[|bounds| - 1]
  {
    hide Sum;
    forall g | 0 <= g < |boundaries|
      ensures boundaries[g] in bounds && bounds[0] < boundaries[g] < bounds[|bounds| - 1]
    {
      assert cuts[g] <= cuts[|cuts| - 1];
    }
  }

  /** The gaps from one cut to the next reach the mean with the last one and not before. */
  ghost predicate JustReaches(gaps: seq<nat>, from: nat, to: nat, mean: real) {
    from < to <= |gaps| && Sum(gaps[from..to - 1]) as real < mean <= Sum(gaps[from..to]) as real
  }

  ghost predicate Closed(gaps: seq<nat>, cuts: seq<nat>, mean: real) {
    forall g | 0 <= g < |cuts| :: JustReaches(gaps, CutBefore(cuts, g), cuts[g], mean)
  }

  /** Every closed group just reaches the mean; there are `count` groups, or the gaps that are left over, without the
      last one, do not reach it. */
  ghost predicate Balanced(gaps: seq<nat>, cuts: seq<nat>, count: nat, mean: real) {
    && Closed(gaps, cuts, mean) && CutBefore(cuts, |cuts|) < |gaps| && |cuts| + 1 <= count
    && (|cuts| + 1 == count || Sum(gaps[CutBefore(cuts, |cuts|)..|gaps| - 1]) as real < mean)
  }

  lemma ClosedAdd(gaps: seq<nat>, cuts: seq<nat>, mean: real, cut: nat)
    requires Closed(gaps, cuts, mean) && JustReaches(gaps, CutBefore(cuts, |cuts|), cut, mean)
    ensures Closed(gaps, cuts + [cut], mean)
  {
    hide JustReaches;
    var cuts' := cuts + [cut];
    forall g | 0 <= g < |cuts'| ensures CutBefore(cuts', g) == CutBefore(cuts, g) {
      assert g > 0 ==> cuts'[g - 1] == cuts[g - 1];
    }
  }

  /** The greedy loop. It closes a group when the running sum reaches the mean, and leaves the last
      group open to the end. */
  method GroupRanges(bounds: seq<Key>, gaps: seq<nat>, subcompactions: nat, mean: real)
    returns (boundaries: seq<Key>, sizes: seq<nat>, ghost cuts: seq<nat>)
    requires |gaps| >= 1 && |bounds| == |gaps| + 1 && subcompactions > 1 && Strict(bounds) && mean > 0.0
    ensures |sizes| == |boundaries| + 1 <= subcompactions
    ensures Grouping(bounds, gaps, cuts, boundaries, sizes[..|boundaries|])
    ensures |cuts| == |boundaries| && CutBefore(cuts, |cuts|) < |gaps|
    ensures sizes[|boundaries|] == Sum(gaps[CutBefore(cuts, |cuts|)..])
    ensures Sum(sizes) == Sum(gaps)
    ensures Balanced(gaps, cuts, subcompactions, mean)
  {
    hide Sum, Grouping, Closed;
    boundaries, sizes, cuts := [], [], [];
    var left := subcompactions;
    var sum := 0;
    var n := |gaps|;
    SumStart(bounds, gaps);
    NoneClosed(gaps, mean);
    for i := 0 to n - 1
      invariant |cuts| == |boundaries| == |sizes| && Grouping(bounds, gaps, cuts, boundaries, sizes)
      invariant left + |boundaries| == subcompactions && left >= 1
      invariant CutBefore(cuts, |cuts|) <= i
      invariant sum == Sum(gaps[CutBefore(cuts, |cuts|)..i])
      invariant Sum(sizes) + sum == Sum(gaps[..i])
      invariant Closed(gaps, cuts, mean) && (left == 1 || sum as real < mean)
    {
      SumExtend(gaps, CutBefore(cuts, |cuts|), i);
      SumExtend(gaps, 0, i);
      assert gaps[0..i] == gaps[..i] && gaps[0..i + 1] == gaps[..i + 1];
      sum := sum + gaps[i];
      if left == 1 {
        continue;
      }
      if sum as real >= mean {
        ClosedAdd(gaps, cuts, mean, i + 1);
        GroupingAdd(bounds, gaps, cuts, boundaries, sizes, i + 1);
        SumAdd(sizes, sum);
        boundaries := boundaries + [bounds[i + 1]];
        sizes := sizes + [sum];
        cuts := cuts + [i + 1];
        left := left - 1;
        sum := 0;
        SumStart(bounds, gaps);
        assert gaps[i + 1..i + 1] == [];
      }
    }
    SumExtend(gaps, CutBefore(cuts, |cuts|), n - 1);
    SumExtend(gaps, 0, n - 1);
    assert gaps[0..n - 1] == gaps[..n - 1] && gaps[0..n] == gaps;
    assert gaps[CutBefore(cuts, |cuts|)..n] == gaps[CutBefore(cuts, |cuts|)..];
    var last := sum + gaps[n - 1];
    SumAdd(sizes, last);
    assert (sizes + [last])[..|boundaries|] == sizes;
    sizes := sizes + [last];
  }

  lemma NoneClosed(gaps: seq<nat>, mean: real)
    ensures Closed(gaps, [], mean)
  {
  }

  lemma SumStart(bounds: seq<Key>, gaps: seq<nat>)
    ensures Grouping(bounds, gaps, [], [], []) && Sum([]) == 0 && gaps[..0] == []
  {
  }

  /** The least of the number of gaps, the number of subcompactions allowed, and the files that output at a fill of four
      fifths needs: `needed` files, rounded up. */
  ghost predicate IsCount(gaps: seq<nat>, maxSubcompactions: nat, maxFileSize: nat, count: nat)
    requires maxFileSize > 0
  {
    var needed := Sum(gaps) as real / 0.8 / maxFileSize as real;
    && count <= |gaps| && count <= maxSubcompactions && count as real < needed + 1.0
    && (count == |gaps| || count == maxSubcompactions || needed <= count as real)
  }

  lemma CountIs(gaps: seq<nat>, sum: nat, maxSubcompactions: nat, maxFileSize: nat, n: int)
    requires sum == Sum(gaps) && maxFileSize > 0
    requires n == Min3(|gaps|, maxSubcompactions, Ceil(sum as real / (4.0 / 5.0) / maxFileSize as real))
    ensures n >= 0 && IsCount(gaps, maxSubcompactions, maxFileSize, n) && (n > 1 ==> sum > 0)
  {
    var x := sum as real / (4.0 / 5.0) / maxFileSize as real;
    assert x >= 0.0;
    assert sum == 0 ==> x == 0.0;
  }

  /** Boundaries are strictly increasing keys strictly inside the input, one fewer than the sizes;
      together the sizes are the size of the whole input. */
  method GenSubcompactionBoundaries(
      levels: seq<InputLevel>, startLevel: nat, outLevel: nat, approximateSize: (Key, Key) -> nat,
      maxSubcompactions: nat, maxFileSize: nat)
    returns (boundaries: seq<Key>, sizes: seq<nat>, ghost bounds: seq<Key>, ghost gaps: seq<nat>, ghost cuts: seq<nat>,
      ghost count: nat)
    requires AllCandidates(levels, startLevel, outLevel) != [] && maxFileSize > 0
    ensures IsCount(gaps, maxSubcompactions, maxFileSize, count)
    ensures count <= 1 ==> boundaries == []
    ensures count > 1 ==>
              && |cuts| == |boundaries| && |sizes| == |boundaries| + 1
              && Balanced(gaps, cuts, count, Sum(gaps) as real / count as real)
              && Grouping(bounds, gaps, cuts, boundaries, sizes[..|boundaries|])
              && sizes[|boundaries|] == Sum(gaps[CutBefore(cuts, |cuts|)..])
    ensures Strict(bounds) && bounds != []
    ensures forall x :: x in bounds <==> IsCandidate(levels, startLevel, outLevel, x)
    ensures |gaps| == |bounds| - 1 && forall i | 0 <= i < |gaps| :: gaps[i] == approximateSize(bounds[i], bounds[i + 1])
    ensures Increasing(boundaries, None)
    ensures forall g | 0 <= g < |boundaries| ::
              boundaries[g] in bounds && bounds[0] < boundaries[g] < bounds[|bounds| - 1]
    ensures |sizes| == |boundaries| + 1
    ensures |boundaries| == 0 || |sizes| <= maxSubcompactions
    ensures Sum(sizes) == Sum(gaps)
    ensures (forall l | 0 <= l < |levels| :: LevelOrdered(levels[l])) ==>
              forall f | IsInput(levels, startLevel, outLevel, f) ::
                bounds[0] <= f.smallest && f.largest <= bounds[|bounds| - 1]
  {
    hide LevelOrdered, IsInput, IsCandidate, Sum, AllCandidates, Grouping, Balanced;
    var candidates := CollectBounds(levels, startLevel, outLevel);
    var keys := SortUnique(candidates);
    assert candidates[0] in keys;
    forall x ensures x in candidates <==> IsCandidate(levels, startLevel, outLevel, x) {
      CandidatesAre(levels, startLevel, outLevel, x);
    }
    var sum, ranges := RangeSizes(keys, approximateSize);
    bounds, gaps := keys, ranges;
    if forall l | 0 <= l < |levels| :: LevelOrdered(levels[l]) {
      BoundsAreEnds(levels, startLevel, outLevel, bounds);
    }
    var maxOutputFiles := Ceil(sum as real / (4.0 / 5.0) / maxFileSize as real);
    var subcompactions := Min3(|ranges|, maxSubcompactions, maxOutputFiles);
    count := subcompactions;
    cuts := [];
    CountIs(ranges, sum, maxSubcompactions, maxFileSize, subcompactions);
    if subcompactions > 1 {
      var mean := sum as real * 1.0 / subcompactions as real;
      boundaries, sizes, cuts := GroupRanges(keys, ranges, subcompactions, mean);
      GroupingInside(keys, ranges, cuts, boundaries, sizes[..|boundaries|]);
    } else {
      boundaries, sizes := [], [sum];
      SumAdd([], sum);
      SumStart(keys, ranges);
      assert [] + [sum] == [sum];
    }
  }

  /** Approximate size of each gap between neighbouring bounds, and the total. */
  method RangeSizes(bounds: seq<Key>, approximateSize: (Key, Key) -> nat) returns (sum: nat, gaps: seq<nat>)
    requires bounds != []
    ensures |gaps| == |bounds| - 1 && sum == Sum(gaps)
    ensures forall i | 0 <= i < |gaps| :: gaps[i] == approximateSize(bounds[i], bounds[i + 1])
  {
    sum, gaps := 0, [];
    for i := 0 to |bounds| - 1
      invariant |gaps| == i && sum == Sum(gaps)
      invariant forall j | 0 <= j < i :: gaps[j] == approximateSize(bounds[j], bounds[j + 1])
    {
      var size := approximateSize(bounds[i], bounds[i + 1]);
      SumAdd(gaps, size);
      gaps := gaps + [size];
      sum := sum + size;
    }
  }

  /** Key range of one subcompaction, `start` inclusive and `end` exclusive. */
  datatype SubcompactionState = SubcompactionState(start: Option<Key>, end: Option<Key>, approxSize: nat)

  function StateAt(boundaries: seq<Key>, sizes: seq<nat>, i: nat): SubcompactionState
    requires |sizes| == |boundaries| + 1 && i < |sizes|
  {
    SubcompactionState(
      if i == 0 then None else Some(boundaries[i - 1]),
      if i == |boundaries| then None else Some(boundaries[i]),
      sizes[i])
  }

  /** The ranges tile the keys: the first has no start, the last no end, each ends where the next begins. */
  method Prepare(boundaries: seq<Key>, sizes: seq<nat>) returns (states: seq<SubcompactionState>)
    requires |sizes| == |boundaries| + 1
    ensures |states| == |sizes|
    ensures states[0].start == None && states[|boundaries|].end == None
    ensures forall i | 0 <= i < |boundaries| :: states[i].end == states[i + 1].start == Some(boundaries[i])
    ensures forall i | 0 <= i < |states| :: states[i].approxSize == sizes[i]
  {
    states := [];
    for i := 0 to |boundaries| + 1
      invariant |states| == i
      invariant forall j | 0 <= j < i :: states[j] == StateAt(boundaries, sizes, j)
    {
      states := states + [StateAt(boundaries, sizes, i)];
    }
  }

  /** A whole split job: every subcompaction runs over its own range. */
  method RunSplitJob(c: Config, input: seq<Record>, boundaries: seq<Key>) returns (out: seq<Record>)
    requires c.Valid() && Sorted(input) && Increasing(boundaries, None)
    ensures out == PartsFrom(c, input, boundaries, None)
    ensures DeletesSettled(c, input) ==> out == Compact(c, input)
  {
    hide Part, Sorted, Compact, Increasing;
    out := [];
    var i := 0;
    assert boundaries[0..] == boundaries;
    while i < |boundaries|
      invariant 0 <= i <= |boundaries|
      invariant PartsFrom(c, input, boundaries, None) ==
                out + PartsFrom(c, input, boundaries[i..], Before(boundaries, i))
    {
      OrderedEnds(boundaries, i);
      var part := ProcessKeyValueCompaction(c, input, Before(boundaries, i), Some(boundaries[i]));
      PartsStep(c, input, boundaries, i);
      JoinAssoc(out, part, PartsFrom(c, input, boundaries[i + 1..], Before(boundaries, i + 1)));
      out := out + part;
      i := i + 1;
    }
    var part := ProcessKeyValueCompaction(c, input, Before(boundaries, i), None);
    out := out + part;
    if DeletesSettled(c, input) {
      SplitIsInvisible(c, input, boundaries);
    }
  }

  /** Where subcompaction `i` starts. */
  function Before(boundaries: seq<Key>, i: nat): Option<Key>
    requires i <= |boundaries|
  {
    if i == 0 then None else Some(boundaries[i - 1])
  }

  lemma OrderedEnds(boundaries: seq<Key>, i: nat)
    requires Increasing(boundaries, None) && i < |boundaries|
    ensures RangeOrdered(Before(boundaries, i), Some(boundaries[i]))
  {
  }

  lemma PartsStep(c: Config, input: seq<Record>, boundaries: seq<Key>, i: nat)
    requires i < |boundaries|
    ensures PartsFrom(c, input, boundaries[i..], Before(boundaries, i)) ==
            Part(c, input, Before(boundaries, i), Some(boundaries[i])) +
            PartsFrom(c, input, boundaries[i + 1..], Before(boundaries, i + 1))
  {
    hide Part;
    assert boundaries[i..][0] == boundaries[i] && boundaries[i..][1..] == boundaries[i + 1..];
  }

  lemma JoinAssoc(a: seq<Record>, b: seq<Record>, c: seq<Record>)
    ensures a + (b + c) == (a + b) + c
  {
  }
}
