/** Files of one level, and the searches over them that pick compaction inputs. */
module LevelFiles {

  type Key = int

  datatype File = File(number: nat, smallest: Key, largest: Key, size: nat)

  /** Level 0 holds the newest file first; files of another level are in key order. */
  type Levels = seq<seq<File>>

  predicate RangesOk(files: seq<File>) {
    forall i | 0 <= i < |files| :: files[i].smallest <= files[i].largest
  }

  /** Files in key order; neighbours may share a boundary key. */
  predicate Sorted(files: seq<File>) {
    RangesOk(files) && forall i, j | 0 <= i < j < |files| :: files[i].largest <= files[j].smallest
  }

  predicate Overlaps(f: File, lo: Key, hi: Key) {
    f.smallest <= hi && f.largest >= lo
  }

  /** Exactly the files at positions `a` to `b` meet the interval. */
  ghost predicate OverlapRange(files: seq<File>, lo: Key, hi: Key, a: nat, b: nat) {
    a <= b <= |files| && forall i | 0 <= i < |files| :: Overlaps(files[i], lo, hi) <==> a <= i < b
  }

  // ---- Levels above 0

  /** Binary search for one file that meets the interval. */
  method FindOverlap(files: seq<File>, lo: Key, hi: Key) returns (found: bool, mid: nat)
    requires Sorted(files) && lo <= hi
    ensures found ==> mid < |files| && Overlaps(files[mid], lo, hi)
    ensures !found ==> forall i | 0 <= i < |files| :: !Overlaps(files[i], lo, hi)
  {
    var min, max: int := 0, |files| - 1;
    mid := 0;
    while min <= max
      invariant 0 <= min <= |files| && -1 <= max < |files|
      invariant forall i | 0 <= i < min && i < |files| :: files[i].largest < lo
      invariant forall i | max < i < |files| && 0 <= i :: files[i].smallest > hi
      decreases max - min + 1
    {
      mid := (min + max) / 2;
      if files[mid].largest < lo {
        min := mid + 1;
      } else if hi < files[mid].smallest {
        max := mid - 1;
      } else {
        return true, mid;
      }
    }
    found := false;
  }

  /** From one file that meets the interval backwards and forwards to all of them. */
  method ExtendRange(files: seq<File>, lo: Key, hi: Key, mid: nat) returns (a: nat, b: nat)
    requires Sorted(files) && lo <= hi && mid < |files| && Overlaps(files[mid], lo, hi)
    ensures OverlapRange(files, lo, hi, a, b) && a <= mid < b
  {
    a := mid;
    while a > 0 && files[a - 1].largest >= lo
      invariant a <= mid && forall i | a <= i <= mid :: files[i].largest >= lo
    {
      a := a - 1;
    }
    b := mid + 1;
    while b < |files| && files[b].smallest <= hi
      invariant mid < b <= |files| && forall i | mid <= i < b :: files[i].smallest <= hi
    {
      b := b + 1;
    }
  }

  /** All files of a level above 0 that meet the interval. A hint names one of them, if known. */
  method GetOverlapping(files: seq<File>, lo: Key, hi: Key, hint: int) returns (a: nat, b: nat)
    requires Sorted(files) && lo <= hi
    requires hint != -1 ==> 0 <= hint < |files| && Overlaps(files[hint], lo, hi)
    ensures OverlapRange(files, lo, hi, a, b)
  {
    var found, mid := true, 0;
    if hint != -1 {
      mid := hint;
    } else {
      found, mid := FindOverlap(files, lo, hi);
    }
    if !found {
      return 0, 0;
    }
    a, b := ExtendRange(files, lo, hi, mid);
  }

  /** Neighbours of the files at positions `a` to `b` share no key with them. */
  predicate Clean(files: seq<File>, a: nat, b: nat) {
    && a < b <= |files|
    && (a > 0 ==> files[a - 1].largest < files[a].smallest)
    && (b < |files| ==> files[b].smallest > files[b - 1].largest)
  }

  /** Grows a range of files until it is cut clean. The result is the smallest such range. */
  method ExpandToCleanCut(files: seq<File>, a: nat, b: nat) returns (a': nat, b': nat)
    requires Sorted(files) && a < b <= |files|
    ensures CleanAround(files, a, b, a', b')
  {
    hide Sorted, LeastClean, OverlapRange, Clean;
    NothingGrown(files, a, b);
    a', b' := a, b;
    var grown := true;
    while grown
      invariant a' <= a && b <= b' <= |files| && LeastClean(files, a, b, a', b')
      invariant !grown ==> Clean(files, a', b')
      decreases |files| - (b' - a'), grown
    {
      SpanOk(files, a', b');
      var c, d := GetOverlapping(files, files[a'].smallest, files[b' - 1].largest, -1);
      GrowClean(files, a, b, a', b', c, d);
      grown := d - c > b' - a';
      a', b' := c, d;
    }
  }

  /** Every clean range around `a` to `b` contains `c` to `d`. */
  ghost predicate LeastClean(files: seq<File>, a: nat, b: nat, c: nat, d: nat) {
    forall x: nat, y: nat | Clean(files, x, y) && x <= a && b <= y :: x <= c && d <= y
  }

  /** The least clean range around a range of files. */
  ghost predicate CleanAround(files: seq<File>, a: nat, b: nat, c: nat, d: nat) {
    c <= a && b <= d && Clean(files, c, d) && LeastClean(files, a, b, c, d)
  }

  lemma {:induction false} CleanExists(files: seq<File>, a: nat, b: nat) returns (c: nat, d: nat)
    requires Sorted(files) && a < b <= |files|
    ensures CleanAround(files, a, b, c, d)
    decreases |files| - (b - a)
  {
    if a > 0 && files[a - 1].largest == files[a].smallest {
      c, d := CleanExists(files, a - 1, b);
      AroundMore(files, a, b, a - 1, b, c, d);
    } else if b < |files| && files[b].smallest == files[b - 1].largest {
      c, d := CleanExists(files, a, b + 1);
      AroundMore(files, a, b, a, b + 1, c, d);
    } else {
      c, d := a, b;
    }
  }

  /** A file that shares a boundary key with the range is in every clean range around it. */
  lemma AroundMore(files: seq<File>, a: nat, b: nat, a': nat, b': nat, c: nat, d: nat)
    requires a' <= a < b <= b' <= |files| && CleanAround(files, a', b', c, d)
    requires (a' == a - 1 && b' == b && files[a'].largest == files[a].smallest)
             || (a' == a && b' == b + 1 && files[b].smallest == files[b - 1].largest)
    ensures CleanAround(files, a, b, c, d)
  {
    forall x: nat, y: nat | Clean(files, x, y) && x <= a && b <= y ensures x <= a' && b' <= y {
    }
  }

  lemma NothingGrown(files: seq<File>, a: nat, b: nat)
    ensures LeastClean(files, a, b, a, b)
  {
  }

  lemma SpanOk(files: seq<File>, a: nat, b: nat)
    requires Sorted(files) && a < b <= |files|
    ensures files[a].smallest <= files[b - 1].largest
  {
  }

  /** The files that meet a range of files belong to every clean range around it; if there are no more, it is clean. */
  lemma GrowClean(files: seq<File>, a: nat, b: nat, c: nat, d: nat, c': nat, d': nat)
    requires Sorted(files) && c <= a < b <= d <= |files| && LeastClean(files, a, b, c, d)
    requires OverlapRange(files, files[c].smallest, files[d - 1].largest, c', d')
    ensures c' <= c && d <= d' <= |files| && LeastClean(files, a, b, c', d')
    ensures d' - c' <= d - c ==> Clean(files, c', d')
  {
    assert Overlaps(files[c], files[c].smallest, files[d - 1].largest);
    assert Overlaps(files[d - 1], files[c].smallest, files[d - 1].largest);
    forall x: nat, y: nat | Clean(files, x, y) && x <= a && b <= y ensures x <= c' && d' <= y {
      assert x <= c && d <= y;
      assert x > 0 ==> (Overlaps(files[x - 1], files[c].smallest, files[d - 1].largest) <==> c' <= x - 1 < d');
      assert y < |files| ==> (Overlaps(files[y], files[c].smallest, files[d - 1].largest) <==> c' <= y < d');
    }
    if d' - c' <= d - c {
      assert c' == c && d' == d;
      if c > 0 {
        assert !Overlaps(files[c - 1], files[c].smallest, files[d - 1].largest);
      }
      if d < |files| {
        assert !Overlaps(files[d], files[c].smallest, files[d - 1].largest);
      }
    }
  }

  /** What a clean range does not contain shares no key with it. */
  lemma CleanApart(files: seq<File>, a: nat, b: nat, i: nat)
    requires Sorted(files) && Clean(files, a, b) && i < |files| && !(a <= i < b)
    ensures files[i].largest < files[a].smallest || files[i].smallest > files[b - 1].largest
  {
  }

  // ---- Clean ranges within an interval

  /** The range is clean and its files lie within the interval. */
  predicate CleanWithin(files: seq<File>, lo: Key, hi: Key, a: nat, b: nat) {
    Clean(files, a, b) && files[a].smallest >= lo && files[b - 1].largest <= hi
  }

  method FindWithin(files: seq<File>, lo: Key, hi: Key) returns (found: bool, mid: nat)
    requires Sorted(files) && lo <= hi
    ensures found ==> mid < |files| && files[mid].smallest >= lo && files[mid].largest <= hi
    ensures !found ==> forall i | 0 <= i < |files| :: files[i].smallest < lo || files[i].largest > hi
  {
    var min, max: int := 0, |files| - 1;
    mid := 0;
    while min <= max
      invariant 0 <= min <= |files| && -1 <= max < |files|
      invariant forall i | 0 <= i < min && i < |files| :: files[i].smallest < lo
      invariant forall i | max < i < |files| && 0 <= i :: files[i].largest > hi
      decreases max - min + 1
    {
      mid := (min + max) / 2;
      if files[mid].smallest < lo {
        min := mid + 1;
      } else if hi < files[mid].largest {
        max := mid - 1;
      } else {
        return true, mid;
      }
    }
    found := false;
  }

  /** The largest clean range within an interval; empty if there is none. */
  method GetCleanWithin(files: seq<File>, lo: Key, hi: Key, hint: int) returns (a: nat, b: nat)
    requires Sorted(files) && lo <= hi
    requires hint != -1 ==> 0 <= hint < |files| && files[hint].smallest >= lo && files[hint].largest <= hi
    ensures a == b || CleanWithin(files, lo, hi, a, b)
    ensures forall x: nat, y: nat | CleanWithin(files, lo, hi, x, y) :: a <= x && y <= b
  {
    var found, mid := true, 0;
    if hint != -1 {
      mid := hint;
    } else {
      found, mid := FindWithin(files, lo, hi);
    }
    if !found {
      NoneWithin(files, lo, hi);
      return 0, 0;
    }
    a, b := ExtendRange(files, lo, hi, mid);
    WithinOverlaps(files, lo, hi, a, b);
    hide Sorted, AllWithin, OverlapRange;
    while a < b && (files[a].smallest < lo || (a > 0 && files[a].smallest == files[a - 1].largest))
      invariant a <= b <= |files| && AllWithin(files, lo, hi, a, b)
    {
      NotFirst(files, lo, hi, a, b);
      a := a + 1;
    }
    while a < b && (files[b - 1].largest > hi || (b < |files| && files[b - 1].largest == files[b].smallest))
      invariant a <= b <= |files| && AllWithin(files, lo, hi, a, b)
      invariant a < b ==> files[a].smallest >= lo && (a > 0 ==> files[a].smallest != files[a - 1].largest)
    {
      NotLast(files, lo, hi, a, b);
      b := b - 1;
    }
    ShrunkClean(files, lo, hi, a, b);
  }

  lemma NoneWithin(files: seq<File>, lo: Key, hi: Key)
    requires Sorted(files) && forall i | 0 <= i < |files| :: files[i].smallest < lo || files[i].largest > hi
    ensures forall x: nat, y: nat :: !CleanWithin(files, lo, hi, x, y)
  {
    forall x: nat, y: nat ensures !CleanWithin(files, lo, hi, x, y) {
      if x < y <= |files| {
        assert files[x].smallest < lo || files[x].largest > hi;
      }
    }
  }

  lemma NotFirst(files: seq<File>, lo: Key, hi: Key, a: nat, b: nat)
    requires Sorted(files) && AllWithin(files, lo, hi, a, b) && a < b <= |files|
    requires files[a].smallest < lo || (a > 0 && files[a].smallest == files[a - 1].largest)
    ensures AllWithin(files, lo, hi, a + 1, b)
  {
  }

  lemma NotLast(files: seq<File>, lo: Key, hi: Key, a: nat, b: nat)
    requires Sorted(files) && AllWithin(files, lo, hi, a, b) && a < b <= |files|
    requires files[b - 1].largest > hi || (b < |files| && files[b - 1].largest == files[b].smallest)
    ensures AllWithin(files, lo, hi, a, b - 1)
  {
  }

  lemma ShrunkClean(files: seq<File>, lo: Key, hi: Key, a: nat, b: nat)
    requires Sorted(files) && AllWithin(files, lo, hi, a, b) && a <= b <= |files|
    requires a < b ==> files[a].smallest >= lo && (a > 0 ==> files[a].smallest != files[a - 1].largest)
    requires a < b ==> files[b - 1].largest <= hi && (b < |files| ==> files[b - 1].largest != files[b].smallest)
    ensures a == b || CleanWithin(files, lo, hi, a, b)
    ensures forall x: nat, y: nat | CleanWithin(files, lo, hi, x, y) :: a <= x && y <= b
  {
  }

  /** Every clean range within the interval is inside `a` to `b`. */
  ghost predicate AllWithin(files: seq<File>, lo: Key, hi: Key, a: nat, b: nat) {
    forall x: nat, y: nat | CleanWithin(files, lo, hi, x, y) :: a <= x && y <= b
  }

  lemma WithinOverlaps(files: seq<File>, lo: Key, hi: Key, a: nat, b: nat)
    requires Sorted(files) && lo <= hi && OverlapRange(files, lo, hi, a, b)
    ensures AllWithin(files, lo, hi, a, b)
  {
    forall x: nat, y: nat | CleanWithin(files, lo, hi, x, y) ensures a <= x && y <= b {
      assert Overlaps(files[x], lo, hi) && Overlaps(files[y - 1], lo, hi);
    }
  }

  // ---- Level 0

  /** Files that reach beyond the interval. */
  function Beyond(files: seq<File>, lo: Key, hi: Key): nat {
    if files == [] then 0
    else
      var f := files[|files| - 1];
      Beyond(files[..|files| - 1], lo, hi) + (if f.smallest < lo then 1 else 0) + (if f.largest > hi then 1 else 0)
  }

  lemma BeyondShrinks(files: seq<File>, lo: Key, hi: Key, lo': Key, hi': Key)
    requires lo' <= lo && hi <= hi'
    ensures Beyond(files, lo', hi') <= Beyond(files, lo, hi)
    ensures (exists f | f in files :: (lo' <= f.smallest < lo || hi < f.largest <= hi')) ==>
              Beyond(files, lo', hi') < Beyond(files, lo, hi)
  {
    if files != [] {
      var rest, f := files[..|files| - 1], files[|files| - 1];
      BeyondShrinks(rest, lo, hi, lo', hi');
      assert files == rest + [f];
    }
  }

  /** Files of level 0 may overlap: whenever a file reaches beyond the interval, the interval grows and the search
      starts again. The result is every file that meets the final interval, and none reaches beyond it. */
  method GetOverlappingZero(files: seq<File>, lo: Key, hi: Key) returns (picked: set<nat>, lo': Key, hi': Key)
    ensures lo' <= lo && hi <= hi'
    ensures forall i | 0 <= i < |files| :: i in picked <==> Overlaps(files[i], lo', hi')
    ensures forall i | i in picked :: i < |files| && lo' <= files[i].smallest && files[i].largest <= hi'
    ensures forall l: Key, h: Key | ClosedSpan(files, l, h) && l <= lo && hi <= h :: l <= lo' && hi' <= h
  {
    picked, lo', hi' := {}, lo, hi;
    var i := 0;
    while i < |files|
      invariant i <= |files| && lo' <= lo && hi <= hi'
      invariant forall k | 0 <= k < i :: k in picked <==> Overlaps(files[k], lo', hi')
      invariant forall k | k in picked :: k < i && lo' <= files[k].smallest && files[k].largest <= hi'
      invariant forall l: Key, h: Key | ClosedSpan(files, l, h) && l <= lo && hi <= h :: l <= lo' && hi' <= h
      decreases Beyond(files, lo', hi'), |files| - i
    {
      var f := files[i];
      i := i + 1;
      if Overlaps(f, lo', hi') {
        picked := picked + {i - 1};
        if f.smallest < lo' {
          BeyondShrinks(files, lo', hi', f.smallest, hi');
          lo', picked, i := f.smallest, {}, 0;
        } else if f.largest > hi' {
          BeyondShrinks(files, lo', hi', lo', f.largest);
          hi', picked, i := f.largest, {}, 0;
        }
      }
    }
  }

  /** No file that meets the interval reaches beyond it. */
  ghost predicate ClosedSpan(files: seq<File>, lo: Key, hi: Key) {
    forall i | 0 <= i < |files| && Overlaps(files[i], lo, hi) :: lo <= files[i].smallest && files[i].largest <= hi
  }
}
