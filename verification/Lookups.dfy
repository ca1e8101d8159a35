/** What a lookup finds in levels of files, and how it fares when some of the files are taken out. */
module Lookups {
  import opened Options
  import opened LevelFiles
  import Records

  /** What is found for a key: a version of it. */
  type Value = Records.Record

  /** What each file stores, by file number. */
  type Data = map<nat, map<Key, Value>>

  /** Files hold keys of their range only. */
  ghost predicate DataOk(levels: Levels, data: Data) {
    forall l, i | 0 <= l < |levels| && 0 <= i < |levels[l]| :: FileData(levels[l][i], data)
  }

  ghost predicate FileData(f: File, data: Data) {
    f.number in data && forall k | k in data[f.number] :: f.smallest <= k <= f.largest
  }

  predicate Has(f: File, data: Data, k: Key) {
    f.number in data && k in data[f.number]
  }

  /** The first file of a list that has the key decides. */
  function LookupIn(files: seq<File>, data: Data, k: Key): Option<Value> {
    if files == [] then None
    else if Has(files[0], data, k) then Some(data[files[0].number][k])
    else LookupIn(files[1..], data, k)
  }

  function OrElse(a: Option<Value>, b: Option<Value>): Option<Value> {
    if a.Some? then a else b
  }

  /** Newest first: level 0 from its newest file on, then level by level. */
  function Lookup(levels: Levels, data: Data, k: Key): Option<Value> {
    if levels == [] then None else OrElse(LookupIn(levels[0], data, k), Lookup(levels[1..], data, k))
  }

  /** The files in the set, or those not in it, in order. */
  function Select(files: seq<File>, s: set<nat>, chosen: bool): seq<File> {
    if files == [] then []
    else (if (files[0].number in s) == chosen then [files[0]] else []) + Select(files[1..], s, chosen)
  }

  function SelectLevels(levels: Levels, s: set<nat>, chosen: bool): Levels {
    if levels == [] then [] else [Select(levels[0], s, chosen)] + SelectLevels(levels[1..], s, chosen)
  }

  // ---- Lists

  lemma {:induction false} LookupConcat(a: seq<File>, b: seq<File>, data: Data, k: Key)
    ensures LookupIn(a + b, data, k) == OrElse(LookupIn(a, data, k), LookupIn(b, data, k))
    decreases |a|
  {
    if a == [] {
      assert a + b == b;
    } else {
      assert (a + b)[1..] == a[1..] + b;
      LookupConcat(a[1..], b, data, k);
    }
  }

  lemma {:induction false} LookupNone(files: seq<File>, data: Data, k: Key)
    requires forall i | 0 <= i < |files| :: !Has(files[i], data, k)
    ensures LookupIn(files, data, k) == None
    decreases |files|
  {
    if files != [] {
      assert !Has(files[0], data, k);
      LookupNone(files[1..], data, k);
    }
  }

  /** If only files on one side of the selection have the key, the other side does not matter. */
  lemma {:induction false} LookupSelect(files: seq<File>, s: set<nat>, chosen: bool, data: Data, k: Key)
    requires forall i | 0 <= i < |files| && (files[i].number in s) != chosen :: !Has(files[i], data, k)
    ensures LookupIn(files, data, k) == LookupIn(Select(files, s, chosen), data, k)
    ensures LookupIn(Select(files, s, !chosen), data, k) == None
    decreases |files|
  {
    if files != [] {
      assert forall i | 0 <= i < |files[1..]| :: files[1..][i] == files[i + 1];
      LookupSelect(files[1..], s, chosen, data, k);
      SelectHead(files, s, true, data, k);
      SelectHead(files, s, false, data, k);
    }
  }

  lemma SelectHead(files: seq<File>, s: set<nat>, chosen: bool, data: Data, k: Key)
    requires files != []
    ensures LookupIn(Select(files, s, chosen), data, k) ==
            if (files[0].number in s) == chosen && Has(files[0], data, k) then Some(data[files[0].number][k])
            else LookupIn(Select(files[1..], s, chosen), data, k)
  {
    var rest := Select(files[1..], s, chosen);
    if (files[0].number in s) == chosen {
      assert ([files[0]] + rest)[1..] == rest;
    } else {
      assert [] + rest == rest;
    }
  }

  // ---- Levels

  /** No chosen file of these levels has the key. */
  ghost predicate NoneHas(levels: Levels, s: set<nat>, chosen: bool, data: Data, k: Key) {
    forall l, i | 0 <= l < |levels| && 0 <= i < |levels[l]| && (levels[l][i].number in s) == chosen ::
      !Has(levels[l][i], data, k)
  }

  lemma {:induction false} LookupAllSelected(levels: Levels, s: set<nat>, chosen: bool, data: Data, k: Key)
    requires NoneHas(levels, s, !chosen, data, k)
    ensures Lookup(SelectLevels(levels, s, chosen), data, k) == Lookup(levels, data, k)
    ensures Lookup(SelectLevels(levels, s, !chosen), data, k) == None
    decreases |levels|
  {
    if levels != [] {
      assert forall l | 0 <= l < |levels[1..]| :: levels[1..][l] == levels[l + 1];
      LookupAllSelected(levels[1..], s, chosen, data, k);
      LookupSelect(levels[0], s, chosen, data, k);
      SelectLevelsTail(levels, s, true);
      SelectLevelsTail(levels, s, false);
    }
  }

  lemma SelectLevelsTail(levels: Levels, s: set<nat>, chosen: bool)
    requires levels != []
    ensures var r := SelectLevels(levels, s, chosen);
            r != [] && r[0] == Select(levels[0], s, chosen) && r[1..] == SelectLevels(levels[1..], s, chosen)
  {
  }

  /** From some level on a chosen file with the key rules out any other. */
  ghost predicate Prefers(levels: Levels, s: set<nat>, data: Data, k: Key) {
    forall l, i, m, j | 0 <= l < |levels| && 0 <= i < |levels[l]| && l <= m < |levels| && 0 <= j < |levels[m]|
                        && levels[l][i].number in s && Has(levels[l][i], data, k)
                        && Has(levels[m][j], data, k) :: levels[m][j].number in s
  }

  /** Then looking into the others first, and into the chosen ones after, gives the same. */
  lemma {:induction false} LookupSplit(levels: Levels, s: set<nat>, data: Data, k: Key)
    requires Prefers(levels, s, data, k)
    ensures Lookup(levels, data, k) ==
            OrElse(Lookup(SelectLevels(levels, s, false), data, k), Lookup(SelectLevels(levels, s, true), data, k))
    decreases |levels|
  {
    if levels != [] {
      if i :| 0 <= i < |levels[0]| && levels[0][i].number in s && Has(levels[0][i], data, k) {
        assert NoneHas(levels, s, false, data, k);
        LookupAllSelected(levels, s, true, data, k);
      } else {
        assert forall l | 0 <= l < |levels[1..]| :: levels[1..][l] == levels[l + 1];
        LookupSplit(levels[1..], s, data, k);
        LookupSelect(levels[0], s, false, data, k);
        SelectLevelsTail(levels, s, true);
        SelectLevelsTail(levels, s, false);
      }
    }
  }

  lemma {:induction false} LookupLevels(a: Levels, b: Levels, data: Data, k: Key)
    ensures Lookup(a + b, data, k) == OrElse(Lookup(a, data, k), Lookup(b, data, k))
    decreases |a|
  {
    if a == [] {
      assert a + b == b;
    } else {
      assert (a + b)[1..] == a[1..] + b;
      LookupLevels(a[1..], b, data, k);
    }
  }

  lemma LookupOne(files: seq<File>, data: Data, k: Key)
    ensures Lookup([files], data, k) == LookupIn(files, data, k)
  {
    assert [files][1..] == [];
  }

  lemma {:induction false} SelectConcat(a: Levels, b: Levels, s: set<nat>, chosen: bool)
    ensures SelectLevels(a + b, s, chosen) == SelectLevels(a, s, chosen) + SelectLevels(b, s, chosen)
    decreases |a|
  {
    if a == [] {
      assert a + b == b;
    } else {
      assert (a + b)[1..] == a[1..] + b;
      SelectConcat(a[1..], b, s, chosen);
    }
  }

  lemma {:induction false} SelectAll(files: seq<File>, s: set<nat>, chosen: bool)
    requires forall i | 0 <= i < |files| :: (files[i].number in s) == chosen
    ensures Select(files, s, chosen) == files && Select(files, s, !chosen) == []
    decreases |files|
  {
    if files != [] {
      assert forall i | 0 <= i < |files[1..]| :: files[1..][i] == files[i + 1];
      assert (files[0].number in s) == chosen;
      SelectAll(files[1..], s, chosen);
    }
  }

  lemma SelectOnce(files: seq<File>, s: set<nat>, chosen: bool)
    ensures files == [] ==> Select(files, s, chosen) == []
    ensures files != [] ==>
              Select(files, s, chosen) ==
              (if (files[0].number in s) == chosen then [files[0]] else []) + Select(files[1..], s, chosen)
  {
  }

  lemma {:induction false} SelectJoin(a: seq<File>, b: seq<File>, s: set<nat>, chosen: bool)
    ensures Select(a + b, s, chosen) == Select(a, s, chosen) + Select(b, s, chosen)
    decreases |a|
  {
    hide Select;
    SelectOnce(a, s, chosen);
    if a == [] {
      assert a + b == b;
    } else {
      SelectOnce(a + b, s, chosen);
      assert (a + b)[1..] == a[1..] + b && (a + b)[0] == a[0];
      SelectJoin(a[1..], b, s, chosen);
    }
  }

  lemma {:induction false} SelectIn(files: seq<File>, s: set<nat>, chosen: bool)
    ensures forall f :: f in Select(files, s, chosen) <==> f in files && (f.number in s) == chosen
    decreases |files|
  {
    if files != [] {
      SelectIn(files[1..], s, chosen);
      assert files == [files[0]] + files[1..];
    }
  }

  lemma {:induction false} SelectSorted(files: seq<File>, s: set<nat>, chosen: bool)
    requires Sorted(files)
    ensures Sorted(Select(files, s, chosen))
    decreases |files|
  {
    if files != [] {
      var rest := files[1..];
      assert forall i | 0 <= i < |rest| :: rest[i] == files[i + 1];
      SelectSorted(rest, s, chosen);
      SelectIn(rest, s, chosen);
      ConsSorted(files[0], rest, Select(rest, s, chosen));
    }
  }

  /** A file in front of files that come after it. */
  lemma ConsSorted(f: File, rest: seq<File>, t: seq<File>)
    requires f.smallest <= f.largest && (forall i | 0 <= i < |rest| :: f.largest <= rest[i].smallest)
    requires Sorted(t) && forall g | g in t :: g in rest
    ensures Sorted([f] + t) && [] + t == t
  {
    forall j | 0 <= j < |t| ensures f.largest <= t[j].smallest {
      assert t[j] in t;
      var i :| 0 <= i < |rest| && rest[i] == t[j];
    }
    FrontSorted(f, t);
  }

  lemma FrontSorted(f: File, t: seq<File>)
    requires f.smallest <= f.largest && Sorted(t) && forall j | 0 <= j < |t| :: f.largest <= t[j].smallest
    ensures Sorted([f] + t)
  {
    var r := [f] + t;
    forall i, j | 0 <= i < j < |r| ensures r[i].largest <= r[j].smallest {
      assert r[j] == t[j - 1] && (i == 0 || r[i] == t[i - 1]);
    }
    forall i | 0 <= i < |r| ensures r[i].smallest <= r[i].largest {
      assert i == 0 || r[i] == t[i - 1];
    }
  }

  lemma SharedKey(levels: Levels, data: Data, k: Key, l: nat, i: nat, m: nat, j: nat)
    requires DataOk(levels, data) && l < |levels| && i < |levels[l]| && m < |levels| && j < |levels[m]|
    requires Has(levels[l][i], data, k) && Has(levels[m][j], data, k)
    ensures Overlaps(levels[m][j], levels[l][i].smallest, levels[l][i].largest)
    ensures levels[l][i].smallest <= k <= levels[l][i].largest
  {
    assert FileData(levels[l][i], data) && FileData(levels[m][j], data);
  }

  lemma {:induction false} SelectLevelsAt(levels: Levels, s: set<nat>, chosen: bool)
    ensures |SelectLevels(levels, s, chosen)| == |levels|
    ensures forall l | 0 <= l < |levels| :: SelectLevels(levels, s, chosen)[l] == Select(levels[l], s, chosen)
    decreases |levels|
  {
    if levels != [] {
      SelectLevelsAt(levels[1..], s, chosen);
    }
  }

  // ---- Level 0 file by file

  /** Each file as a level of its own. */
  function Singles(files: seq<File>): Levels {
    if files == [] then [] else [[files[0]]] + Singles(files[1..])
  }

  lemma {:induction false} SinglesAt(files: seq<File>)
    ensures |Singles(files)| == |files| && forall i | 0 <= i < |files| :: Singles(files)[i] == [files[i]]
    decreases |files|
  {
    if files != [] {
      SinglesAt(files[1..]);
    }
  }

  lemma {:induction false} SinglesLookup(files: seq<File>, s: set<nat>, chosen: bool, data: Data, k: Key)
    ensures Lookup(Singles(files), data, k) == LookupIn(files, data, k)
    ensures Lookup(SelectLevels(Singles(files), s, chosen), data, k) == LookupIn(Select(files, s, chosen), data, k)
    decreases |files|
  {
    if files != [] {
      var rest := Singles(files[1..]);
      SinglesLookup(files[1..], s, chosen, data, k);
      assert Singles(files)[1..] == rest && Singles(files)[0] == [files[0]];
      assert [files[0]][1..] == [];
      SelectLevelsTail(Singles(files), s, chosen);
      SelectHead(files, s, chosen, data, k);
      SelectHead([files[0]], s, chosen, data, k);
    }
  }

  /** Level 0 file by file, then the other levels. */
  function Spread(levels: Levels): Levels
    requires levels != []
  {
    Singles(levels[0]) + levels[1..]
  }

  lemma SpreadLookup(levels: Levels, s: set<nat>, chosen: bool, data: Data, k: Key)
    requires levels != []
    ensures Lookup(Spread(levels), data, k) == Lookup(levels, data, k)
    ensures Lookup(SelectLevels(Spread(levels), s, chosen), data, k) == Lookup(SelectLevels(levels, s, chosen), data, k)
  {
    SinglesLookup(levels[0], s, chosen, data, k);
    LookupLevels(Singles(levels[0]), levels[1..], data, k);
    SelectConcat(Singles(levels[0]), levels[1..], s, chosen);
    LookupLevels(SelectLevels(Singles(levels[0]), s, chosen), SelectLevels(levels[1..], s, chosen), data, k);
    SelectLevelsTail(levels, s, chosen);
  }

  /** A file with the key that is not chosen is nowhere below a chosen one, in level 0 nowhere after it. */
  ghost predicate Sinks(levels: Levels, s: set<nat>, data: Data, k: Key) {
    forall l, i, m, j | 0 <= l <= m < |levels| && 0 <= i < |levels[l]| && 0 <= j < |levels[m]|
                        && (l == m == 0 ==> i < j)
                        && levels[l][i].number in s && Has(levels[l][i], data, k) && Has(levels[m][j], data, k) ::
      levels[m][j].number in s
  }

  lemma SinksPrefers(levels: Levels, s: set<nat>, data: Data, k: Key)
    requires levels != [] && Sinks(levels, s, data, k)
    ensures Prefers(Spread(levels), s, data, k)
  {
    SinglesAt(levels[0]);
    var n, spread: Levels := |levels[0]|, Spread(levels);
    forall l, i, m, j | 0 <= l < |spread| && 0 <= i < |spread[l]| && l <= m < |spread| && 0 <= j < |spread[m]|
                        && spread[l][i].number in s && Has(spread[l][i], data, k) && Has(spread[m][j], data, k)
      ensures spread[m][j].number in s
    {
      var l', i' := if l < n then 0 else l - n + 1, if l < n then l else i;
      var m', j' := if m < n then 0 else m - n + 1, if m < n then m else j;
      assert spread[l][i] == levels[l'][i'] && spread[m][j] == levels[m'][j'];
    }
  }

  /** What stays comes first, then what is chosen. */
  lemma SinksSplit(levels: Levels, s: set<nat>, data: Data, k: Key)
    requires levels != [] && Sinks(levels, s, data, k)
    ensures Lookup(levels, data, k) ==
            OrElse(Lookup(SelectLevels(levels, s, false), data, k), Lookup(SelectLevels(levels, s, true), data, k))
  {
    hide Lookup, SelectLevels, Spread, Prefers;
    SinksPrefers(levels, s, data, k);
    LookupSplit(Spread(levels), s, data, k);
    SpreadLookup(levels, s, false, data, k);
    SpreadLookup(levels, s, true, data, k);
  }

  lemma StayLast(levels: Levels, s: set<nat>, out: nat, data: Data, k: Key)
    requires out < |levels|
    ensures Lookup(SelectLevels(levels[..out + 1], s, false), data, k) ==
            OrElse(Lookup(SelectLevels(levels[..out], s, false), data, k),
                   LookupIn(Select(levels[out], s, false), data, k))
  {
    assert levels[..out + 1] == levels[..out] + [levels[out]];
    SelectConcat(levels[..out], [levels[out]], s, false);
    assert SelectLevels([levels[out]], s, false) == [Select(levels[out], s, false)];
    hide Lookup, SelectLevels, Select, LookupIn;
    LookupLevels(SelectLevels(levels[..out], s, false), [Select(levels[out], s, false)], data, k);
    LookupOne(Select(levels[out], s, false), data, k);
  }

  /** Files that sink can be replaced by outputs at the output level, where nothing that stays has a key of theirs. */
  lemma MoveDown(levels: Levels, s: set<nat>, out: nat, outputs: seq<File>, level: seq<File>, data: Data, k: Key)
    requires out < |levels| && Sinks(levels[..out + 1], s, data, k)
    requires LookupIn(outputs, data, k) == Lookup(SelectLevels(levels[..out + 1], s, true), data, k)
    requires LookupIn(outputs, data, k).Some? ==> LookupIn(Select(levels[out], s, false), data, k) == None
    requires LookupIn(level, data, k) ==
             OrElse(LookupIn(outputs, data, k), LookupIn(Select(levels[out], s, false), data, k))
    ensures Lookup(SelectLevels(levels[..out], s, false) + [level] + levels[out + 1..], data, k) ==
            Lookup(levels, data, k)
  {
    hide Lookup, LookupIn, Select, SelectLevels, Sinks;
    var upper, above, rest := levels[..out + 1], SelectLevels(levels[..out], s, false), levels[out + 1..];
    SinksSplit(upper, s, data, k);
    StayLast(levels, s, out, data, k);
    assert levels == upper + rest;
    LookupLevels(upper, rest, data, k);
    assert above + [level] + rest == above + ([level] + rest);
    LookupLevels(above, [level] + rest, data, k);
    LookupLevels([level], rest, data, k);
    LookupOne(level, data, k);
  }
}
