/** All files in one list, the newest first: what a compaction replaces, what lies above it and what below. */
module LevelFlat {
  import opened LevelFiles
  import opened Lookups
  import opened LevelZero
  import opened LevelState
  import opened LevelMeaning
  import opened LevelRecords

  /** Where the chosen files of a list end. */
  function Ends(files: seq<File>, s: set<nat>): (n: nat)
    ensures n <= |files| && forall i | n <= i < |files| :: files[i].number !in s
    ensures n > 0 ==> files[n - 1].number in s
  {
    if files == [] then 0
    else if files[|files| - 1].number in s then |files|
    else Ends(files[..|files| - 1], s)
  }

  /** The files from which the inputs are taken, down to the output level or, within level 0, to the last input. */
  function Upper(levels: Levels, c: Compaction): seq<File>
    requires c.output < |levels|
  {
    if c.output > 0 then FilesOf(levels[..c.output + 1]) else levels[0][..Ends(levels[0], c.inputs)]
  }

  function Below(levels: Levels, c: Compaction): seq<File>
    requires c.output < |levels|
  {
    if c.output > 0 then FilesOf(levels[c.output + 1..])
    else levels[0][Ends(levels[0], c.inputs)..] + FilesOf(levels[1..])
  }

  lemma UpperBelow(levels: Levels, c: Compaction)
    requires c.output < |levels|
    ensures FilesOf(levels) == Upper(levels, c) + Below(levels, c)
  {
    if c.output > 0 {
      assert levels == levels[..c.output + 1] + levels[c.output + 1..];
      FilesJoin(levels[..c.output + 1], levels[c.output + 1..]);
    } else {
      CutJoin(levels[0], Ends(levels[0], c.inputs), FilesOf(levels[1..]));
    }
  }

  lemma CutJoin(a: seq<File>, e: nat, b: seq<File>)
    requires e <= |a|
    ensures a[..e] + (a[e..] + b) == a + b
  {
  }

  lemma {:induction false} FileOf(levels: Levels, f: File) returns (l: nat)
    requires f in FilesOf(levels)
    ensures IsFile(levels, l, f)
    decreases |levels|
  {
    if f in levels[0] {
      l := 0;
    } else {
      var m := FileOf(levels[1..], f);
      l := m + 1;
    }
  }

  lemma {:induction false} InFiles(levels: Levels, l: nat, f: File)
    requires IsFile(levels, l, f)
    ensures f in FilesOf(levels)
    decreases |levels|
  {
    if l > 0 {
      InFiles(levels[1..], l - 1, f);
    }
  }

  // ---- Lookups

  /** After a chosen file with the key there are only chosen ones with the key. */
  ghost predicate FlatSinks(files: seq<File>, s: set<nat>, data: Data, k: Key) {
    forall i, j | 0 <= i < j < |files| && files[i].number in s && Has(files[i], data, k) && Has(files[j], data, k) ::
      files[j].number in s
  }

  lemma {:induction false} SinksFlat(levels: Levels, s: set<nat>, data: Data, k: Key)
    requires Sinks(levels, s, data, k)
    ensures FlatSinks(FilesOf(levels), s, data, k)
    decreases |levels|
  {
    if levels != [] {
      var first, rest := levels[0], levels[1..];
      var files := FilesOf(levels);
      assert forall l | 0 <= l < |rest| :: rest[l] == levels[l + 1];
      SinksFlat(rest, s, data, k);
      forall i, j | 0 <= i < j < |files| && files[i].number in s && Has(files[i], data, k) && Has(files[j], data, k)
        ensures files[j].number in s
      {
        if i >= |first| {
          assert files[i] == FilesOf(rest)[i - |first|] && files[j] == FilesOf(rest)[j - |first|];
        } else if j >= |first| {
          assert files[j] == FilesOf(rest)[j - |first|];
          var m := FileOf(rest, files[j]);
          var x :| 0 <= x < |rest[m]| && rest[m][x] == files[j];
          assert levels[m + 1][x] == files[j] && levels[0][i] == files[i];
        } else {
          assert levels[0][i] == files[i] && levels[0][j] == files[j];
        }
      }
    }
  }

  lemma UpperSinks(levels: Levels, c: Compaction, data: Data, k: Key)
    requires Standing(levels, c) && GapClear(levels, c) && DataOk(levels, data)
    ensures FlatSinks(Upper(levels, c), c.inputs, data, k)
  {
    if c.output > 0 {
      StandingSinks(levels, c, data, k);
      SinksFlat(levels[..c.output + 1], c.inputs, data, k);
    } else {
      var files, e := levels[0], Ends(levels[0], c.inputs);
      forall i, j | 0 <= i < j < e && files[i].number in c.inputs ensures files[j].number in c.inputs {
        assert j == e - 1 || (files[i].number in c.inputs && files[e - 1].number in c.inputs);
      }
    }
  }

  // ---- Completion

  lemma {:induction false} InsertParts(files: seq<File>, added: seq<File>, hi: Key) returns (p: nat)
    ensures p <= |files| && Insert(files, added, hi) == files[..p] + added + files[p..]
    decreases |files|
  {
    if files == [] || files[0].smallest > hi {
      p := 0;
      assert files[..0] + added + files[0..] == added + files;
    } else {
      var q := InsertParts(files[1..], added, hi);
      p := q + 1;
      ConsParts(files, q, added, p);
    }
  }

  lemma {:induction false} ReplaceParts(files: seq<File>, s: set<nat>, added: seq<File>) returns (p: nat)
    requires Together(files, s) && Touches(files, s)
    ensures var e := Ends(files, s);
            && p < e && (forall i | 0 <= i < |files| :: files[i].number in s <==> p <= i < e)
            && Replace(files, s, added) == files[..p] + added + files[e..]
    decreases |files|
  {
    hide Ends, Together, Touches, Replace;
    var e := Ends(files, s);
    SomeChosen(files, s);
    if files[0].number in s {
      p := 0;
      FirstChosen(files, s);
      FirstParts(files, s, added, e);
    } else {
      TogetherRest(files, s);
      var q := ReplaceParts(files[1..], s, added);
      EndsRest(files, s);
      p := q + 1;
      ConsChosen(files, s, q, e);
      LaterParts(files, s, added, q, e);
    }
  }

  lemma FirstParts(files: seq<File>, s: set<nat>, added: seq<File>, e: nat)
    requires 0 < e <= |files| && forall i | 0 <= i < |files| :: files[i].number in s <==> i < e
    ensures Replace(files, s, added) == files[..0] + added + files[e..]
  {
    hide Select;
    var rest := files[1..];
    assert files[0].number in s;
    RestSelected(rest, s, e - 1);
    assert rest[e - 1..] == files[e..];
    assert files[..0] + added == added;
  }

  lemma LaterParts(files: seq<File>, s: set<nat>, added: seq<File>, q: nat, e: nat)
    requires q + 1 <= e <= |files| && files[0].number !in s
    requires Replace(files[1..], s, added) == files[1..][..q] + added + files[1..][e - 1..]
    ensures Replace(files, s, added) == files[..q + 1] + added + files[e..]
  {
    ConsParts(files, q, added, e);
  }

  lemma ConsChosen(files: seq<File>, s: set<nat>, q: nat, e: nat)
    requires files != [] && files[0].number !in s && 1 <= e
    requires forall i | 0 <= i < |files[1..]| :: files[1..][i].number in s <==> q <= i < e - 1
    ensures forall i | 0 <= i < |files| :: files[i].number in s <==> q + 1 <= i < e
  {
    forall i | 0 < i < |files| ensures files[i].number in s <==> q + 1 <= i < e {
      assert files[1..][i - 1] == files[i];
    }
  }

  lemma ConsParts(files: seq<File>, q: nat, added: seq<File>, e: nat)
    requires q + 1 <= e <= |files|
    ensures [files[0]] + (files[1..][..q] + added + files[1..][e - 1..]) == files[..q + 1] + added + files[e..]
  {
  }

  lemma SomeChosen(files: seq<File>, s: set<nat>)
    requires Touches(files, s)
    ensures files != [] && (files[0].number !in s ==> Touches(files[1..], s))
  {
    var f :| f in files && f.number in s;
    assert files[0].number !in s ==> f in files[1..];
  }

  lemma FirstChosen(files: seq<File>, s: set<nat>)
    requires files != [] && files[0].number in s && Together(files, s)
    ensures Ends(files, s) > 0 && forall i | 0 <= i < |files| :: files[i].number in s <==> i < Ends(files, s)
  {
    var e := Ends(files, s);
    forall i | 0 <= i < e ensures files[i].number in s {
      assert i == 0 || i == e - 1 || (files[0].number in s && files[e - 1].number in s);
    }
  }

  lemma {:induction false} RestSelected(files: seq<File>, s: set<nat>, n: nat)
    requires n <= |files| && forall i | 0 <= i < |files| :: files[i].number in s <==> i < n
    ensures Select(files, s, false) == files[n..]
    decreases |files|
  {
    if files != [] {
      assert forall i | 0 <= i < |files[1..]| :: files[1..][i] == files[i + 1];
      if n > 0 {
        assert files[0].number in s;
        RestSelected(files[1..], s, n - 1);
        assert files[1..][n - 1..] == files[n..];
      } else {
        SelectAll(files, s, false);
      }
    }
  }

  lemma EndsRest(files: seq<File>, s: set<nat>)
    requires files != [] && files[0].number !in s && Touches(files, s)
    ensures Ends(files[1..], s) + 1 == Ends(files, s)
  {
    var e, q := Ends(files, s), Ends(files[1..], s);
    var f :| f in files && f.number in s;
    var i :| 0 <= i < |files| && files[i] == f;
    assert i > 0 && files[1..][i - 1] == f;
    assert e > 0 && files[1..][e - 2] == files[e - 1];
    assert q > 0 && files[q] == files[1..][q - 1];
  }

  lemma {:induction false} SelectFiles(levels: Levels, s: set<nat>, chosen: bool)
    ensures FilesOf(SelectLevels(levels, s, chosen)) == Select(FilesOf(levels), s, chosen)
    decreases |levels|
  {
    if levels != [] {
      SelectFiles(levels[1..], s, chosen);
      SelectLevelsTail(levels, s, chosen);
      SelectJoin(levels[0], FilesOf(levels[1..]), s, chosen);
    }
  }

  lemma FilesOne(files: seq<File>)
    ensures FilesOf([files]) == files
  {
    assert [files][1..] == [];
    assert files + [] == files;
  }

  /** The files after a completion: what was above, with the outputs in it, and what was below. */
  lemma FinishedFiles(levels: Levels, c: Compaction, added: seq<File>) returns (a: seq<File>, b: seq<File>)
    requires Standing(levels, c)
    ensures FilesOf(Finished(levels, c, added)) == a + added + b + Below(levels, c)
    ensures a + b == Select(Upper(levels, c), c.inputs, false)
    ensures forall f | f in b :: !Overlaps(f, c.lo, c.hi)
  {
    if c.output > 0 {
      a, b := FinishedDown(levels, c, added);
    } else {
      a := FinishedZeroFiles(levels, c, added);
      b := [];
      assert a + added + b == a + added && a + b == a;
    }
  }

  lemma FinishedDown(levels: Levels, c: Compaction, added: seq<File>) returns (a: seq<File>, b: seq<File>)
    requires Standing(levels, c) && c.output > 0
    ensures FilesOf(Finished(levels, c, added)) == a + added + b + Below(levels, c)
    ensures a + b == Select(Upper(levels, c), c.inputs, false)
    ensures forall f | f in b :: !Overlaps(f, c.lo, c.hi)
  {
    var out, s := c.output, c.inputs;
    var stay := Select(levels[out], s, false);
    SelectIn(levels[out], s, false);
    assert forall f | f in stay :: IsFile(levels, out, f);
    var above, rest := SelectLevels(levels[..out], s, false), levels[out + 1..];
    FinishedParts(levels, c, added);
    assert out < |levels|;
    hide Standing, Finished, Insert, Select, SelectLevels, FilesOf;
    var level := Insert(stay, added, c.hi);
    var p := InsertParts(stay, added, c.hi);
    var x := FilesOf(above);
    a, b := x + stay[..p], stay[p..];
    assert above + [level] + rest == above + ([level] + rest);
    FilesJoin(above, [level] + rest);
    FilesJoin([level], rest);
    FilesOne(level);
    FiveJoin(x, stay, p, added, FilesOf(rest));
    UpperSelected(levels, c);
    assert a + b == x + stay;
  }

  lemma FiveJoin(x: seq<File>, stay: seq<File>, p: nat, added: seq<File>, z: seq<File>)
    requires p <= |stay|
    ensures x + (stay[..p] + added + stay[p..] + z) == (x + stay[..p]) + added + stay[p..] + z
    ensures (x + stay[..p]) + stay[p..] == x + stay
  {
  }

  lemma UpperSelected(levels: Levels, c: Compaction)
    requires 0 < c.output < |levels|
    ensures Select(Upper(levels, c), c.inputs, false) ==
            FilesOf(SelectLevels(levels[..c.output], c.inputs, false)) + Select(levels[c.output], c.inputs, false)
  {
    var out, s := c.output, c.inputs;
    assert levels[..out + 1] == levels[..out] + [levels[out]];
    FilesJoin(levels[..out], [levels[out]]);
    FilesOne(levels[out]);
    SelectJoin(FilesOf(levels[..out]), levels[out], s, false);
    SelectFiles(levels[..out], s, false);
  }

  lemma FinishedZeroFiles(levels: Levels, c: Compaction, added: seq<File>) returns (a: seq<File>)
    requires Standing(levels, c) && c.output == 0
    ensures FilesOf(Finished(levels, c, added)) == a + added + Below(levels, c)
    ensures a == Select(Upper(levels, c), c.inputs, false)
  {
    var files, s := levels[0], c.inputs;
    FinishedWithin(levels, c, added);
    var _, f := SomeInput(levels, c);
    assert f in files;
    var p := ReplaceParts(files, s, added);
    var e := Ends(files, s);
    a := files[..p];
    ReplacedFiles(files, s, added, levels, p);
    BlockSelected(files, s, p, e);
  }

  lemma ReplacedFiles(files: seq<File>, s: set<nat>, added: seq<File>, levels: Levels, p: nat)
    requires levels != [] && p <= Ends(files, s)
    requires Replace(files, s, added) == files[..p] + added + files[Ends(files, s)..]
    ensures FilesOf([Replace(files, s, added)] + levels[1..]) ==
            files[..p] + added + (files[Ends(files, s)..] + FilesOf(levels[1..]))
  {
    hide Replace, Ends;
    assert ([Replace(files, s, added)] + levels[1..])[1..] == levels[1..];
  }

  lemma BlockSelected(files: seq<File>, s: set<nat>, p: nat, e: nat)
    requires p <= e <= |files| && forall i | 0 <= i < |files| :: files[i].number in s <==> p <= i < e
    ensures Select(files[..e], s, false) == files[..p]
  {
    hide Select;
    assert files[..e] == files[..p] + files[p..e];
    SelectJoin(files[..p], files[p..e], s, false);
    SelectAll(files[..p], s, false);
    SelectAll(files[p..e], s, true);
  }

  // ---- What a lookup finds
}
