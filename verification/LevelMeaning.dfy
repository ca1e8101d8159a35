/** A level-style compaction that finishes changes no lookup. */
module LevelMeaning {
  import opened Options
  import opened LevelFiles
  import opened Lookups
  import opened LevelZero
  import opened LevelState

  /** What a compaction writes: for every key what a newest-first lookup in its inputs finds. */
  ghost predicate Merged(levels: Levels, c: Compaction, added: seq<File>, data: Data) {
    && DataOk(levels, data) && (forall f | f in added :: FileData(f, data))
    && forall k: Key :: LookupIn(added, data, k) == Lookup(SelectLevels(levels, c.inputs, true), data, k)
  }

  /** No file of a level between start and output level meets the keys of the compaction. */
  ghost predicate GapClear(levels: Levels, c: Compaction) {
    forall l: nat, f | c.start < l < c.output && IsFile(levels, l, f) :: !Overlaps(f, c.lo, c.hi)
  }

  /** So it is for every compaction from level 0 and every one to the next level. */
  lemma GapUsual(levels: Levels, c: Compaction)
    requires Standing(levels, c) && (c.start == 0 || c.output <= c.start + 1)
    ensures GapClear(levels, c)
  {
  }

  // ---- Down to the output level

  /** Below an input with the key there are only inputs with the key. */
  lemma StandingSinks(levels: Levels, c: Compaction, data: Data, k: Key)
    requires Standing(levels, c) && c.output > 0 && GapClear(levels, c) && DataOk(levels, data)
    ensures Sinks(levels[..c.output + 1], c.inputs, data, k)
  {
    hide DataOk;
    var upper: Levels := levels[..c.output + 1];
    forall l, i, m, j | 0 <= l <= m < |upper| && 0 <= i < |upper[l]| && 0 <= j < |upper[m]| && (l == m == 0 ==> i < j)
                        && upper[l][i].number in c.inputs && Has(upper[l][i], data, k) && Has(upper[m][j], data, k)
      ensures upper[m][j].number in c.inputs
    {
      SharedKey(levels, data, k, l, i, m, j);
      assert IsFile(levels, l, levels[l][i]) && IsFile(levels, m, levels[m][j]);
    }
  }

  lemma {:induction false} FoundIn(files: seq<File>, data: Data, k: Key)
    ensures LookupIn(files, data, k).Some? ==> exists f :: f in files && Has(f, data, k)
    decreases |files|
  {
    if files != [] {
      FoundIn(files[1..], data, k);
      assert files[0] in files;
    }
  }

  /** What stays at the output level has no key of the outputs. */
  lemma StaysApart(levels: Levels, c: Compaction, added: seq<File>, data: Data, k: Key, g: File)
    requires Standing(levels, c) && c.output > 0 && Outputs(levels, c, added) && Merged(levels, c, added, data)
    requires LookupIn(added, data, k).Some? && g in Select(levels[c.output], c.inputs, false)
    ensures !Has(g, data, k)
  {
    FoundIn(added, data, k);
    var f :| f in added && Has(f, data, k);
    assert FileData(f, data);
    SelectIn(levels[c.output], c.inputs, false);
    var j :| 0 <= j < |levels[c.output]| && levels[c.output][j] == g;
    assert FileData(levels[c.output][j], data) && IsFile(levels, c.output, g);
  }

  lemma {:induction false} InsertLookup(files: seq<File>, added: seq<File>, hi: Key, data: Data, k: Key)
    requires LookupIn(added, data, k).Some? ==> forall f | f in files :: !Has(f, data, k)
    ensures LookupIn(Insert(files, added, hi), data, k) == OrElse(LookupIn(added, data, k), LookupIn(files, data, k))
    ensures LookupIn(added, data, k).Some? ==> LookupIn(files, data, k) == None
    decreases |files|
  {
    if files == [] || files[0].smallest > hi {
      LookupConcat(added, files, data, k);
    } else {
      InsertLookup(files[1..], added, hi, data, k);
      assert files[0] in files;
      assert ([files[0]] + Insert(files[1..], added, hi))[1..] == Insert(files[1..], added, hi);
    }
    if LookupIn(added, data, k).Some? {
      LookupNone(files, data, k);
    }
  }

  lemma DeepStay(levels: Levels, c: Compaction, l: nat)
    requires Standing(levels, c) && c.output < l < |levels|
    ensures Select(levels[l], c.inputs, false) == levels[l] && Select(levels[l], c.inputs, true) == []
  {
    forall i | 0 <= i < |levels[l]| ensures levels[l][i].number !in c.inputs {
      assert IsFile(levels, l, levels[l][i]);
    }
    SelectAll(levels[l], c.inputs, false);
  }

  lemma FinishedParts(levels: Levels, c: Compaction, added: seq<File>)
    requires Standing(levels, c) && 0 < c.output < |levels|
    ensures Finished(levels, c, added) ==
            SelectLevels(levels[..c.output], c.inputs, false)
            + [Insert(Select(levels[c.output], c.inputs, false), added, c.hi)]
            + levels[c.output + 1..]
  {
    hide Standing, Select, SelectLevels, Insert, NewLevel;
    var out, s := c.output, c.inputs;
    var above := SelectLevels(levels[..out], s, false);
    SelectLevelsAt(levels[..out], s, false);
    var r := above + [Insert(Select(levels[out], s, false), added, c.hi)] + levels[out + 1..];
    forall l | 0 <= l < |levels| ensures Finished(levels, c, added)[l] == r[l] {
      NewLevelIs(levels, c, added, l);
    }
  }

  lemma NewLevelIs(levels: Levels, c: Compaction, added: seq<File>, l: nat)
    requires Standing(levels, c) && c.output > 0 && l < |levels|
    ensures l < c.output ==> NewLevel(levels[l], c, l, added) == Select(levels[l], c.inputs, false)
    ensures l == c.output ==>
              NewLevel(levels[l], c, l, added) == Insert(Select(levels[l], c.inputs, false), added, c.hi)
    ensures l > c.output ==> NewLevel(levels[l], c, l, added) == levels[l]
  {
    hide Standing, Select, Insert;
    if l < c.output {
      ReplaceNothing(levels[l], c.inputs);
    } else if l > c.output {
      DeepStay(levels, c, l);
    }
  }

  /** Inputs are found at the levels down to the output level. */
  lemma InputsFound(levels: Levels, c: Compaction, data: Data, k: Key)
    requires Standing(levels, c)
    ensures Lookup(SelectLevels(levels, c.inputs, true), data, k) ==
            Lookup(SelectLevels(levels[..c.output + 1], c.inputs, true), data, k)
  {
    var upper, rest := levels[..c.output + 1], levels[c.output + 1..];
    assert levels == upper + rest;
    SelectConcat(upper, rest, c.inputs, true);
    LookupLevels(SelectLevels(upper, c.inputs, true), SelectLevels(rest, c.inputs, true), data, k);
    forall l, i | 0 <= l < |rest| && 0 <= i < |rest[l]| ensures rest[l][i].number !in c.inputs {
      assert IsFile(levels, l + c.output + 1, rest[l][i]);
    }
    LookupAllSelected(rest, c.inputs, false, data, k);
  }

  lemma DownKeepsLookups(levels: Levels, c: Compaction, added: seq<File>, data: Data, k: Key)
    requires Standing(levels, c) && 0 < c.output < |levels| && GapClear(levels, c)
    requires Outputs(levels, c, added) && Merged(levels, c, added, data)
    ensures Lookup(Finished(levels, c, added), data, k) == Lookup(levels, data, k)
  {
    hide Standing, Lookup, LookupIn, Select, SelectLevels, Finished, Insert, Sinks, DataOk, Outputs, GapClear;
    var stay := Select(levels[c.output], c.inputs, false);
    forall g | LookupIn(added, data, k).Some? && g in stay ensures !Has(g, data, k) {
      StaysApart(levels, c, added, data, k, g);
    }
    FinishedParts(levels, c, added);
    StandingSinks(levels, c, data, k);
    InputsFound(levels, c, data, k);
    InsertLookup(stay, added, c.hi, data, k);
    MoveDown(levels, c.inputs, c.output, added, Insert(stay, added, c.hi), data, k);
  }

  // ---- Within level 0

  lemma TogetherRest(files: seq<File>, s: set<nat>)
    requires files != [] && Together(files, s)
    ensures Together(files[1..], s)
  {
    assert forall i | 0 <= i < |files[1..]| :: files[1..][i] == files[i + 1];
  }

  /** Files that lie together at the front are found first. */
  lemma {:induction false} FrontLookup(files: seq<File>, s: set<nat>, data: Data, k: Key)
    requires files != [] && files[0].number in s && Together(files, s)
    ensures LookupIn(files, data, k) ==
            OrElse(LookupIn(Select(files, s, true), data, k), LookupIn(Select(files, s, false), data, k))
    decreases |files|
  {
    var rest := files[1..];
    SelectHead(files, s, true, data, k);
    SelectHead(files, s, false, data, k);
    if rest != [] {
      if rest[0].number in s {
        TogetherRest(files, s);
        FrontLookup(rest, s, data, k);
      } else {
        forall i | 0 <= i < |rest| ensures rest[i].number !in s {
          assert rest[i] == files[i + 1] && (i > 0 ==> files[1].number !in s);
        }
        SelectAll(rest, s, false);
      }
    }
  }

  lemma {:induction false} ReplaceLookup(files: seq<File>, s: set<nat>, added: seq<File>, data: Data, k: Key)
    requires Together(files, s) && LookupIn(added, data, k) == LookupIn(Select(files, s, true), data, k)
    ensures LookupIn(Replace(files, s, added), data, k) == LookupIn(files, data, k)
    decreases |files|
  {
    if files != [] {
      var rest := files[1..];
      SelectHead(files, s, true, data, k);
      SelectHead(files, s, false, data, k);
      if files[0].number in s {
        FrontLookup(files, s, data, k);
        LookupConcat(added, Select(rest, s, false), data, k);
        assert [] + Select(rest, s, false) == Select(rest, s, false);
      } else {
        TogetherRest(files, s);
        ReplaceLookup(rest, s, added, data, k);
        assert ([files[0]] + Replace(rest, s, added))[1..] == Replace(rest, s, added);
      }
    }
  }

  lemma FinishedWithin(levels: Levels, c: Compaction, added: seq<File>)
    requires Standing(levels, c) && c.output == 0
    ensures Finished(levels, c, added) == [Replace(levels[0], c.inputs, added)] + levels[1..]
  {
    forall l | 0 < l < |levels| ensures Finished(levels, c, added)[l] == levels[l] {
      DeepStay(levels, c, l);
    }
  }

  lemma WithinKeepsLookups(levels: Levels, c: Compaction, added: seq<File>, data: Data, k: Key)
    requires Standing(levels, c) && c.output == 0 && Merged(levels, c, added, data)
    ensures Lookup(Finished(levels, c, added), data, k) == Lookup(levels, data, k)
  {
    var files := levels[0];
    FinishedWithin(levels, c, added);
    InputsFound(levels, c, data, k);
    assert levels[..1] == [files];
    assert SelectLevels([files], c.inputs, true) == [Select(files, c.inputs, true)];
    LookupOne(Select(files, c.inputs, true), data, k);
    ReplaceLookup(files, c.inputs, added, data, k);
    assert ([Replace(files, c.inputs, added)] + levels[1..])[1..] == levels[1..];
  }

  // ---- All

  /** No lookup changes when a level-style compaction finishes, whatever was flushed, started and finished meanwhile. */
  lemma FinishKeepsLookups(levels: Levels, running: Running, id: nat, added: seq<File>, data: Data, k: Key)
    requires LevelsOk(levels) && RunningOk(levels, running) && id in running && GapClear(levels, running[id])
    requires Outputs(levels, running[id], added) && Merged(levels, running[id], added, data)
    ensures Lookup(Finished(levels, running[id], added), data, k) == Lookup(levels, data, k)
  {
    hide Merged, Outputs, Lookup, Finished, GapClear;
    var c := running[id];
    if c.output == 0 {
      WithinKeepsLookups(levels, c, added, data, k);
    } else {
      DownKeepsLookups(levels, c, added, data, k);
    }
  }

  /** A flush adds what its file holds. */
  lemma FlushLookup(levels: Levels, f: File, data: Data, k: Key)
    requires levels != []
    ensures Lookup(levels[0 := [f] + levels[0]], data, k) ==
            if Has(f, data, k) then Some(data[f.number][k]) else Lookup(levels, data, k)
  {
    assert levels[0 := [f] + levels[0]][1..] == levels[1..];
    assert ([f] + levels[0])[1..] == levels[0];
  }
}
