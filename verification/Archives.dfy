/**
 * The archive loop (datagen.ts:13-54): each mod archive contributes the
 * values of its `data/minecraft/tags/items/slabs.json` tag to the slab set,
 * then its recipe files to the slab→block mapping.
 */
module Archives {
  import opened Wrappers
  import opened RunContext
  import opened Reconciler

  /** The JSON value of a tag's `replace` field. */
  datatype ReplaceField = ReplaceAbsent | ReplaceBool(b: bool) | ReplaceString(s: string) | ReplaceOther

  /** The slab tag document: `replace` and the `values` list, copied verbatim. */
  datatype SlabTag = SlabTag(replace: ReplaceField, values: seq<string>)

  /**
   * A mod archive as the loop sees it: its file name, its slab tag if the
   * archive holds one, and its members in archive order.
   */
  datatype Archive = Archive(name: string, slabTag: Option<SlabTag>, entries: seq<Entry>)

  /**
   * `replace !== 'true'` fails only for the string "true"; a boolean `true`
   * passes the assertion.
   */
  function AssertsReplace(tag: SlabTag): (asserted: bool)
    ensures asserted ==> tag.replace.ReplaceString?
    ensures tag.replace.ReplaceString? ==> (asserted <==> tag.replace.s == "true")
    ensures tag.replace == ReplaceBool(true) ==> !asserted
  {
    tag.replace == ReplaceString("true")
  }

  /**
   * `allSlabs.add(v)` for each value in order (datagen.ts:26-28): the set
   * keeps its earlier members in place and gains exactly the new values.
   */
  function AddSlabs(slabs: seq<string>, values: seq<string>): (r: seq<string>)
    requires NoDup(slabs)
    ensures NoDup(r)
    ensures |slabs| <= |r| && r[..|slabs|] == slabs
    ensures Members(r) == Members(slabs) + Members(values)
    decreases |values|
  {
    if values == [] then slabs
    else
      var next := if values[0] in slabs then slabs else slabs + [values[0]];
      var r := AddSlabs(next, values[1..]);
      assert Members(values) == {values[0]} + Members(values[1..]);
      assert r[..|slabs|] == r[..|next|][..|slabs|];
      r
  }

  /** The archive stops the run: it has a slab tag, and the tag asserts replace or a recipe file throws. */
  predicate Faulty(a: Archive)
  {
    a.slabTag.Some? &&
    (AssertsReplace(a.slabTag.value) || exists i :: 0 <= i < |a.entries| && Crashes(a.entries[i]))
  }

  /**
   * One pass of the archive loop. Without a slab tag the archive is reported
   * and contributes nothing, its recipes unread; a tag asserting replace ends
   * the run; otherwise its values join the slab set and its recipes the
   * mapping.
   */
  function ScanArchive(st: State, a: Archive): (r: Result<State, Fault>)
    requires NoDup(st.slabs)
    ensures a.slabTag.None? ==> r == Ok(st.(log := st.log + [MissingSlabTag(a.name)]))
    ensures a.slabTag.Some? && AssertsReplace(a.slabTag.value) ==> r == Err(ReplaceAsserted(a.name))
    ensures r.Err? <==> Faulty(a)
    ensures r.Ok? ==> NoDup(r.value.slabs)
    ensures r.Ok? ==> |st.slabs| <= |r.value.slabs| && r.value.slabs[..|st.slabs|] == st.slabs
    ensures r.Ok? && a.slabTag.Some? ==>
              Members(r.value.slabs) == Members(st.slabs) + Members(a.slabTag.value.values)
    ensures r.Ok? ==> Extends(st.mapping, r.value.mapping)
    ensures r.Ok? && NonEmptyValues(st.mapping) ==> NonEmptyValues(r.value.mapping)
    ensures r.Ok? ==> |st.log| <= |r.value.log| && r.value.log[..|st.log|] == st.log
  {
    match a.slabTag
    case None => Ok(st.(log := st.log + [MissingSlabTag(a.name)]))
    case Some(tag) =>
      if AssertsReplace(tag) then Err(ReplaceAsserted(a.name))
      else
        ScanRecipesFaultIff(a.name, a.entries, st.(slabs := AddSlabs(st.slabs, tag.values)));
        ScanRecipes(a.name, a.entries, st.(slabs := AddSlabs(st.slabs, tag.values)))
  }

  /** The slab tag values of the archives that have a slab tag. */
  function TaggedSlabs(archives: seq<Archive>): set<string>
  {
    if archives == [] then {}
    else
      (if archives[0].slabTag.Some? then Members(archives[0].slabTag.value.values) else {})
      + TaggedSlabs(archives[1..])
  }

  /** The members whose recipes are read: those of archives that have a slab tag, in order. */
  function ScannedEntries(archives: seq<Archive>): seq<Entry>
  {
    if archives == [] then []
    else (if archives[0].slabTag.Some? then archives[0].entries else []) + ScannedEntries(archives[1..])
  }

  /**
   * The whole archive loop. A finished run has collected exactly the tagged
   * slab values, without repeats, and has never remapped a slab.
   */
  function ScanArchives(st: State, archives: seq<Archive>): (r: Result<State, Fault>)
    requires NoDup(st.slabs)
    ensures r.Ok? ==> NoDup(r.value.slabs)
    ensures r.Ok? ==> Members(r.value.slabs) == Members(st.slabs) + TaggedSlabs(archives)
    ensures r.Ok? ==> Extends(st.mapping, r.value.mapping)
    ensures r.Ok? && NonEmptyValues(st.mapping) ==> NonEmptyValues(r.value.mapping)
    ensures r.Ok? ==> |st.log| <= |r.value.log| && r.value.log[..|st.log|] == st.log
    decreases |archives|
  {
    if archives == [] then Ok(st)
    else
      match ScanArchive(st, archives[0])
      case Err(f) => Err(f)
      case Ok(st') =>
        var r := ScanArchives(st', archives[1..]);
        if r.Ok? then PrefixTrans(st.log, st'.log, r.value.log); r else r
  }

  /**
   * The reports of one archive, judged against the mapping `m` the loop ends
   * with: `MissingSlabTag` without the slab tag, the conflicts of its recipe
   * files with it.
   */
  function ArchiveReport(a: Archive, m: map<string, string>): seq<Diagnostic>
  {
    if a.slabTag.None? then [MissingSlabTag(a.name)] else ConflictReports(a.entries, m)
  }

  /** The reports of the archive loop, in archive order. */
  function ArchiveReports(archives: seq<Archive>, m: map<string, string>): seq<Diagnostic>
    decreases |archives|
  {
    if archives == [] then [] else ArchiveReport(archives[0], m) + ArchiveReports(archives[1..], m)
  }

  /** The recipes of a tagged archive name only slabs mapped in `m`. */
  predicate ArchiveMapped(a: Archive, m: map<string, string>)
  {
    a.slabTag.Some? ==> MapsMatches(a.entries, m)
  }

  /** The recipes of every tagged archive name only slabs mapped in `m`. */
  predicate ArchivesMapped(archives: seq<Archive>, m: map<string, string>)
    decreases |archives|
  {
    archives != [] ==> ArchiveMapped(archives[0], m) && ArchivesMapped(archives[1..], m)
  }

  /** Later mappings that keep every block give the same reports. */
  lemma {:induction false} ArchiveReportsExtend(archives: seq<Archive>, m: map<string, string>, m': map<string, string>)
    requires ArchivesMapped(archives, m) && Extends(m, m')
    ensures ArchivesMapped(archives, m')
    ensures ArchiveReports(archives, m') == ArchiveReports(archives, m)
    decreases |archives|
  {
    if archives != [] {
      if archives[0].slabTag.Some? {
        ConflictReportsExtend(archives[0].entries, m, m');
      }
      ArchiveReportsExtend(archives[1..], m, m');
    }
  }

  /** Every archive without the slab tag has its report among `ArchiveReports`. */
  lemma {:induction false} ArchiveReportsMissingTags(archives: seq<Archive>, m: map<string, string>, i: nat)
    requires i < |archives| && archives[i].slabTag.None?
    ensures MissingSlabTag(archives[i].name) in ArchiveReports(archives, m)
    decreases i
  {
    if i > 0 {
      ArchiveReportsMissingTags(archives[1..], m, i - 1);
    }
  }

  /**
   * One archive prints exactly its `ArchiveReport` against any later mapping
   * that keeps the blocks it leaves.
   */
  lemma ScanArchiveReports(st: State, a: Archive, m: map<string, string>)
    requires NoDup(st.slabs)
    requires ScanArchive(st, a).Ok?
    requires Extends(ScanArchive(st, a).value.mapping, m)
    ensures ScanArchive(st, a).value.log == st.log + ArchiveReport(a, m)
    ensures ArchiveMapped(a, m)
  {
    if a.slabTag.Some? {
      var inner := st.(slabs := AddSlabs(st.slabs, a.slabTag.value.values));
      var st' := ScanRecipes(a.name, a.entries, inner).value;
      assert st' == ScanArchive(st, a).value;
      ScanRecipesReports(a.name, a.entries, inner);
      ConflictReportsExtend(a.entries, st'.mapping, m);
    }
  }

  /**
   * What a finished archive loop reports: the earlier reports, then exactly
   * `ArchiveReports` against the final mapping, so each conflict is judged
   * against the block first seen for its slab.
   */
  lemma {:induction false} ScanArchivesReports(st: State, archives: seq<Archive>)
    requires NoDup(st.slabs)
    requires ScanArchives(st, archives).Ok?
    ensures ScanArchives(st, archives).value.log ==
            st.log + ArchiveReports(archives, ScanArchives(st, archives).value.mapping)
    ensures ArchivesMapped(archives, ScanArchives(st, archives).value.mapping)
    decreases |archives|
  {
    if archives != [] {
      var a := archives[0];
      var st' := ScanArchive(st, a).value;
      var r := ScanArchives(st', archives[1..]).value;
      assert ScanArchives(st, archives).value == r;
      ScanArchivesReports(st', archives[1..]);
      ScanArchiveReports(st, a, r.mapping);
      ConcatAssoc(st.log, ArchiveReport(a, r.mapping), ArchiveReports(archives[1..], r.mapping));
    }
  }

  /** A finished archive loop has reported every archive without the slab tag. */
  lemma ScanArchivesReportsMissingTags(st: State, archives: seq<Archive>, i: nat)
    requires NoDup(st.slabs)
    requires ScanArchives(st, archives).Ok?
    requires i < |archives| && archives[i].slabTag.None?
    ensures MissingSlabTag(archives[i].name) in ScanArchives(st, archives).value.log
  {
    var r := ScanArchives(st, archives).value;
    ScanArchivesReports(st, archives);
    ArchiveReportsMissingTags(archives, r.mapping, i);
    assert r.log[|st.log|..] == ArchiveReports(archives, r.mapping);
  }

  /** The run aborts exactly when some archive is faulty. */
  lemma {:induction false} ScanArchivesFaultIff(st: State, archives: seq<Archive>)
    requires NoDup(st.slabs)
    ensures ScanArchives(st, archives).Err? <==> exists i :: 0 <= i < |archives| && Faulty(archives[i])
    decreases |archives|
  {
    if archives != [] {
      var first := ScanArchive(st, archives[0]);
      if first.Ok? {
        ScanArchivesFaultIff(first.value, archives[1..]);
        if exists i :: 0 <= i < |archives| && Faulty(archives[i]) {
          var i :| 0 <= i < |archives| && Faulty(archives[i]);
          assert i > 0;
          assert Faulty(archives[1..][i - 1]);
        }
        if exists i :: 0 <= i < |archives[1..]| && Faulty(archives[1..][i]) {
          var i :| 0 <= i < |archives[1..]| && Faulty(archives[1..][i]);
          assert Faulty(archives[i + 1]);
        }
      } else {
        assert Faulty(archives[0]);
      }
    }
  }

  /**
   * First seen wins across the whole loop: a slab unmapped at the start ends up
   * mapped to the block of the first slab recipe naming it among the recipe
   * files of tagged archives, in archive then member order, and to nothing if
   * there is none.
   */
  lemma {:induction false} ScanArchivesFirstSeenWins(st: State, archives: seq<Archive>, slabId: string)
    requires NoDup(st.slabs)
    requires ScanArchives(st, archives).Ok?
    ensures Lookup(ScanArchives(st, archives).value.mapping, slabId) ==
            (if slabId in st.mapping then Some(st.mapping[slabId]) else FirstMatch(ScannedEntries(archives), slabId))
    decreases |archives|
  {
    if archives != [] {
      var a := archives[0];
      var st' := ScanArchive(st, a).value;
      ScanArchivesFirstSeenWins(st', archives[1..], slabId);
      var own := if a.slabTag.Some? then a.entries else [];
      assert ScannedEntries(archives) == own + ScannedEntries(archives[1..]);
      FirstMatchAppend(own, ScannedEntries(archives[1..]), slabId);
      if a.slabTag.Some? {
        ScanRecipesFirstSeenWins(a.name, a.entries, st.(slabs := AddSlabs(st.slabs, a.slabTag.value.values)), slabId);
      }
    }
  }
}
