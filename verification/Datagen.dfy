/**
 * The whole generator run (datagen.ts:8-103): the archive loop from the empty
 * state, then, unless it stopped, the output loop over the slab set.
 */
module Datagen {
  import opened Wrappers
  import opened Ids
  import opened RunContext
  import opened Reconciler
  import opened Archives
  import opened Synthesis

  /** A finished run: the files written, in order, and every report printed. */
  datatype Outcome = Outcome(files: seq<OutputFile>, log: seq<Diagnostic>)

  /**
   * One run over the archives in directory order. It stops, writing nothing,
   * exactly when some archive with a slab tag asserts replace or holds a
   * recipe file that throws.
   */
  function Run(archives: seq<Archive>): (r: Result<Outcome, Fault>)
    ensures r.Err? <==> exists i :: 0 <= i < |archives| && Faulty(archives[i])
  {
    ScanArchivesFaultIff(Initial, archives);
    match ScanArchives(Initial, archives)
    case Err(f) => Err(f)
    case Ok(st) =>
      var out := Synthesize(st.slabs, st.mapping);
      Ok(Outcome(out.files, st.log + out.log))
  }

  /**
   * What a finished run writes, stated without the run's control flow: one
   * file for each tagged slab that some read recipe names, carrying the block
   * of the first such recipe; nothing else; and a report for each tagged slab
   * no recipe names.
   */
  lemma RunWritesFirstSeenBlocks(archives: seq<Archive>)
    requires Run(archives).Ok?
    ensures forall s :: s in TaggedSlabs(archives) && FirstMatch(ScannedEntries(archives), s).Some? ==>
              FileFor(s, FirstMatch(ScannedEntries(archives), s).value) in Run(archives).value.files
    ensures forall f :: f in Run(archives).value.files ==>
              exists s :: && s in TaggedSlabs(archives) && FirstMatch(ScannedEntries(archives), s).Some?
                          && f == FileFor(s, FirstMatch(ScannedEntries(archives), s).value)
    ensures forall s :: s in TaggedSlabs(archives) && FirstMatch(ScannedEntries(archives), s).None? ==>
              NoBlockFor(s) in Run(archives).value.log
  {
    var st := ScanArchives(Initial, archives).value;
    var entries := ScannedEntries(archives);
    assert Members(st.slabs) == TaggedSlabs(archives);
    assert NonEmptyValues(st.mapping);
    forall s
      ensures (HasBlock(st.mapping, s) <==> FirstMatch(entries, s).Some?)
      ensures HasBlock(st.mapping, s) ==> st.mapping[s] == FirstMatch(entries, s).value
    {
      ScanArchivesFirstSeenWins(Initial, archives, s);
    }
    var out := Synthesize(st.slabs, st.mapping);
    assert Run(archives).value.files == out.files;
    assert forall s :: s in TaggedSlabs(archives) <==> s in st.slabs;
    forall f | f in out.files
      ensures exists s :: && s in TaggedSlabs(archives) && FirstMatch(entries, s).Some?
                          && f == FileFor(s, FirstMatch(entries, s).value)
    {
      var s := SlabOf(f);
      assert s in TaggedSlabs(archives);
    }
  }

  /**
   * A finished run never writes two files to one path when every tagged slab
   * is namespaced and its mod id holds no '_'.
   */
  lemma RunPathsDistinct(archives: seq<Archive>)
    requires Run(archives).Ok?
    requires forall s :: s in TaggedSlabs(archives) ==> ':' in s && '_' !in GetModId(s)
    ensures DistinctPaths(Run(archives).value.files)
  {
    var st := ScanArchives(Initial, archives).value;
    assert Members(st.slabs) == TaggedSlabs(archives);
    OutputPathsDistinct(st.slabs, st.mapping);
  }

  /**
   * The reports of the archive loop, read off the archives alone: each conflict
   * is judged against the block first seen for its slab.
   */
  function EarlyReports(archives: seq<Archive>): seq<Diagnostic>
  {
    ArchiveReports(archives, FirstSeen(ScannedEntries(archives)))
  }

  /**
   * What a finished run reports: first `EarlyReports`, in archive order
   * `MissingSlabTag` for each archive without the slab tag and each conflict of
   * a read recipe with the block first seen for its slab; after them only
   * `NoBlockFor` for tagged slabs that no read recipe names. In particular
   * every archive without the slab tag is reported.
   */
  lemma RunReports(archives: seq<Archive>)
    requires Run(archives).Ok?
    ensures |EarlyReports(archives)| <= |Run(archives).value.log|
    ensures Run(archives).value.log[..|EarlyReports(archives)|] == EarlyReports(archives)
    ensures forall d :: d in Run(archives).value.log[|EarlyReports(archives)|..] ==>
              && d.NoBlockFor? && d.slabId in TaggedSlabs(archives)
              && FirstMatch(ScannedEntries(archives), d.slabId).None?
    ensures forall i :: 0 <= i < |archives| && archives[i].slabTag.None? ==>
              MissingSlabTag(archives[i].name) in Run(archives).value.log
  {
    var st := ScanArchives(Initial, archives).value;
    var entries := ScannedEntries(archives);
    var log := Run(archives).value.log;
    ScanArchivesReports(Initial, archives);
    forall s
      ensures Lookup(st.mapping, s) == Lookup(FirstSeen(entries), s)
    {
      ScanArchivesFirstSeenWins(Initial, archives, s);
      FirstSeenIsFirstMatch(entries, s);
    }
    LookupExtensional(st.mapping, FirstSeen(entries));
    var early := EarlyReports(archives);
    assert st.log == early;
    var out := Synthesize(st.slabs, st.mapping);
    assert log == early + out.log;
    assert log[..|early|] == early;
    assert log[|early|..] == out.log;
    assert Members(st.slabs) == TaggedSlabs(archives);
    assert NonEmptyValues(st.mapping);
    forall d | d in out.log
      ensures d.slabId in TaggedSlabs(archives) && FirstMatch(entries, d.slabId).None?
    {
      assert d.slabId in st.slabs;
      ScanArchivesFirstSeenWins(Initial, archives, d.slabId);
    }
    forall i | 0 <= i < |archives| && archives[i].slabTag.None?
      ensures MissingSlabTag(archives[i].name) in log
    {
      ArchiveReportsMissingTags(archives, FirstSeen(entries), i);
      assert MissingSlabTag(archives[i].name) in log[..|early|];
    }
  }
}
