/**
 * The per-recipe loop of one archive (datagen.ts:33-53): each recipe file is
 * classified and the pair it names is folded into the slab→block mapping,
 * the first mapping of a slab winning over every later one.
 */
module Reconciler {
  import opened Wrappers
  import opened Ids
  import opened Recipes
  import opened RunContext

  /** One archive member: its path and the document it holds when parsed. */
  datatype Entry = Entry(path: string, doc: Recipe)

  /** What one reconcile step leaves: the new mapping and the report it prints, if any. */
  datatype Reconciled = Reconciled(mapping: map<string, string>, warning: Option<Diagnostic>)

  /**
   * Folding one classified pair into the mapping (datagen.ts:42-52). An
   * unmapped slab takes the new block; a slab mapped to a different block
   * keeps it, with a report unless the recipe is a stonecutting one; no other
   * slab's entry moves.
   */
  function Reconcile(m: map<string, string>, recipe: Recipe, p: SlabPair): (r: Reconciled)
    ensures p.slabId !in m ==> r.mapping == m[p.slabId := p.blockId]
    ensures p.slabId in m ==> r.mapping == m
    ensures r.warning.Some? <==> p.slabId in m && m[p.slabId] != p.blockId && !recipe.Stonecutting?
    ensures r.warning.Some? ==> r.warning.value == Conflict(p.slabId, m[p.slabId], p.blockId)
    ensures r.mapping.Keys == m.Keys + {p.slabId}
    ensures forall k :: k != p.slabId ==> Lookup(r.mapping, k) == Lookup(m, k)
  {
    if p.slabId in m && m[p.slabId] != p.blockId then
      Reconciled(m, if recipe.Stonecutting? then None else Some(Conflict(p.slabId, m[p.slabId], p.blockId)))
    else
      Reconciled(m[p.slabId := p.blockId], None)
  }

  /** How the recipe loop sees an entry: files outside the recipe filter are never parsed. */
  function Classify(e: Entry): (c: Classification)
    ensures !IsRecipePath(e.path) ==> c == NoMatch
    ensures c == EmptyKeyError <==>
              IsRecipePath(e.path) && e.doc.ShapedCrafting? && IsSlabPattern(e.doc.pattern) && |e.doc.key| == 0
  {
    if IsRecipePath(e.path) then ProcessSlabRecipe(e.doc) else NoMatch
  }

  /** A recipe file matches exactly the pair its document establishes; nothing else matches. */
  lemma ClassifyMatchesEstablished(e: Entry, p: SlabPair)
    ensures Classify(e) == Match(p) <==> IsRecipePath(e.path) && Establishes(e.doc, p)
  {
    if Classify(e) == Match(p) {
      assert IsRecipePath(e.path);
    }
  }

  /** The entry is a recipe file whose classification throws. */
  predicate Crashes(e: Entry)
  {
    Classify(e) == EmptyKeyError
  }

  /** The reports a step adds to the log. */
  function Reports(w: Option<Diagnostic>): seq<Diagnostic>
  {
    if w.Some? then [w.value] else []
  }

  /** The state after folding the pair `p` of one recipe `doc` into `st`. */
  function Absorb(st: State, doc: Recipe, p: SlabPair): State
  {
    var step := Reconcile(st.mapping, doc, p);
    st.(mapping := step.mapping, log := st.log + Reports(step.warning))
  }

  /**
   * The recipe loop of one archive over its members in order. The slab set is
   * not touched, every existing mapping is kept, and blocks stay non-empty
   * because only truthy block ids are ever stored.
   */
  function ScanRecipes(archive: string, entries: seq<Entry>, st: State): (r: Result<State, Fault>)
    ensures r.Ok? ==> r.value.slabs == st.slabs
    ensures r.Ok? ==> Extends(st.mapping, r.value.mapping)
    ensures r.Ok? && NonEmptyValues(st.mapping) ==> NonEmptyValues(r.value.mapping)
    ensures r.Ok? ==> |st.log| <= |r.value.log| && r.value.log[..|st.log|] == st.log
    ensures r.Err? ==> r.error.EmptyKey? && r.error.archive == archive
    decreases |entries|
  {
    if entries == [] then Ok(st)
    else
      var e := entries[0];
      match Classify(e)
      case NoMatch => ScanRecipes(archive, entries[1..], st)
      case EmptyKeyError => Err(EmptyKey(archive, e.path))
      case Match(p) =>
        var r := ScanRecipes(archive, entries[1..], Absorb(st, e.doc, p));
        if r.Ok? then PrefixTrans(st.log, Absorb(st, e.doc, p).log, r.value.log); r else r
  }

  /**
   * The report one member's recipe leaves, judged against the mapping `m` the
   * loop ends with: a `Conflict` when it is a slab recipe, not a stonecutting
   * one, whose block differs from the block `m` gives its slab.
   */
  function EntryReports(e: Entry, m: map<string, string>): seq<Diagnostic>
  {
    var c := Classify(e);
    if c.Match? && !e.doc.Stonecutting? && c.pair.slabId in m && m[c.pair.slabId] != c.pair.blockId
    then [Conflict(c.pair.slabId, m[c.pair.slabId], c.pair.blockId)]
    else []
  }

  /** The reports the recipe loop prints, in member order, judged against `m`. */
  function ConflictReports(entries: seq<Entry>, m: map<string, string>): seq<Diagnostic>
    decreases |entries|
  {
    if entries == [] then [] else EntryReports(entries[0], m) + ConflictReports(entries[1..], m)
  }

  /** The slab a member's recipe names, if any, is mapped in `m`. */
  predicate EntryMapped(e: Entry, m: map<string, string>)
  {
    Classify(e).Match? ==> Classify(e).pair.slabId in m
  }

  /** Every slab some member's recipe names is mapped in `m`. */
  predicate MapsMatches(entries: seq<Entry>, m: map<string, string>)
    decreases |entries|
  {
    entries != [] ==> EntryMapped(entries[0], m) && MapsMatches(entries[1..], m)
  }

  /** Later mappings that keep every block give the same reports. */
  lemma {:induction false} ConflictReportsExtend(entries: seq<Entry>, m: map<string, string>, m': map<string, string>)
    requires MapsMatches(entries, m) && Extends(m, m')
    ensures MapsMatches(entries, m')
    ensures ConflictReports(entries, m') == ConflictReports(entries, m)
    decreases |entries|
  {
    if entries != [] {
      ConflictReportsExtend(entries[1..], m, m');
    }
  }

  /**
   * One absorbed slab recipe prints exactly its `EntryReports` against any
   * later mapping: the slab keeps the block it has after the step, so the
   * step's conflict is the one judged against the final block.
   */
  lemma AbsorbReports(st: State, e: Entry, p: SlabPair, m: map<string, string>)
    requires Classify(e) == Match(p)
    requires Extends(Absorb(st, e.doc, p).mapping, m)
    ensures Absorb(st, e.doc, p).log == st.log + EntryReports(e, m)
    ensures EntryMapped(e, m)
  {
    var step := Reconcile(st.mapping, e.doc, p);
    assert p.slabId in step.mapping;
    assert m[p.slabId] == step.mapping[p.slabId];
  }

  /**
   * What the recipe loop reports: the earlier reports, then exactly the
   * conflicts `ConflictReports` reads off the members, in member order.
   */
  lemma {:induction false} ScanRecipesReports(archive: string, entries: seq<Entry>, st: State)
    requires ScanRecipes(archive, entries, st).Ok?
    ensures ScanRecipes(archive, entries, st).value.log ==
            st.log + ConflictReports(entries, ScanRecipes(archive, entries, st).value.mapping)
    ensures MapsMatches(entries, ScanRecipes(archive, entries, st).value.mapping)
    decreases |entries|
  {
    if entries != [] {
      var e := entries[0];
      var r := ScanRecipes(archive, entries, st).value;
      var rest := ConflictReports(entries[1..], r.mapping);
      assert ConflictReports(entries, r.mapping) == EntryReports(e, r.mapping) + rest;
      match Classify(e)
      case Match(p) =>
        var st' := Absorb(st, e.doc, p);
        assert r == ScanRecipes(archive, entries[1..], st').value;
        ScanRecipesReports(archive, entries[1..], st');
        AbsorbReports(st, e, p, r.mapping);
        ConcatAssoc(st.log, EntryReports(e, r.mapping), rest);
      case NoMatch =>
        assert r == ScanRecipes(archive, entries[1..], st).value;
        ScanRecipesReports(archive, entries[1..], st);
        assert EntryReports(e, r.mapping) == [];
      case EmptyKeyError =>
        assert false;
    }
  }

  /** The first block the members name for each slab, as a mapping. */
  function FirstSeen(entries: seq<Entry>): map<string, string>
    decreases |entries|
  {
    if entries == [] then map[]
    else
      var rest := FirstSeen(entries[1..]);
      var c := Classify(entries[0]);
      if c.Match? then rest[c.pair.slabId := c.pair.blockId] else rest
  }

  /** `FirstSeen` is `FirstMatch` gathered into one mapping. */
  lemma {:induction false} FirstSeenIsFirstMatch(entries: seq<Entry>, slabId: string)
    ensures Lookup(FirstSeen(entries), slabId) == FirstMatch(entries, slabId)
    decreases |entries|
  {
    if entries != [] {
      FirstSeenIsFirstMatch(entries[1..], slabId);
    }
  }

  /**
   * The block of the first entry, in order, that classifies as a slab recipe
   * for `slabId`: the reference definition of "first seen wins".
   */
  function FirstMatch(entries: seq<Entry>, slabId: string): Option<string>
  {
    if entries == [] then None
    else
      var c := Classify(entries[0]);
      if c.Match? && c.pair.slabId == slabId then Some(c.pair.blockId)
      else FirstMatch(entries[1..], slabId)
  }

  /** The first match in a concatenation comes from its front part when there is one. */
  lemma {:induction false} FirstMatchAppend(a: seq<Entry>, b: seq<Entry>, slabId: string)
    ensures FirstMatch(a + b, slabId) ==
            (if FirstMatch(a, slabId).Some? then FirstMatch(a, slabId) else FirstMatch(b, slabId))
  {
    if a != [] {
      assert (a + b)[0] == a[0];
      assert (a + b)[1..] == a[1..] + b;
      FirstMatchAppend(a[1..], b, slabId);
    } else {
      assert a + b == b;
    }
  }

  /**
   * After an archive's recipe loop, a slab that was mapped keeps its block and
   * an unmapped slab is mapped exactly when some recipe names it, to the block
   * of the first such recipe.
   */
  lemma {:induction false} ScanRecipesFirstSeenWins(archive: string, entries: seq<Entry>, st: State, slabId: string)
    requires ScanRecipes(archive, entries, st).Ok?
    ensures Lookup(ScanRecipes(archive, entries, st).value.mapping, slabId) ==
            (if slabId in st.mapping then Some(st.mapping[slabId]) else FirstMatch(entries, slabId))
    decreases |entries|
  {
    if entries != [] {
      var e := entries[0];
      var c := Classify(e);
      if c.Match? {
        ScanRecipesFirstSeenWins(archive, entries[1..], Absorb(st, e.doc, c.pair), slabId);
      } else {
        ScanRecipesFirstSeenWins(archive, entries[1..], st, slabId);
      }
    }
  }

  /** The recipe loop aborts exactly when one of the archive's recipe files throws. */
  lemma ScanRecipesFaultIff(archive: string, entries: seq<Entry>, st: State)
    ensures ScanRecipes(archive, entries, st).Err? <==> exists i :: 0 <= i < |entries| && Crashes(entries[i])
  {
    ScanRecipesFailsOnCrash(archive, entries, st);
    AnyCrashIff(entries);
  }

  /** Some entry, from the first on, crashes. */
  predicate AnyCrash(entries: seq<Entry>)
    decreases |entries|
  {
    entries != [] && (Crashes(entries[0]) || AnyCrash(entries[1..]))
  }

  /** The loop fails iff some entry crashes, by induction over the loop. */
  lemma {:induction false} ScanRecipesFailsOnCrash(archive: string, entries: seq<Entry>, st: State)
    ensures ScanRecipes(archive, entries, st).Err? <==> AnyCrash(entries)
    decreases |entries|
  {
    if entries != [] {
      var e := entries[0];
      var c := Classify(e);
      if c != EmptyKeyError {
        var st' := if c.Match? then Absorb(st, e.doc, c.pair) else st;
        assert ScanRecipes(archive, entries, st) == ScanRecipes(archive, entries[1..], st');
        ScanRecipesFailsOnCrash(archive, entries[1..], st');
      }
    }
  }

  /** The recursive and the quantified reading of "some entry crashes" agree. */
  lemma {:induction false} AnyCrashIff(entries: seq<Entry>)
    ensures AnyCrash(entries) <==> exists i :: 0 <= i < |entries| && Crashes(entries[i])
    decreases |entries|
  {
    if entries != [] {
      AnyCrashIff(entries[1..]);
      SomeCrashCons(entries);
    }
  }

  /** Some entry crashes iff the first one does or one of the rest does. */
  lemma SomeCrashCons(entries: seq<Entry>)
    requires entries != []
    ensures (exists i :: 0 <= i < |entries| && Crashes(entries[i])) <==>
            Crashes(entries[0]) || exists i :: 0 <= i < |entries[1..]| && Crashes(entries[1..][i])
  {
    if exists i :: 0 <= i < |entries| && Crashes(entries[i]) {
      var i :| 0 <= i < |entries| && Crashes(entries[i]);
      if i > 0 {
        assert Crashes(entries[1..][i - 1]);
      }
    }
    if exists i :: 0 <= i < |entries[1..]| && Crashes(entries[1..][i]) {
      var i :| 0 <= i < |entries[1..]| && Crashes(entries[1..][i]);
      assert Crashes(entries[i + 1]);
    }
  }
}
