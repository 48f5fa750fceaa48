/**
 * The state one generator run threads through its archives, and the events it
 * reports. The source keeps these in two variables of its top-level async
 * function (`allSlabs`, `slabToBlock`) and prints its reports with
 * `console.error`; here they are values.
 */
module RunContext {
  import opened Wrappers

  /** A report the run prints and then carries on. */
  datatype Diagnostic =
    | MissingSlabTag(archive: string)                                // datagen.ts:18
    | Conflict(slabId: string, mappedTo: string, proposed: string)   // datagen.ts:46
    | NoBlockFor(slabId: string)                                     // datagen.ts:60

  /** A condition that ends the run before anything is written. */
  datatype Fault =
    | ReplaceAsserted(archive: string)          // the assertion of datagen.ts:24 fails
    | EmptyKey(archive: string, path: string)   // TypeError at datagen.ts:146

  /**
   * The run context: the slab tag values seen so far in first-seen order
   * without repeats (`allSlabs`, a JavaScript Set), the slab→block mapping
   * (`slabToBlock`), and the reports printed so far.
   */
  datatype State = State(slabs: seq<string>, mapping: map<string, string>, log: seq<Diagnostic>)

  /** The state before the first archive. */
  const Initial := State([], map[], [])

  /** `m'` keeps every entry of `m`: once mapped, a slab keeps its block. */
  predicate Extends(m: map<string, string>, m': map<string, string>)
  {
    forall k :: k in m ==> k in m' && m'[k] == m[k]
  }

  /** Every block stored in the mapping is a non-empty identifier. */
  predicate NonEmptyValues(m: map<string, string>)
  {
    forall k :: k in m ==> m[k] != ""
  }

  /** The mapping as a partial function. */
  function Lookup(m: map<string, string>, k: string): Option<string>
  {
    if k in m then Some(m[k]) else None
  }

  /** Two mappings that agree as partial functions are equal. */
  lemma LookupExtensional(m: map<string, string>, m': map<string, string>)
    requires forall k :: Lookup(m, k) == Lookup(m', k)
    ensures m == m'
  {
    assert forall k :: k in m <==> Lookup(m, k).Some?;
    assert m.Keys == m'.Keys;
  }
}
