/**
 * Namespaced identifiers (`<namespace>:<name>`) and the string operations the
 * generator applies to them: the namespace (mod id) of an identifier, the
 * output file name of a generated recipe, and the test that selects recipe
 * documents inside an archive.
 */
module Ids {

  /** Position of the first `c` in `s`, or -1 when there is none (`String.prototype.indexOf`). */
  function IndexOf(s: string, c: char): (i: int)
    ensures -1 <= i < |s|
    ensures i == -1 <==> c !in s
    ensures 0 <= i ==> s[i] == c && c !in s[..i]
  {
    if |s| == 0 then -1
    else if s[0] == c then 0
    else
      var j := IndexOf(s[1..], c);
      if j == -1 then -1
      else
        assert s[..j + 1] == [s[0]] + s[1..][..j];
        j + 1
  }

  /** The first occurrence is the only position holding `c` with no `c` before it. */
  lemma IndexOfUnique(s: string, c: char, k: nat)
    requires k < |s| && s[k] == c && c !in s[..k]
    ensures IndexOf(s, c) == k
  {
    assert s[k] in s;
  }

  /**
   * `String.prototype.substr(start, length)`: a negative start counts from the
   * end, and the length is clamped to what is left (a negative length gives "").
   */
  function Substr(s: string, start: int, length: int): (r: string)
    ensures |r| <= |s|
    ensures 0 <= start <= |s| && 0 <= length <= |s| - start ==> r == s[start..start + length]
    ensures length <= 0 ==> r == ""
  {
    var from := if start < 0 then (if |s| + start < 0 then 0 else |s| + start)
                else if start > |s| then |s| else start;
    var len := if length < 0 then 0 else if length > |s| - from then |s| - from else length;
    s[from..from + len]
  }

  /**
   * The mod id of an identifier (datagen.ts `getModId`): the text before the
   * first ':'. An identifier without ':' yields "", because `indexOf` returns
   * -1 and `substr(0, -1)` is empty.
   */
  function GetModId(id: string): (ns: string)
    ensures ':' !in ns
    ensures ':' in id ==> |ns| < |id| && id[..|ns|] == ns && id[|ns|] == ':'
    ensures ':' !in id ==> ns == ""
  {
    Substr(id, 0, IndexOf(id, ':'))
  }

  /** The mod id of `ns:name` is `ns`, whatever `name` holds (even further ':'). */
  lemma ModIdOfNamespaced(ns: string, name: string)
    requires ':' !in ns
    ensures GetModId(ns + ":" + name) == ns
  {
    var id := ns + ":" + name;
    assert id[..|ns|] == ns;
    IndexOfUnique(id, ':', |ns|);
  }

  /**
   * `s.replace(c, repl)` for a one-character pattern: only the first occurrence
   * of `c` is replaced (`repl` holds no `$` patterns here).
   */
  function ReplaceFirst(s: string, c: char, repl: string): (r: string)
    ensures c !in s ==> r == s
    ensures c in s ==> r == s[..IndexOf(s, c)] + repl + s[IndexOf(s, c) + 1..]
  {
    if |s| == 0 then s
    else if s[0] == c then repl + s[1..]
    else
      var tail := ReplaceFirst(s[1..], c, repl);
      assert c in s[1..] ==> s[..IndexOf(s, c)] == [s[0]] + s[1..][..IndexOf(s[1..], c)];
      [s[0]] + tail
  }

  /**
   * The file name of the recipe generated for `slabId` (datagen.ts:99): the
   * mod id, "__" in place of the first ':', the rest of the identifier, ".json".
   */
  function RecipeFileName(slabId: string): (name: string)
    ensures ':' in slabId ==>
              name == GetModId(slabId) + "__" + slabId[|GetModId(slabId)| + 1..] + ".json"
    ensures ':' !in slabId ==> name == slabId + ".json"
  {
    ReplaceFirst(slabId, ':', "__") + ".json"
  }

  /** The file name of `ns:name` is `ns__name.json`. */
  lemma FileNameOfNamespaced(ns: string, name: string)
    requires ':' !in ns
    ensures RecipeFileName(ns + ":" + name) == ns + "__" + name + ".json"
  {
    var id := ns + ":" + name;
    ModIdOfNamespaced(ns, name);
    assert id[|ns| + 1..] == name;
  }

  /** Identifiers whose mod id holds no '_' never share a generated file name. */
  lemma {:induction false} FileNameInjective(a: string, b: string)
    requires ':' in a && ':' in b
    requires '_' !in GetModId(a) && '_' !in GetModId(b)
    requires RecipeFileName(a) == RecipeFileName(b)
    ensures a == b
  {
    var na, ra := FileNameParts(a);
    var nb, rb := FileNameParts(b);
    SplitAtFirstUnderscore(na, nb, ra + ".json", rb + ".json");
    SuffixCancel(ra, rb, ".json");
    EqualAroundIndex(a, b, |na|);
  }

  /** A namespaced id split at its first ':', and its file name in those terms. */
  lemma FileNameParts(a: string) returns (na: string, ra: string)
    requires ':' in a
    ensures na == GetModId(a) && |na| < |a| && a[|na|] == ':'
    ensures a[..|na|] == na && a[|na| + 1..] == ra
    ensures RecipeFileName(a) == na + "__" + (ra + ".json")
  {
    na, ra := GetModId(a), a[|GetModId(a)| + 1..];
    assert na + "__" + ra + ".json" == na + "__" + (ra + ".json");
  }

  /** A common suffix cancels. */
  lemma SuffixCancel<T>(x: seq<T>, y: seq<T>, z: seq<T>)
    requires x + z == y + z
    ensures x == y
  {
    assert x == (x + z)[..|x|];
    assert y == (y + z)[..|y|];
  }

  /** Two sequences agreeing before, at and after one index are equal. */
  lemma EqualAroundIndex<T>(a: seq<T>, b: seq<T>, k: nat)
    requires k < |a| && k < |b|
    requires a[..k] == b[..k] && a[k] == b[k] && a[k + 1..] == b[k + 1..]
    ensures a == b
  {
    assert |a| == k + 1 + |a[k + 1..]|;
    forall i | 0 <= i < |a|
      ensures a[i] == b[i]
    {
      if i < k {
        assert a[..k][i] == b[..k][i];
      } else if i > k {
        assert a[k + 1..][i - k - 1] == b[k + 1..][i - k - 1];
      }
    }
  }

  /** `ns__rest` determines `ns` and `rest` when `ns` holds no '_'. */
  lemma SplitAtFirstUnderscore(n1: string, n2: string, r1: string, r2: string)
    requires '_' !in n1 && '_' !in n2
    requires n1 + "__" + r1 == n2 + "__" + r2
    ensures n1 == n2 && r1 == r2
  {
    var s := n1 + "__" + r1;
    assert s[..|n1|] == n1;
    IndexOfUnique(s, '_', |n1|);
    assert s == n2 + "__" + r2 && s[..|n2|] == n2;
    IndexOfUnique(s, '_', |n2|);
    assert n1 == s[..|n1|] == n2;
    assert r1 == s[|n1| + 2..] == r2;
  }

  /**
   * An identifier without ':' collides with a namespaced one even when no mod
   * id holds '_': `a__b` (mod id `""`) and `a:b` both become `a__b.json`.
   */
  lemma {:induction false} UnqualifiedFileNameCollision(a: string, b: string)
    requires ':' !in a && ':' !in b && '_' !in a
    ensures a + "__" + b != a + ":" + b
    ensures GetModId(a + "__" + b) == "" && GetModId(a + ":" + b) == a
    ensures RecipeFileName(a + "__" + b) == RecipeFileName(a + ":" + b)
  {
    var x, y := a + "__" + b, a + ":" + b;
    assert x[|a|] != y[|a|];
    assert ':' !in x;
    FileNameOfNamespaced(a, b);
    ModIdOfNamespaced(a, b);
  }

  /** Regrouping used by `FileNameCollision`. */
  lemma RegroupIds(a: string, b: string, c: string)
    ensures (a + "__" + b) + "__" + c + ".json" == a + "__" + (b + "__" + c) + ".json"
    ensures a + "__" + b + ":" + c == (a + "__" + b) + ":" + c
    ensures a + ":" + b + "__" + c == a + ":" + (b + "__" + c)
  {
  }

  /**
   * Without that restriction distinct identifiers can share a file name:
   * `a__b:c` and `a:b__c` both become `a__b__c.json`.
   */
  lemma {:induction false} FileNameCollision(a: string, b: string, c: string)
    requires ':' !in a && ':' !in b
    ensures a + "__" + b + ":" + c != a + ":" + b + "__" + c
    ensures RecipeFileName(a + "__" + b + ":" + c) == RecipeFileName(a + ":" + b + "__" + c)
  {
    var x, y := a + "__" + b + ":" + c, a + ":" + b + "__" + c;
    assert x[|a|] != y[|a|];
    RegroupIds(a, b, c);
    assert ':' !in a + "__" + b;
    FileNameOfNamespaced(a + "__" + b, c);
    FileNameOfNamespaced(a, b + "__" + c);
  }

  /** The characters JavaScript's `.` does not match (ECMAScript line terminators). */
  predicate IsLineTerminator(c: char)
  {
    c == '\n' || c == '\r' || c == '\U{2028}' || c == '\U{2029}'
  }

  /** Text matched by the regular-expression fragment `.+`. */
  predicate DotPlus(s: string)
  {
    |s| >= 1 && forall i :: 0 <= i < |s| ==> !IsLineTerminator(s[i])
  }

  /**
   * The recipe-file filter of datagen.ts:31, `^data\/[^/]+\/recipes\/.+\.json$`,
   * decided without backtracking: "data/", then the namespace, which ends at
   * the first '/', then the rest.
   */
  function IsRecipePath(p: string): (accepted: bool)
    ensures accepted ==> |p| >= 21
  {
    |p| >= 5 && p[..5] == "data/" && IsNamespacedRecipe(p[5..])
  }

  /** An accepted path starts with "data/" and ends with ".json". */
  lemma AcceptedPathShape(p: string)
    requires IsRecipePath(p)
    ensures p[..5] == "data/" && p[|p| - 5..] == ".json"
  {
  }

  /** `[^/]+\/recipes\/.+\.json$`: a non-empty segment up to the first '/', then the rest. */
  function IsNamespacedRecipe(q: string): bool
  {
    var j := IndexOf(q, '/');
    j >= 1 && IsRecipesTail(q[j..])
  }

  /** `\/recipes\/.+\.json$`: "/recipes/", a name `.+` matches, ".json" at the very end. */
  function IsRecipesTail(t: string): bool
  {
    |t| >= 15 && t[..9] == "/recipes/" && t[|t| - 5..] == ".json" && DotPlus(t[9..|t| - 5])
  }

  /** The path the regular expression describes, from its two variable parts. */
  function RecipePath(ns: string, name: string): string
  {
    "data/" + (ns + ("/recipes/" + (name + ".json")))
  }

  /** `p` is matched by `^data\/[^/]+\/recipes\/.+\.json$`, read as a grammar. */
  ghost predicate MatchesRecipePattern(p: string)
  {
    exists ns: string, name: string ::
      && |ns| >= 1 && '/' !in ns && DotPlus(name)
      && p == RecipePath(ns, name)
  }

  /** The deterministic filter accepts exactly the paths the regular expression matches. */
  lemma IsRecipePathMatchesPattern(p: string)
    ensures IsRecipePath(p) <==> MatchesRecipePattern(p)
  {
    if IsRecipePath(p) {
      var ns, name := AcceptedPathMatches(p);
      PatternWitness(p, ns, name);
    }
    if MatchesRecipePattern(p) {
      var ns, name :| |ns| >= 1 && '/' !in ns && DotPlus(name) && p == RecipePath(ns, name);
      MatchingPathAccepted(ns, name);
    }
  }

  /**
   * Soundness of the filter: an accepted path splits as the expression
   * demands, into a '/'-free namespace and a name `.+` matches.
   */
  lemma AcceptedPathMatches(p: string) returns (ns: string, name: string)
    requires IsRecipePath(p)
    ensures |ns| >= 1 && '/' !in ns && DotPlus(name)
    ensures p == RecipePath(ns, name)
  {
    var q := SplitAfterData(p);
    var t;
    ns, t := SplitNamespace(q);
    name := SplitRecipesTail(t);
  }

  /** Any decomposition of the right shape witnesses a match. */
  lemma PatternWitness(p: string, ns: string, name: string)
    requires |ns| >= 1 && '/' !in ns && DotPlus(name)
    requires p == RecipePath(ns, name)
    ensures MatchesRecipePattern(p)
  {
  }

  /** An accepted path is "data/" followed by an accepted namespaced part. */
  lemma SplitAfterData(p: string) returns (q: string)
    requires IsRecipePath(p)
    ensures p == "data/" + q && IsNamespacedRecipe(q)
  {
    q := p[5..];
    Concat2(p, "data/", q);
  }

  /** An accepted namespaced part is a '/'-free namespace followed by an accepted tail. */
  lemma SplitNamespace(q: string) returns (ns: string, t: string)
    requires IsNamespacedRecipe(q)
    ensures q == ns + t && |ns| >= 1 && '/' !in ns && IsRecipesTail(t)
  {
    var j := IndexOf(q, '/');
    ns, t := q[..j], q[j..];
    Concat2(q, ns, t);
  }

  /** An accepted tail is "/recipes/", a name `.+` matches, and ".json". */
  lemma SplitRecipesTail(t: string) returns (name: string)
    requires IsRecipesTail(t)
    ensures t == "/recipes/" + (name + ".json") && DotPlus(name)
  {
    name := t[9..|t| - 5];
    var rest := t[9..];
    assert rest[..|rest| - 5] == name && rest[|rest| - 5..] == ".json";
    Concat2(rest, name, ".json");
    Concat2(t, "/recipes/", rest);
  }

  /** A sequence split at one point is the concatenation of the two parts. */
  lemma Concat2<T>(p: seq<T>, a: seq<T>, b: seq<T>)
    requires |a| + |b| == |p| && p[..|a|] == a && p[|a|..] == b
    ensures p == a + b
  {
  }

  /** Completeness of the filter: every path of the expression's shape is accepted. */
  lemma MatchingPathAccepted(ns: string, name: string)
    requires |ns| >= 1 && '/' !in ns && DotPlus(name)
    ensures IsRecipePath(RecipePath(ns, name))
  {
    var tail := "/recipes/" + (name + ".json");
    TailAccepted(name);
    NamespaceAccepted(ns, tail);
    PrefixOfAppend("data/", ns + tail);
  }

  /** "/recipes/" + name + ".json" passes the tail test whenever `.+` matches the name. */
  lemma TailAccepted(name: string)
    requires DotPlus(name)
    ensures IsRecipesTail("/recipes/" + (name + ".json"))
  {
    var t := "/recipes/" + (name + ".json");
    PrefixOfAppend("/recipes/", name + ".json");
    PrefixOfAppend(name, ".json");
    assert t[9..] == name + ".json";
    assert t[9..|t| - 5] == (name + ".json")[..|name|];
    assert t[|t| - 5..] == (name + ".json")[|name|..];
  }

  /** A '/'-free non-empty namespace in front of an accepted tail is accepted. */
  lemma NamespaceAccepted(ns: string, tail: string)
    requires |ns| >= 1 && '/' !in ns
    requires IsRecipesTail(tail)
    ensures IsNamespacedRecipe(ns + tail)
  {
    var q := ns + tail;
    PrefixOfAppend(ns, tail);
    assert q[|ns|] == tail[0] == '/';
    IndexOfUnique(q, '/', |ns|);
  }

  /** Taking apart a concatenation. */
  lemma PrefixOfAppend<T>(a: seq<T>, b: seq<T>)
    ensures (a + b)[..|a|] == a && (a + b)[|a|..] == b
  {
  }
}
