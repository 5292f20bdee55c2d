/** The collision-free destination name of `RenameAndMoveFile`: the stem
    and extension, or failing that `stem (n)` and the extension for the
    least `n >= 2` whose name is unused. */
module Naming {
  import opened Text

  function BaseName(stem: string, ext: string): string {
    stem + ext
  }

  function NumberedName(stem: string, n: nat, ext: string): string {
    stem + " (" + Decimal(n) + ")" + ext
  }

  /** Different counters give different names. */
  lemma NumberedNameInjective(stem: string, ext: string, a: nat, b: nat)
    requires NumberedName(stem, a, ext) == NumberedName(stem, b, ext)
    ensures a == b
  {
    var front, back := stem + " (", ")" + ext;
    NumberedNameParts(stem, a, ext);
    NumberedNameParts(stem, b, ext);
    assert |Decimal(a)| == |Decimal(b)|;
    MiddleOf(front, Decimal(a), back);
    MiddleOf(front, Decimal(b), back);
  }

  lemma NumberedNameParts(stem: string, n: nat, ext: string)
    ensures NumberedName(stem, n, ext) == (stem + " (") + Decimal(n) + (")" + ext)
  {
    AppendAssoc(stem + " (" + Decimal(n), ")", ext);
  }

  lemma BaseNameIsNotNumbered(stem: string, ext: string, n: nat)
    ensures BaseName(stem, ext) != NumberedName(stem, n, ext)
  {
    assert |NumberedName(stem, n, ext)| > |BaseName(stem, ext)|;
  }

  /** While the base name and every numbered name below `n` are taken,
      there are at least `n - 1` names: the counter cannot run past the
      number of existing names. */
  lemma {:induction false} TakenBound(names: set<string>, stem: string, ext: string, n: nat)
    requires n >= 2 && BaseName(stem, ext) in names
    requires forall k :: 2 <= k < n ==> NumberedName(stem, k, ext) in names
    ensures n - 1 <= |names|
  {
    if n > 2 {
      var last := NumberedName(stem, n - 1, ext);
      var rest := names - {last};
      BaseNameIsNotNumbered(stem, ext, n - 1);
      forall k | 2 <= k < n - 1 ensures NumberedName(stem, k, ext) in rest {
        if NumberedName(stem, k, ext) == last {
          NumberedNameInjective(stem, ext, k, n - 1);
        }
      }
      TakenBound(rest, stem, ext, n - 1);
    }
  }

  /** The least counter from `n` on whose name is free. */
  function FreeCounter(names: set<string>, stem: string, ext: string, n: nat): (r: nat)
    requires n >= 2 && BaseName(stem, ext) in names
    requires forall k :: 2 <= k < n ==> NumberedName(stem, k, ext) in names
    ensures r >= n && NumberedName(stem, r, ext) !in names
    ensures forall k :: 2 <= k < r ==> NumberedName(stem, k, ext) in names
    decreases |names| + 2 - n
  {
    if NumberedName(stem, n, ext) !in names then n
    else
      TakenBound(names, stem, ext, n + 1);
      FreeCounter(names, stem, ext, n + 1)
  }

  /** The name `RenameAndMoveFile` settles on in a folder holding `names`. */
  function UniqueName(names: set<string>, stem: string, ext: string): (r: string)
    ensures r !in names
    ensures BaseName(stem, ext) !in names ==> r == BaseName(stem, ext)
    ensures BaseName(stem, ext) in names ==>
      exists n :: n >= 2 && r == NumberedName(stem, n, ext) &&
                  forall k :: 2 <= k < n ==> NumberedName(stem, k, ext) in names
  {
    if BaseName(stem, ext) !in names then BaseName(stem, ext)
    else NumberedName(stem, FreeCounter(names, stem, ext, 2), ext)
  }

  /** The counter is the least one: any `n >= 2` whose name is free while
      the base name and all names below it are taken gives the same name. */
  lemma UniqueNameIsLeast(names: set<string>, stem: string, ext: string, n: nat)
    requires n >= 2 && BaseName(stem, ext) in names && NumberedName(stem, n, ext) !in names
    requires forall k :: 2 <= k < n ==> NumberedName(stem, k, ext) in names
    ensures UniqueName(names, stem, ext) == NumberedName(stem, n, ext)
  {
    var m := FreeCounter(names, stem, ext, 2);
    assert !(m < n) && !(n < m);
  }

  /** The chosen name always keeps the stem in front and the extension at
      the end. */
  lemma UniqueNameShape(names: set<string>, stem: string, ext: string)
    ensures var r := UniqueName(names, stem, ext);
      |r| >= |stem| + |ext| && r[..|stem|] == stem && r[|r| - |ext|..] == ext
  {
  }
}
