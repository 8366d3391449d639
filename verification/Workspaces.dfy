/** Several workspaces around one directory: exactly when the longest is found in whatever order they come. */
module Workspaces {
  import opened Prelude
  import opened Paths

  predicate Contains(root: string, directory: string) {
    Under(directory, root).Some?
  }

  ghost predicate Longest(directory: string, roots: seq<string>, root: string) {
    && Contains(root, directory) && root in roots
    && forall other :: other in roots && Contains(other, directory) ==> |Trimmed(other)| <= |Trimmed(root)|
  }

  /** A workspace is weighed lighter than it is, and another is long enough to be taken for longer. */
  predicate Misjudged(heavy: string, light: string) {
    Weight(heavy) < |Trimmed(light)| < |Trimmed(heavy)|
  }

  lemma {:induction false} WeightIsLess(root: string)
    ensures Weight(root) <= |Trimmed(root)|
  {
    TrimmedOf(root);
    var both, own := RStrip(root, AnySlash), RStrip(root, Separator(root));
    assert both != "" ==> !AnySlash(root[|both| - 1]);
    assert |own| >= |both|;
  }

  // ---------- what is found ----------

  /** What is found contains the directory, and something is found if anything does. */
  lemma {:induction false} FoundContains(directory: string, roots: seq<string>)
    ensures Best(directory, roots).None? <==> forall k :: 0 <= k < |roots| ==> !Contains(roots[k], directory)
    ensures Best(directory, roots).Some? ==>
              var (root, relative) := Best(directory, roots).value;
              root in roots && Contains(root, directory) && Under(directory, root) == Some(relative)
  {
    hide Under, Trimmed, Weight;
    if roots != [] {
      FoundContains(directory, roots[..|roots| - 1]);
      assert forall k :: 0 <= k < |roots| ==>
               (k < |roots| - 1 && roots[k] == roots[..|roots| - 1][k]) || roots[k] == roots[|roots| - 1];
    }
  }

  /** No workspace around the directory is longer than `m`. */
  ghost predicate UpTo(directory: string, roots: seq<string>, m: nat) {
    forall r :: r in roots && Contains(r, directory) ==> |Trimmed(r)| <= m
  }

  /** A workspace of length `m` around the directory, weighed in full. */
  predicate Full(directory: string, root: string, m: nat) {
    Contains(root, directory) && |Trimmed(root)| == m && Weight(root) == m
  }

  lemma {:induction false} FullIsFound(directory: string, roots: seq<string>, m: nat)
    requires UpTo(directory, roots, m) && exists r :: r in roots && Full(directory, r, m)
    ensures Best(directory, roots).Some? && Full(directory, Best(directory, roots).value.0, m)
  {
    hide Under, Trimmed, Weight;
    var before, root := roots[..|roots| - 1], roots[|roots| - 1];
    assert roots == before + [root];
    FoundContains(directory, before);
    var best := Best(directory, before);
    if exists r :: r in before && Full(directory, r, m) {
      FullIsFound(directory, before, m);
    } else if best.Some? {
      WeightIsLess(best.value.0);
    }
  }

  /** Of the workspaces of length `m` none is weighed lighter than a shorter one is long. */
  ghost predicate NoneMisjudged(directory: string, roots: seq<string>, m: nat) {
    forall x, y | x in roots && y in roots && Contains(x, directory) && Contains(y, directory) ::
      |Trimmed(x)| == m && |Trimmed(y)| < m ==> |Trimmed(y)| <= Weight(x)
  }

  lemma {:induction false} UnmistakenIsFound(directory: string, roots: seq<string>, m: nat)
    requires UpTo(directory, roots, m) && NoneMisjudged(directory, roots, m)
    requires exists r :: r in roots && Contains(r, directory) && |Trimmed(r)| == m
    ensures Best(directory, roots).Some? && |Trimmed(Best(directory, roots).value.0)| == m
  {
    hide Under, Trimmed, Weight;
    var before, root := roots[..|roots| - 1], roots[|roots| - 1];
    assert roots == before + [root];
    FoundContains(directory, before);
    var best := Best(directory, before);
    if exists r :: r in before && Contains(r, directory) && |Trimmed(r)| == m {
      UnmistakenIsFound(directory, before, m);
    }
    if best.Some? {
      WeightIsLess(best.value.0);
    }
  }

  // ---------- any order ----------

  /** What is found, if anything, is the longest. */
  ghost predicate FindsLongest(directory: string, roots: seq<string>) {
    Best(directory, roots).Some? ==> Longest(directory, roots, Best(directory, roots).value.0)
  }

  /** A longest workspace is weighed in full, or no longest one can be misjudged for another. */
  ghost predicate Unmistakable(directory: string, roots: seq<string>) {
    || (exists x :: Longest(directory, roots, x) && Weight(x) == |Trimmed(x)|)
    || (forall x, y | Longest(directory, roots, x) && y in roots && Contains(y, directory) :: !Misjudged(x, y))
  }

  lemma SameLongest(directory: string, roots: seq<string>, order: seq<string>, x: string)
    requires multiset(order) == multiset(roots)
    ensures Longest(directory, order, x) <==> Longest(directory, roots, x)
  {
    forall r ensures r in order <==> r in roots {
      assert r in multiset(order) <==> r in multiset(roots);
    }
    hide Contains, Trimmed;
  }

  lemma UnmistakableIsFound(directory: string, roots: seq<string>)
    requires Unmistakable(directory, roots)
    ensures FindsLongest(directory, roots)
  {
    hide Under, Trimmed, Weight, Best;
    FoundContains(directory, roots);
    if Best(directory, roots).Some? {
      var x := LongestOf(directory, roots);
      var m := |Trimmed(x)|;
      if exists r :: r in roots && Full(directory, r, m) {
        FullIsFound(directory, roots, m);
      } else {
        forall a, b | a in roots && b in roots && Contains(a, directory) && Contains(b, directory)
          ensures |Trimmed(a)| == m && |Trimmed(b)| < m ==> |Trimmed(b)| <= Weight(a)
        {
          if |Trimmed(a)| == m && |Trimmed(b)| < m {
            assert Longest(directory, roots, a) && !Misjudged(a, b);
          }
        }
        UnmistakenIsFound(directory, roots, m);
      }
    }
  }

  lemma {:induction false} LongestOf(directory: string, roots: seq<string>) returns (x: string)
    requires exists r :: r in roots && Contains(r, directory)
    ensures Longest(directory, roots, x)
  {
    hide Contains, Trimmed;
    var before, root := roots[..|roots| - 1], roots[|roots| - 1];
    assert roots == before + [root];
    x := root;
    if exists r :: r in before && Contains(r, directory) {
      x := LongestOf(directory, before);
      if Contains(root, directory) && |Trimmed(root)| > |Trimmed(x)| {
        x := root;
      }
    }
  }

  /** The misjudged workspace last but one, and last the one it is misjudged for. */
  lemma ShorterIsFound(directory: string, roots: seq<string>, x: string, y: string) returns (order: seq<string>)
    requires Longest(directory, roots, x) && y in roots && Contains(y, directory) && Misjudged(x, y)
    requires forall z :: Longest(directory, roots, z) ==> Weight(z) < |Trimmed(z)|
    ensures multiset(order) == multiset(roots) && !FindsLongest(directory, order)
  {
    hide Under, Trimmed, Weight;
    var rest := TakeOutTwo(roots, x, y);
    order := rest + [x] + [y];
    assert order[..|order| - 1] == rest + [x] && (rest + [x])[..|rest|] == rest;
    FoundContains(directory, rest);
    var best := Best(directory, rest);
    if best.Some? {
      WeightIsLess(best.value.0);
      assert best.value.0 in multiset(roots);
      assert |Trimmed(best.value.0)| <= |Trimmed(x)|;
      if |Trimmed(best.value.0)| == |Trimmed(x)| {
        assert Longest(directory, roots, best.value.0);
      }
    }
    assert Best(directory, rest + [x]).value.0 == x;
    assert Best(directory, order).value.0 == y;
    assert order[|rest|] == x;
  }

  lemma TakeOutTwo(s: seq<string>, x: string, y: string) returns (rest: seq<string>)
    requires x in s && y in s && x != y
    ensures multiset(rest) + multiset{x} + multiset{y} == multiset(s)
  {
    var j :| 0 <= j < |s| && s[j] == x;
    var most := s[..j] + s[j + 1..];
    WithoutOne(s, j);
    assert y in multiset(most);
    var k :| 0 <= k < |most| && most[k] == y;
    WithoutOne(most, k);
    rest := most[..k] + most[k + 1..];
  }

  /** The longest of the workspaces around a directory is found in whatever order they come if and only if a longest
      one is weighed in full, or no longest one can be misjudged for another. */
  lemma LongestInAnyOrder(directory: string, roots: seq<string>)
    ensures (forall order :: multiset(order) == multiset(roots) ==> FindsLongest(directory, order))
       <==> Unmistakable(directory, roots)
  {
    if Unmistakable(directory, roots) {
      forall order | multiset(order) == multiset(roots) ensures FindsLongest(directory, order) {
        SameSets(directory, roots, order);
        UnmistakableIsFound(directory, order);
      }
    } else {
      var x, y :| Longest(directory, roots, x) && y in roots && Contains(y, directory) && Misjudged(x, y);
      forall z | Longest(directory, roots, z) ensures Weight(z) < |Trimmed(z)| {
        WeightIsLess(z);
      }
      var order := ShorterIsFound(directory, roots, x, y);
      assert multiset(order) == multiset(roots);
    }
  }

  lemma SameSets(directory: string, roots: seq<string>, order: seq<string>)
    requires multiset(order) == multiset(roots)
    ensures Unmistakable(directory, order) <==> Unmistakable(directory, roots)
  {
    hide Longest, Misjudged, Contains, Weight, Trimmed;
    forall x ensures (Longest(directory, order, x) <==> Longest(directory, roots, x)) && (x in order <==> x in roots) {
      SameLongest(directory, roots, order, x);
      assert x in multiset(order) <==> x in multiset(roots);
    }
  }

  /** And whenever two of them can, there is an order in which the shorter one is found. */
  lemma ShortestCanBeFound(directory: string, heavy: string, light: string)
    requires Contains(heavy, directory) && Contains(light, directory) && Misjudged(heavy, light)
    ensures Best(directory, [heavy, light]) == Some((light, Under(directory, light).value))
    ensures !Longest(directory, [heavy, light], light)
  {
    OneRoot(directory, heavy);
    assert [heavy, light][..1] == [heavy];
    assert [heavy, light][0] == heavy;
  }

  /** It happens with workspaces that are nothing but slashes: a directory under the longer one is said to
      lie under the shorter. */
  lemma OnlySlashesAreMisjudged(heavy: string, light: string)
    requires 0 < |light| < |heavy| && forall i :: 0 <= i < |heavy| ==> heavy[i] == '/'
    requires light == heavy[..|light|]
    ensures Misjudged(heavy, light)
    ensures var found := Best(heavy + "/x", [heavy, light]); found.Some? && found.value.0 == light
  {
    hide RStrip, Strip, Best;
    TrimmedOf(heavy);
    TrimmedOf(light);
    var directory := heavy + "/x";
    assert directory[..|heavy|] == heavy && directory[..|light|] == light;
    assert directory[|heavy|] == '/' && directory[|light|] == '/';
    ShortestCanBeFound(directory, heavy, light);
  }

  // ---------- what lies under a workspace ----------

  predicate CapitalOf(c: char, d: char) {
    'A' <= c <= 'Z' && d as int == c as int + 32
  }

  /** Equal but for the case of letters. */
  predicate SameButCase(a: string, b: string) {
    |a| == |b| && forall k :: 0 <= k < |a| ==> a[k] == b[k] || CapitalOf(a[k], b[k]) || CapitalOf(b[k], a[k])
  }

  lemma LowerFoldsCase(a: string, b: string)
    ensures Lower(a) == Lower(b) <==> SameButCase(a, b)
  {
    if Lower(a) == Lower(b) {
      assert |a| == |Lower(a)| == |Lower(b)| == |b|;
      forall k | 0 <= k < |a| ensures a[k] == b[k] || CapitalOf(a[k], b[k]) || CapitalOf(b[k], a[k]) {
        assert Lower(a)[k] == LowerChar(a[k]) && Lower(b)[k] == LowerChar(b[k]);
      }
    }
  }

  /** Alike to the workspace: letter by letter, or, on Windows, up to the case of the letters. */
  predicate Alike(root: string, a: string, b: string) {
    if WindowsRoot(root) then SameButCase(a, b) else a == b
  }

  /** A directory lies under a workspace if and only if it is the workspace, less the separators at its end, or goes on
      behind it with a separator. */
  lemma UnderExactly(directory: string, root: string)
    ensures var (t, n) := (Trimmed(root), |Trimmed(root)|);
            Contains(root, directory)
            <==> || Alike(root, directory, t)
                 || (&& n < |directory| && Alike(root, directory[..n], t)
                     && (directory[n] == '/' || (directory[n] == '\\' && WindowsRoot(root))))
  {
    var t, n := Trimmed(root), |Trimmed(root)|;
    LowerFoldsCase(directory, t);
    if n < |directory| {
      LowerFoldsCase(directory[..n], t);
      assert Lower(directory)[..n] == Lower(directory[..n]);
      hide RStrip, Lower, Strip, SameButCase;
    }
  }

  lemma {:induction false} RStripFolds(s: string, u: string)
    requires Lower(s) == Lower(u)
    ensures |RStrip(s, AnySlash)| == |RStrip(u, AnySlash)|
  {
    assert |s| == |Lower(s)| == |Lower(u)| == |u|;
    if s != [] {
      var n := |s| - 1;
      assert Lower(s)[n] == LowerChar(s[n]) && Lower(u)[n] == LowerChar(u[n]);
      assert Lower(s[..n]) == Lower(s)[..n] && Lower(u[..n]) == Lower(u)[..n];
      RStripFolds(s[..n], u[..n]);
    }
  }

  lemma WindowsFolds(root: string, other: string)
    requires Lower(root) == Lower(other)
    ensures WindowsRoot(root) <==> WindowsRoot(other)
  {
    assert |root| == |Lower(root)| == |Lower(other)| == |other|;
    forall k | 0 <= k < |root| ensures LowerChar(root[k]) == LowerChar(other[k]) {
      assert Lower(root)[k] == Lower(other)[k];
    }
  }

  lemma UnderFolds(directory: string, root: string, other: string, cased: string)
    requires WindowsRoot(root) && WindowsRoot(other) && Lower(Trimmed(root)) == Lower(Trimmed(other))
    requires Lower(directory) == Lower(cased)
    requires var n := |Trimmed(root)|; n < |directory| && |cased| == |directory| ==> cased[n..] == directory[n..]
    ensures Under(cased, other) == Under(directory, root)
  {
    var n := |Trimmed(root)|;
    assert n == |Lower(Trimmed(root))| == |Lower(Trimmed(other))| == |Trimmed(other)|;
    assert |directory| == |Lower(directory)| == |Lower(cased)| == |cased|;
    hide Trimmed, WindowsRoot, Strip, Lower, Swap;
    if n < |directory| {
      assert directory[n] == directory[n..][0] == cased[n..][0] == cased[n];
      assert directory[n + 1..] == directory[n..][1..] == cased[n..][1..] == cased[n + 1..];
    }
  }

  /** The case of a Windows workspace makes no difference, nor does that of the directory as far as it is the
      workspace's. */
  lemma CaseMakesNoDifference(directory: string, root: string, other: string, cased: string)
    requires WindowsRoot(root) && SameButCase(other, root) && SameButCase(cased, directory)
    requires var n := |Trimmed(root)|; n < |directory| && |cased| == |directory| ==> cased[n..] == directory[n..]
    ensures Under(cased, other) == Under(directory, root)
  {
    LowerFoldsCase(other, root);
    LowerFoldsCase(cased, directory);
    hide SameButCase;
    WindowsFolds(root, other);
    RStripFolds(root, other);
    hide Under;
    TrimmedOf(root);
    TrimmedOf(other);
    assert |root| == |Lower(root)| == |Lower(other)| == |other|;
    var n := |Trimmed(root)|;
    assert |Trimmed(other)| == n && Trimmed(root) == root[..n] && Trimmed(other) == other[..n];
    assert Lower(root[..n]) == Lower(root)[..n] && Lower(other[..n]) == Lower(other)[..n];
    UnderFolds(directory, root, other, cased);
  }
}
