/** Paths as the program spells them: segments joined by dots. The tests it runs on strings agree
    with the prefix order on segment sequences, which the rest of the model uses.
    Models `_related` (xair/core/versioning.py) and `_Changed` (xair/core/context_store.py). */
module DottedPaths {
  import opened ContextTree

  predicate HasDot(s: string) { '.' in s }

  /** Segments a predicate can name: non-empty and without dots. */
  predicate Clean(p: Path) {
    p != [] && forall i | 0 <= i < |p| :: p[i] != "" && !HasDot(p[i])
  }

  function Join(p: Path): string {
    if p == [] then "" else if |p| == 1 then p[0] else p[0] + "." + Join(p[1..])
  }

  /** The text before the first dot. */
  function Head(s: string): (h: string)
    ensures h <= s && !HasDot(h)
    ensures |h| < |s| ==> s[|h|] == '.'
  {
    if s == "" || s[0] == '.' then "" else [s[0]] + Head(s[1..])
  }

  function Split(s: string): (p: Path)
    ensures p != []
    decreases |s|
  {
    var h := Head(s);
    if |h| == |s| then [h] else [h] + Split(s[|h| + 1..])
  }

  predicate StartsWith(s: string, prefix: string) { prefix <= s }

  /** `_related`, on strings. */
  predicate RelatedText(a: string, b: string) {
    a == b || StartsWith(a, b + ".") || StartsWith(b, a + ".")
  }

  /** `_Changed.related`: membership in the changed paths, in their proper prefixes, or of a proper
      prefix in the changed paths. */
  ghost predicate IndexRelated(changed: set<string>, path: string) {
    || path in changed
    || (exists c, i :: c in changed && 0 <= i < |c| && c[i] == '.' && c[..i] == path)
    || (exists i :: 0 <= i < |path| && path[i] == '.' && path[..i] in changed)
  }

  lemma ExtensionIff(c: string, path: string)
    ensures StartsWith(c, path + ".") <==> |path| < |c| && c[|path|] == '.' && c[..|path|] == path
  {
  }

  lemma IndexFinds(changed: set<string>, path: string, c: string)
    requires c in changed && RelatedText(c, path)
    ensures IndexRelated(changed, path)
  {
    ExtensionIff(c, path);
    ExtensionIff(path, c);
  }

  lemma IndexIsSound(changed: set<string>, path: string) returns (c: string)
    requires IndexRelated(changed, path)
    ensures c in changed && RelatedText(c, path)
  {
    if path in changed {
      c := path;
    } else if d, i :| d in changed && 0 <= i < |d| && d[i] == '.' && d[..i] == path {
      c := d;
      ExtensionIff(c, path);
    } else {
      var i :| 0 <= i < |path| && path[i] == '.' && path[..i] in changed;
      c := path[..i];
      ExtensionIff(path, c);
    }
  }

  /** The indexed test finds exactly the changes the pairwise test finds, for any strings. */
  lemma IndexIsExact(changed: set<string>, path: string)
    ensures IndexRelated(changed, path) <==> exists c :: c in changed && RelatedText(c, path)
  {
    if c :| c in changed && RelatedText(c, path) {
      IndexFinds(changed, path, c);
    }
    if IndexRelated(changed, path) {
      var c := IndexIsSound(changed, path);
    }
  }

  lemma {:induction false} HeadOf(h: string, rest: string)
    requires !HasDot(h)
    requires rest == "" || rest[0] == '.'
    ensures Head(h + rest) == h
    decreases |h|
  {
    if h == "" {
      assert h + rest == rest;
    } else {
      assert h == [h[0]] + h[1..];
      assert h[0] in h && forall c :: c in h[1..] ==> c in h;
      HeadOf(h[1..], rest);
      assert (h + rest)[1..] == h[1..] + rest;
    }
  }

  /** Related paths share their first segment, so an index by first segment misses nothing. */
  lemma RelatedShareHead(a: string, b: string)
    requires RelatedText(a, b)
    ensures Head(a) == Head(b)
  {
    if StartsWith(a, b + ".") {
      ExtensionKeepsHead(a, b);
    } else if StartsWith(b, a + ".") {
      ExtensionKeepsHead(b, a);
    }
  }

  lemma ExtensionKeepsHead(a: string, b: string)
    requires StartsWith(a, b + ".")
    ensures Head(a) == Head(b)
  {
  }

  lemma JoinSteps(p: Path)
    requires Clean(p)
    ensures Join(p) == p[0] + (if |p| == 1 then "" else "." + Join(p[1..]))
    ensures Head(Join(p)) == p[0]
    ensures |p| > 1 ==> Clean(p[1..])
  {
    var rest := if |p| == 1 then "" else "." + Join(p[1..]);
    assert Join(p) == p[0] + rest;
    HeadOf(p[0], rest);
  }

  lemma SplitSteps(s: string, h: string)
    requires h == Head(s) && |h| < |s|
    ensures Split(s) == [h] + Split(s[|h| + 1..])
  {
  }

  /** Splitting undoes joining. */
  lemma {:induction false} SplitJoin(p: Path)
    requires Clean(p)
    ensures Split(Join(p)) == p
    decreases |p|
  {
    JoinSteps(p);
    if |p| > 1 {
      assert Join(p)[|p[0]| + 1..] == Join(p[1..]);
      SplitJoin(p[1..]);
      SplitSteps(Join(p), p[0]);
      assert p == [p[0]] + p[1..];
    } else {
      assert p == [p[0]];
    }
  }

  lemma JoinIsInjective(a: Path, b: Path)
    requires Clean(a) && Clean(b) && Join(a) == Join(b)
    ensures a == b
  {
    SplitJoin(a);
    SplitJoin(b);
  }

  /** A dotted string extends another exactly when its path properly extends the other path. */
  lemma {:induction false} JoinPrefix(a: Path, b: Path)
    requires Clean(a) && Clean(b)
    ensures StartsWith(Join(a), Join(b) + ".") <==> b < a
    decreases |b|
  {
    JoinSteps(a);
    JoinSteps(b);
    var x, y := Join(a), Join(b) + ".";
    if a[0] != b[0] {
      if StartsWith(x, y) {
        ExtensionKeepsHead(x, Join(b));
      }
    } else if |a| == 1 {
      assert |y| > |x|;
    } else if |b| == 1 {
      assert x[..|y|] == y;
    } else {
      var n := |a[0]| + 1;
      assert x == (a[0] + ".") + Join(a[1..]) && y == (a[0] + ".") + (Join(b[1..]) + ".");
      assert x[n..] == Join(a[1..]) && y[n..] == Join(b[1..]) + ".";
      assert x[..n] == y[..n];
      JoinPrefix(a[1..], b[1..]);
      assert a == [a[0]] + a[1..] && b == [b[0]] + b[1..];
      assert StartsWith(x, y) <==> StartsWith(x[n..], y[n..]) by {
        PrefixSplit(x, y, n);
      }
    }
  }

  lemma PrefixSplit(x: string, y: string, n: nat)
    requires n <= |x| && n <= |y| && x[..n] == y[..n]
    ensures y <= x <==> y[n..] <= x[n..]
  {
  }

  /** The string test and the segment test agree on every pair of clean paths. */
  lemma RelatedAgrees(a: Path, b: Path)
    requires Clean(a) && Clean(b)
    ensures RelatedText(Join(a), Join(b)) <==> Related(a, b)
  {
    JoinPrefix(a, b);
    JoinPrefix(b, a);
    if Join(a) == Join(b) {
      JoinIsInjective(a, b);
    }
  }
}
