/**
 The structured transition check: which object paths changed between two documents, less an
 exact allow-list.  A leaf stands for any value that is not an object, up to equality.
 */
module StructuredDiff {
  import opened Options
  import opened Ordering

  datatype Value = Leaf(token: int) | Obj(fields: map<string, Value>)

  type Path = seq<string>

  // ----- sorted keys

  /** The elements of a set in some order. */
  ghost function Listing(s: set<string>): (r: seq<string>)
    ensures multiset(r) == multiset(s)
    decreases |s|
  {
    if s == {} then []
    else
      var k :| k in s;
      assert s == (s - {k}) + {k};
      [k] + Listing(s - {k})
  }

  ghost function SortedKeys(s: set<string>): seq<string> {
    Sort(Listing(s), StringAtMost)
  }

  lemma StringOrderIsTotal()
    ensures TotalPreorder(StringAtMost)
  {
    forall a, b ensures StringAtMost(a, b) || StringAtMost(b, a) {
      StringLessIsTotal(a, b);
    }
    forall a, b, c | StringAtMost(a, b) && StringAtMost(b, c) ensures StringAtMost(a, c) {
      if StringLess(a, b) && StringLess(b, c) {
        StringLessIsTransitive(a, b, c);
      }
    }
  }

  /** Whatever order a set is listed in, sorting gives the same keys. */
  lemma ListingIsIrrelevant(listing: seq<string>, s: set<string>)
    requires multiset(listing) == multiset(s)
    ensures Sort(listing, StringAtMost) == SortedKeys(s)
  {
    StringOrderIsTotal();
    forall a, b | a in listing && b in listing && StringAtMost(a, b) && StringAtMost(b, a) ensures a == b {
      StringLessIsTotal(a, b);
    }
    SortIsOrderIndependent(listing, Listing(s), StringAtMost);
  }

  lemma SortedKeysHold(s: set<string>)
    ensures multiset(SortedKeys(s)) == multiset(s)
    ensures forall k :: k in SortedKeys(s) <==> k in s
    ensures forall i, j :: 0 <= i < j < |SortedKeys(s)| ==> SortedKeys(s)[i] != SortedKeys(s)[j]
  {
    StringOrderIsTotal();
    SortSorts(Listing(s), StringAtMost);
    var keys := SortedKeys(s);
    assert forall k :: k in keys <==> k in multiset(keys);
    forall i, j | 0 <= i < j < |keys| ensures keys[i] != keys[j] {
      if keys[i] == keys[j] {
        OccursTwice(keys, i, j);
      }
    }
  }

  // ----- the diff

  function Prepend(k: string, paths: seq<Path>): (r: seq<Path>)
    ensures |r| == |paths| && forall i :: 0 <= i < |r| ==> r[i] == [k] + paths[i]
  {
    if paths == [] then [] else [[k] + paths[0]] + Prepend(k, paths[1..])
  }

  /** The changed paths, relative to the two values, in the order they are visited. */
  ghost function Diff(left: Value, right: Value): seq<Path>
    decreases left, 1, 0
  {
    if left.Obj? && right.Obj? then DiffKeys(left, right, SortedKeys(left.fields.Keys + right.fields.Keys))
    else if left != right then [[]]
    else []
  }

  ghost function DiffKeys(left: Value, right: Value, keys: seq<string>): seq<Path>
    requires left.Obj? && right.Obj?
    decreases left, 0, |keys|
  {
    if keys == [] then [] else DiffKey(left, right, keys[0]) + DiffKeys(left, right, keys[1..])
  }

  ghost function DiffKey(left: Value, right: Value, k: string): seq<Path>
    requires left.Obj? && right.Obj?
    decreases left, 0, 0
  {
    if k !in left.fields || k !in right.fields then [[k]]
    else Prepend(k, Diff(left.fields[k], right.fields[k]))
  }

  function Under(path: Path, paths: seq<Path>): (r: seq<Path>)
    ensures |r| == |paths| && forall i :: 0 <= i < |r| ==> r[i] == path + paths[i]
  {
    if paths == [] then [] else [path + paths[0]] + Under(path, paths[1..])
  }

  /** The visit as it is written: a recursion that appends to one shared list. */
  class Visitor {
    var changed: seq<Path>

    constructor ()
      ensures changed == []
    {
      changed := [];
    }

    method Visit(left: Value, right: Value, path: Path)
      modifies this
      ensures changed == old(changed) + Under(path, Diff(left, right))
      decreases left, 1
    {
      if left.Obj? && right.Obj? {
        var keys := KeyUnion(left.fields.Keys + right.fields.Keys);
        VisitKeys(left, right, path, keys);
      } else if left != right {
        changed := changed + [path];
        UnderOne(path, []);
      }
    }

    method VisitKeys(left: Value, right: Value, path: Path, keys: seq<string>)
      requires left.Obj? && right.Obj?
      modifies this
      ensures changed == old(changed) + Under(path, DiffKeys(left, right, keys))
      decreases left, 0, 1
    {
      for i := 0 to |keys|
        invariant changed == old(changed) + Visited(left, right, path, keys, i)
      {
        ghost var before := Visited(left, right, path, keys, i);
        VisitedStep(left, right, path, keys, i);
        VisitKey(left, right, path, keys[i]);
        Regroup(old(changed), before, Under(path, DiffKey(left, right, keys[i])));
      }
      assert keys[..|keys|] == keys;
    }

    method VisitKey(left: Value, right: Value, path: Path, key: string)
      requires left.Obj? && right.Obj?
      modifies this
      ensures changed == old(changed) + Under(path, DiffKey(left, right, key))
      decreases left, 0, 0
    {
      if key !in left.fields || key !in right.fields {
        UnderOne(path, [key]);
        changed := changed + [path + [key]];
      } else {
        UnderKey(path, key, Diff(left.fields[key], right.fields[key]));
        Visit(left.fields[key], right.fields[key], path + [key]);
      }
    }
  }

  lemma Regroup(a: seq<Path>, b: seq<Path>, c: seq<Path>)
    ensures (a + b) + c == a + (b + c)
  {
  }

  /** What the first n keys contribute. */
  ghost function Visited(left: Value, right: Value, path: Path, keys: seq<string>, n: nat): seq<Path>
    requires left.Obj? && right.Obj? && n <= |keys|
  {
    Under(path, DiffKeys(left, right, keys[..n]))
  }

  lemma VisitedStep(left: Value, right: Value, path: Path, keys: seq<string>, n: nat)
    requires left.Obj? && right.Obj? && n < |keys|
    ensures Visited(left, right, path, keys, n + 1)
            == Visited(left, right, path, keys, n) + Under(path, DiffKey(left, right, keys[n]))
  {
    DiffKeysSnoc(left, right, keys, n);
    UnderSplits(path, DiffKeys(left, right, keys[..n]), DiffKey(left, right, keys[n]));
  }

  lemma UnderOne(path: Path, rest: Path)
    ensures Under(path, [rest]) == [path + rest]
    ensures path + [] == path
  {
  }

  lemma UnderNothing(paths: seq<Path>)
    ensures Under([], paths) == paths
  {
    forall i | 0 <= i < |paths| ensures Under([], paths)[i] == paths[i] {
      assert [] + paths[i] == paths[i];
    }
  }

  method KeyUnion(s: set<string>) returns (keys: seq<string>)
    ensures keys == SortedKeys(s)
  {
    var listing, rest := [], s;
    while rest != {}
      invariant multiset(listing) + multiset(rest) == multiset(s)
      decreases |rest|
    {
      var k :| k in rest;
      assert rest == (rest - {k}) + {k};
      listing, rest := listing + [k], rest - {k};
    }
    ListingIsIrrelevant(listing, s);
    keys := Sort(listing, StringAtMost);
  }

  lemma UnderKey(path: Path, k: string, paths: seq<Path>)
    ensures Under(path + [k], paths) == Under(path, Prepend(k, paths))
  {
    forall i | 0 <= i < |paths| ensures Under(path + [k], paths)[i] == Under(path, Prepend(k, paths))[i] {
      assert path + [k] + paths[i] == path + ([k] + paths[i]);
    }
  }

  lemma UnderSplits(path: Path, a: seq<Path>, b: seq<Path>)
    ensures Under(path, a + b) == Under(path, a) + Under(path, b)
  {
  }

  lemma {:induction false} DiffKeysSplits(left: Value, right: Value, a: seq<string>, b: seq<string>)
    requires left.Obj? && right.Obj?
    ensures DiffKeys(left, right, a + b) == DiffKeys(left, right, a) + DiffKeys(left, right, b)
    decreases |a|
  {
    if a == [] {
      assert a + b == b;
    } else {
      assert (a + b)[1..] == a[1..] + b;
      DiffKeysSplits(left, right, a[1..], b);
    }
  }

  lemma DiffKeysSnoc(left: Value, right: Value, keys: seq<string>, i: nat)
    requires left.Obj? && right.Obj? && i < |keys|
    ensures DiffKeys(left, right, keys[..i + 1]) == DiffKeys(left, right, keys[..i]) + DiffKey(left, right, keys[i])
  {
    assert keys[..i + 1] == keys[..i] + [keys[i]];
    DiffKeysSplits(left, right, keys[..i], [keys[i]]);
    assert DiffKeys(left, right, [keys[i]]) == DiffKey(left, right, keys[i]) + DiffKeys(left, right, []);
  }

  // ----- the allow-list

  ghost function Unlisted(paths: seq<Path>, allowed: set<Path>): seq<Path> {
    if paths == [] then []
    else
      var last := paths[|paths| - 1];
      Unlisted(paths[..|paths| - 1], allowed) + if last in allowed then [] else [last]
  }

  datatype Failure = RootsMustBeObjects

  method StructuredTransitionDrift(baseline: Value, candidate: Value, allowed: set<Path>)
    returns (r: Result<seq<Path>, Failure>)
    ensures r == if baseline.Obj? && candidate.Obj? then Ok(Unlisted(Diff(baseline, candidate), allowed))
                 else Err(RootsMustBeObjects)
  {
    if !baseline.Obj? || !candidate.Obj? {
      return Err(RootsMustBeObjects);
    }
    var visitor := new Visitor();
    visitor.Visit(baseline, candidate, []);
    var changed := visitor.changed;
    UnderNothing(Diff(baseline, candidate));
    assert changed == Diff(baseline, candidate);
    var drift := WithoutAllowed(changed, allowed);
    return Ok(drift);
  }

  method WithoutAllowed(changed: seq<Path>, allowed: set<Path>) returns (drift: seq<Path>)
    ensures drift == Unlisted(changed, allowed)
  {
    drift := [];
    for i := 0 to |changed|
      invariant drift == Unlisted(changed[..i], allowed)
    {
      assert changed[..i + 1][..i] == changed[..i];
      if changed[i] !in allowed {
        drift := drift + [changed[i]];
      }
    }
    assert changed[..|changed|] == changed;
  }
}
