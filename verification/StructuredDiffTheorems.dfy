/** What the reported paths mean: exactly the frontier of change, none inside another, and enough to patch back. */
module StructuredDiffTheorems {
  import opened Options
  import opened Ordering
  import opened StructuredDiff

  // ----- exactly the frontier of change

  /** Both documents hold objects down to here, and here one lacks the key or the values differ. */
  ghost predicate Frontier(left: Value, right: Value, path: Path)
    decreases |path|
  {
    if path == [] then !(left.Obj? && right.Obj?) && left != right
    else
      && left.Obj? && right.Obj?
      && var k := path[0];
      if k in left.fields && k in right.fields then Frontier(left.fields[k], right.fields[k], path[1..])
      else (k in left.fields || k in right.fields) && path == [k]
  }

  lemma {:induction false} InDiffKeys(left: Value, right: Value, keys: seq<string>, path: Path)
    requires left.Obj? && right.Obj?
    ensures path in DiffKeys(left, right, keys) <==>
              exists i :: 0 <= i < |keys| && path in DiffKey(left, right, keys[i])
    decreases |keys|
  {
    if keys != [] {
      InDiffKeys(left, right, keys[1..], path);
      if path in DiffKeys(left, right, keys[1..]) {
        var i :| 0 <= i < |keys[1..]| && path in DiffKey(left, right, keys[1..][i]);
        assert keys[i + 1] == keys[1..][i];
      }
      if i :| 0 < i < |keys| && path in DiffKey(left, right, keys[i]) {
        assert keys[1..][i - 1] == keys[i];
      }
    }
  }

  /** Every path reported for a key starts with it. */
  lemma DiffKeyStartsWithKey(left: Value, right: Value, k: string, path: Path)
    requires left.Obj? && right.Obj? && path in DiffKey(left, right, k)
    ensures path != [] && path[0] == k
  {
  }

  lemma InPrepend(k: string, paths: seq<Path>, path: Path)
    ensures path in Prepend(k, paths) <==> path != [] && path[0] == k && path[1..] in paths
  {
    if path != [] && path[0] == k && path[1..] in paths {
      var i :| 0 <= i < |paths| && paths[i] == path[1..];
      assert path == [k] + path[1..];
      assert Prepend(k, paths)[i] == path;
    }
  }

  /** A path is reported exactly when it lies on the frontier of change. */
  lemma {:induction false} DiffIsFrontier(left: Value, right: Value, path: Path)
    ensures path in Diff(left, right) <==> Frontier(left, right, path)
    decreases |path|
  {
    if left.Obj? && right.Obj? {
      var union := left.fields.Keys + right.fields.Keys;
      var keys := SortedKeys(union);
      SortedKeysHold(union);
      InDiffKeys(left, right, keys, path);
      if path in Diff(left, right) {
        var i :| 0 <= i < |keys| && path in DiffKey(left, right, keys[i]);
        DiffKeyStartsWithKey(left, right, keys[i], path);
        assert keys[i] in union;
      }
      if path != [] && path[0] in union {
        KeyFrontier(left, right, path);
        assert path[0] in keys;
      }
    }
  }

  lemma {:induction false} KeyFrontier(left: Value, right: Value, path: Path)
    requires left.Obj? && right.Obj? && path != [] && path[0] in left.fields.Keys + right.fields.Keys
    ensures path in DiffKey(left, right, path[0]) <==> Frontier(left, right, path)
    decreases |path|, 0
  {
    var k := path[0];
    if k in left.fields && k in right.fields {
      InPrepend(k, Diff(left.fields[k], right.fields[k]), path);
      DiffIsFrontier(left.fields[k], right.fields[k], path[1..]);
    }
  }

  /** Nothing is reported exactly when the documents are equal. */
  lemma {:induction false} EmptyDiffMeansEqual(left: Value, right: Value)
    ensures Diff(left, right) == [] <==> left == right
  {
    if Diff(left, right) == [] {
      DiffPatches(left, right);
    }
    if left == right {
      SameHasNoFrontier(left);
    }
  }

  lemma SameHasNoFrontier(v: Value)
    ensures Diff(v, v) == []
  {
    if Diff(v, v) != [] {
      var path := Diff(v, v)[0];
      DiffIsFrontier(v, v, path);
      NoFrontier(v, path);
    }
  }

  lemma {:induction false} NoFrontier(v: Value, path: Path)
    ensures !Frontier(v, v, path)
    decreases |path|
  {
    if path != [] && v.Obj? && path[0] in v.fields {
      NoFrontier(v.fields[path[0]], path[1..]);
    }
  }

  // ----- no reported path lies inside another

  ghost predicate Antichain(paths: seq<Path>) {
    forall i, j :: 0 <= i < |paths| && 0 <= j < |paths| && i != j ==> !(paths[i] <= paths[j])
  }

  lemma {:induction false} AntichainOfFrontiers(left: Value, right: Value, p: Path, q: Path)
    requires Frontier(left, right, p) && Frontier(left, right, q) && p <= q
    ensures p == q
    decreases |p|
  {
    if p != [] {
      var k := p[0];
      assert q[0] == k;
      if k in left.fields && k in right.fields {
        assert p[1..] <= q[1..];
        AntichainOfFrontiers(left.fields[k], right.fields[k], p[1..], q[1..]);
        assert p == [k] + p[1..] && q == [k] + q[1..];
      }
    }
  }

  ghost predicate Distinct(paths: seq<Path>) {
    forall i, j :: 0 <= i < j < |paths| ==> paths[i] != paths[j]
  }

  lemma DistinctConcat(a: seq<Path>, b: seq<Path>)
    requires Distinct(a) && Distinct(b) && forall p :: p in a ==> p !in b
    ensures Distinct(a + b)
  {
    var c := a + b;
    forall i, j | 0 <= i < j < |c| ensures c[i] != c[j] {
      if i < |a| && j >= |a| {
        assert c[i] in a && c[j] in b;
      }
    }
  }

  lemma {:induction false} DiffIsDistinct(left: Value, right: Value)
    ensures Distinct(Diff(left, right))
    decreases left, 1, 0
  {
    if left.Obj? && right.Obj? {
      var keys := SortedKeys(left.fields.Keys + right.fields.Keys);
      SortedKeysHold(left.fields.Keys + right.fields.Keys);
      DiffKeysDistinct(left, right, keys);
    }
  }

  lemma {:induction false} DiffKeysDistinct(left: Value, right: Value, keys: seq<string>)
    requires left.Obj? && right.Obj? && forall i, j :: 0 <= i < j < |keys| ==> keys[i] != keys[j]
    ensures Distinct(DiffKeys(left, right, keys))
    decreases left, 0, |keys|
  {
    if keys != [] {
      var k, first := keys[0], DiffKey(left, right, keys[0]);
      if k in left.fields && k in right.fields {
        DiffIsDistinct(left.fields[k], right.fields[k]);
        var inner := Diff(left.fields[k], right.fields[k]);
        forall i, j | 0 <= i < j < |first| ensures first[i] != first[j] {
          assert first[i][1..] == inner[i] && first[j][1..] == inner[j];
        }
      }
      DiffKeysDistinct(left, right, keys[1..]);
      forall p | p in first ensures p !in DiffKeys(left, right, keys[1..]) {
        DiffKeyStartsWithKey(left, right, k, p);
        InDiffKeys(left, right, keys[1..], p);
        forall i | 0 <= i < |keys[1..]| ensures p !in DiffKey(left, right, keys[1..][i]) {
          if p in DiffKey(left, right, keys[1..][i]) {
            DiffKeyStartsWithKey(left, right, keys[1..][i], p);
          }
        }
      }
      DistinctConcat(first, DiffKeys(left, right, keys[1..]));
    }
  }

  /** The reported paths are pairwise not prefixes of each other. */
  lemma ReportedPathsAreAntichain(left: Value, right: Value)
    ensures Antichain(Diff(left, right))
  {
    var paths := Diff(left, right);
    DiffIsDistinct(left, right);
    forall i, j | 0 <= i < |paths| && 0 <= j < |paths| && i != j ensures !(paths[i] <= paths[j]) {
      if paths[i] <= paths[j] {
        DiffIsFrontier(left, right, paths[i]);
        DiffIsFrontier(left, right, paths[j]);
        AntichainOfFrontiers(left, right, paths[i], paths[j]);
      }
    }
  }

  // ----- in ascending order

  /** At the first key where two paths part, the earlier one has the smaller key. */
  predicate PathLess(p: Path, q: Path) {
    p != [] && q != [] && (StringLess(p[0], q[0]) || (p[0] == q[0] && PathLess(p[1..], q[1..])))
  }

  ghost predicate Ascending(paths: seq<Path>) {
    forall i, j :: 0 <= i < j < |paths| ==> PathLess(paths[i], paths[j])
  }

  lemma PrependAscends(k: string, paths: seq<Path>)
    requires Ascending(paths)
    ensures Ascending(Prepend(k, paths))
  {
    var r := Prepend(k, paths);
    forall i, j | 0 <= i < j < |r| ensures PathLess(r[i], r[j]) {
      assert r[i][1..] == paths[i] && r[j][1..] == paths[j];
    }
  }

  lemma AscendingConcat(a: seq<Path>, b: seq<Path>)
    requires Ascending(a) && Ascending(b) && forall p, q :: p in a && q in b ==> PathLess(p, q)
    ensures Ascending(a + b)
  {
    var c := a + b;
    forall i, j | 0 <= i < j < |c| ensures PathLess(c[i], c[j]) {
      if i < |a| && j >= |a| {
        assert c[i] in a && c[j] in b;
      }
    }
  }

  lemma {:induction false} DiffKeysAscend(left: Value, right: Value, keys: seq<string>)
    requires left.Obj? && right.Obj? && forall i, j :: 0 <= i < j < |keys| ==> StringLess(keys[i], keys[j])
    ensures Ascending(DiffKeys(left, right, keys))
    decreases left, 0, |keys|
  {
    if keys != [] {
      var k, first := keys[0], DiffKey(left, right, keys[0]);
      if k in left.fields && k in right.fields {
        ReportedPathsAscend(left.fields[k], right.fields[k]);
        PrependAscends(k, Diff(left.fields[k], right.fields[k]));
      }
      DiffKeysAscend(left, right, keys[1..]);
      forall p, q | p in first && q in DiffKeys(left, right, keys[1..]) ensures PathLess(p, q) {
        DiffKeyStartsWithKey(left, right, k, p);
        InDiffKeys(left, right, keys[1..], q);
        var i :| 0 <= i < |keys[1..]| && q in DiffKey(left, right, keys[1..][i]);
        DiffKeyStartsWithKey(left, right, keys[1..][i], q);
        assert keys[1..][i] == keys[i + 1];
      }
      AscendingConcat(first, DiffKeys(left, right, keys[1..]));
    }
  }

  /** The paths are reported in ascending order: the report is the sorted frontier. */
  lemma {:induction false} ReportedPathsAscend(left: Value, right: Value)
    ensures Ascending(Diff(left, right))
    decreases left, 1, 0
  {
    if left.Obj? && right.Obj? {
      var union := left.fields.Keys + right.fields.Keys;
      var keys := SortedKeys(union);
      SortedKeysHold(union);
      StringOrderIsTotal();
      SortSorts(Listing(union), StringAtMost);
      DiffKeysAscend(left, right, keys);
    }
  }

  lemma {:induction false} DriftAscends(paths: seq<Path>, allowed: set<Path>)
    requires Ascending(paths)
    ensures Ascending(Unlisted(paths, allowed))
    decreases |paths|
  {
    if paths != [] {
      var front, last := paths[..|paths| - 1], paths[|paths| - 1];
      DriftAscends(front, allowed);
      UnlistedHolds(front, allowed);
      if last !in allowed {
        AscendingConcat(Unlisted(front, allowed), [last]);
      }
    }
  }

  // ----- patching back

  /** The value at a path, if there is one. */
  function Lookup(v: Value, path: Path): Option<Value>
    decreases |path|
  {
    if path == [] then Some(v)
    else if v.Obj? && path[0] in v.fields then Lookup(v.fields[path[0]], path[1..])
    else None
  }

  /** Replaces, adds or removes what a path names, and nothing else. */
  function Edit(v: Value, path: Path, content: Option<Value>): Value
    decreases |path|
  {
    if path == [] then (if content.Some? then content.value else v)
    else if v.Leaf? then v
    else if |path| == 1 then
      if content.Some? then Obj(v.fields[path[0] := content.value]) else Obj(v.fields - {path[0]})
    else if path[0] in v.fields then Obj(v.fields[path[0] := Edit(v.fields[path[0]], path[1..], content)])
    else v
  }

  /** One edit after the other, each with the candidate's content. */
  function Patch(v: Value, candidate: Value, paths: seq<Path>): Value
    decreases |paths|
  {
    if paths == [] then v else Patch(Edit(v, paths[0], Lookup(candidate, paths[0])), candidate, paths[1..])
  }

  lemma {:induction false} PatchSplits(v: Value, candidate: Value, a: seq<Path>, b: seq<Path>)
    ensures Patch(v, candidate, a + b) == Patch(Patch(v, candidate, a), candidate, b)
    decreases |a|
  {
    if a == [] {
      assert a + b == b;
    } else {
      assert (a + b)[1..] == a[1..] + b;
      PatchSplits(Edit(v, a[0], Lookup(candidate, a[0])), candidate, a[1..], b);
    }
  }

  /** Edits below one key act on that key's value alone. */
  lemma {:induction false} PatchBelowKey(fields: map<string, Value>, candidate: Value, k: string, paths: seq<Path>)
    requires k in fields && candidate.Obj? && k in candidate.fields
    ensures Patch(Obj(fields), candidate, Prepend(k, paths))
            == Obj(fields[k := Patch(fields[k], candidate.fields[k], paths)])
    decreases |paths|
  {
    if paths == [] {
      assert fields[k := fields[k]] == fields;
    } else {
      var path := [k] + paths[0];
      assert path[1..] == paths[0];
      var edited := Edit(fields[k], paths[0], Lookup(candidate.fields[k], paths[0]));
      assert Edit(Obj(fields), path, Lookup(candidate, path)) == Obj(fields[k := edited]);
      assert Prepend(k, paths)[1..] == Prepend(k, paths[1..]);
      PatchBelowKey(fields[k := edited], candidate, k, paths[1..]);
      assert fields[k := edited][k := Patch(edited, candidate.fields[k], paths[1..])]
          == fields[k := Patch(edited, candidate.fields[k], paths[1..])];
    }
  }

  /** The fields with one key, or all given keys, taken from the candidate. */
  function Fixed(fields: map<string, Value>, candidate: map<string, Value>, k: string): map<string, Value> {
    if k in candidate then fields[k := candidate[k]] else fields - {k}
  }

  function FixedAll(fields: map<string, Value>, candidate: map<string, Value>, keys: seq<string>): map<string, Value>
    decreases |keys|
  {
    if keys == [] then fields else FixedAll(Fixed(fields, candidate, keys[0]), candidate, keys[1..])
  }

  ghost predicate AgreeAt(a: map<string, Value>, b: map<string, Value>, k: string) {
    (k in a <==> k in b) && (k in a ==> a[k] == b[k])
  }

  lemma {:induction false} FixedAllAgrees(fields: map<string, Value>, candidate: map<string, Value>, keys: seq<string>,
                                          k: string)
    ensures AgreeAt(FixedAll(fields, candidate, keys), if k in keys then candidate else fields, k)
    decreases |keys|
  {
    if keys != [] {
      FixedAllAgrees(Fixed(fields, candidate, keys[0]), candidate, keys[1..], k);
      assert keys == [keys[0]] + keys[1..];
    }
  }

  /** Taking every key from the candidate gives the candidate. */
  lemma FixedAllCovers(fields: map<string, Value>, candidate: map<string, Value>, keys: seq<string>)
    requires forall k :: k in fields || k in candidate ==> k in keys
    ensures FixedAll(fields, candidate, keys) == candidate
  {
    var fixed := FixedAll(fields, candidate, keys);
    forall k ensures (k in fixed <==> k in candidate) && (k in fixed ==> fixed[k] == candidate[k]) {
      FixedAllAgrees(fields, candidate, keys, k);
    }
  }

  lemma {:induction false} PatchKey(left: Value, right: Value, fields: map<string, Value>, k: string)
    requires left.Obj? && right.Obj? && AgreeAt(fields, left.fields, k)
    requires k in left.fields || k in right.fields
    ensures Patch(Obj(fields), right, DiffKey(left, right, k)) == Obj(Fixed(fields, right.fields, k))
    decreases left, 0, 0
  {
    if k in left.fields && k in right.fields {
      DiffPatches(left.fields[k], right.fields[k]);
      PatchBelowKey(fields, right, k, Diff(left.fields[k], right.fields[k]));
    } else {
      PatchOne(fields, right, k);
    }
  }

  lemma PatchOne(fields: map<string, Value>, right: Value, k: string)
    requires right.Obj?
    ensures Patch(Obj(fields), right, [[k]]) == Obj(Fixed(fields, right.fields, k))
  {
    var path := [k];
    assert Lookup(right, path) == if k in right.fields then Some(right.fields[k]) else None;
    assert [path][1..] == [];
  }

  lemma {:induction false} PatchKeys(left: Value, right: Value, fields: map<string, Value>, keys: seq<string>)
    requires left.Obj? && right.Obj?
    requires forall i :: 0 <= i < |keys| ==> AgreeAt(fields, left.fields, keys[i])
    requires forall i :: 0 <= i < |keys| ==> keys[i] in left.fields || keys[i] in right.fields
    requires forall i, j :: 0 <= i < j < |keys| ==> keys[i] != keys[j]
    ensures Patch(Obj(fields), right, DiffKeys(left, right, keys)) == Obj(FixedAll(fields, right.fields, keys))
    decreases left, 0, |keys|
  {
    if keys != [] {
      var k, rest := keys[0], keys[1..];
      PatchKey(left, right, fields, k);
      PatchSplits(Obj(fields), right, DiffKey(left, right, k), DiffKeys(left, right, rest));
      var next := Fixed(fields, right.fields, k);
      forall i | 0 <= i < |rest| ensures AgreeAt(next, left.fields, rest[i]) {
        assert rest[i] == keys[i + 1];
      }
      PatchKeys(left, right, next, rest);
    }
  }

  /** Replacing, adding or removing exactly the reported paths in the baseline yields the candidate. */
  lemma {:induction false} DiffPatches(left: Value, right: Value)
    ensures Patch(left, right, Diff(left, right)) == right
    decreases left, 1, 0
  {
    if left.Obj? && right.Obj? {
      var union := left.fields.Keys + right.fields.Keys;
      var keys := SortedKeys(union);
      SortedKeysHold(union);
      assert forall i :: 0 <= i < |keys| ==> keys[i] in union;
      assert forall k :: k in left.fields || k in right.fields ==> k in union;
      PatchKeys(left, right, left.fields, keys);
      FixedAllCovers(left.fields, right.fields, keys);
    } else if left != right {
      PatchRoot(left, right);
    }
  }

  lemma PatchRoot(left: Value, right: Value)
    ensures Patch(left, right, [[]]) == right
  {
    var root: Path := [];
    assert [root][1..] == [];
    assert Edit(left, root, Lookup(right, root)) == right;
  }

  // ----- the allow-list

  lemma {:induction false} UnlistedHolds(paths: seq<Path>, allowed: set<Path>)
    ensures forall p :: p in Unlisted(paths, allowed) <==> p in paths && p !in allowed
    decreases |paths|
  {
    if paths != [] {
      UnlistedHolds(paths[..|paths| - 1], allowed);
      assert paths == paths[..|paths| - 1] + [paths[|paths| - 1]];
    }
  }

  /** With an allow-list the drift is empty exactly when every changed path is listed. */
  lemma DriftIsEmptyExactly(baseline: Value, candidate: Value, allowed: set<Path>)
    ensures Unlisted(Diff(baseline, candidate), allowed) == [] <==>
              forall p :: Frontier(baseline, candidate, p) ==> p in allowed
  {
    var drift := Unlisted(Diff(baseline, candidate), allowed);
    UnlistedHolds(Diff(baseline, candidate), allowed);
    forall p ensures p in Diff(baseline, candidate) <==> Frontier(baseline, candidate, p) {
      DiffIsFrontier(baseline, candidate, p);
    }
    if drift != [] {
      assert drift[0] in drift;
    }
  }
}
