/** Checkpoint rows: what rewinding to each turn would restore.

A rewind reverts every file touched in its turn or any later one, so a backward pass accumulates,
per turn, the union of files, a short sorted preview of it, and whether all of it can be undone.
*/
module Checkpoints {

  const CHECKPOINT_FILE_PREVIEW_LIMIT: nat := 60

  /** Byte order of paths. */
  predicate Less(a: string, b: string) {
    b != "" && (a == "" || a[0] < b[0] || (a[0] == b[0] && Less(a[1..], b[1..])))
  }

  lemma {:induction false} LessTransitive(a: string, b: string, c: string)
    requires Less(a, b) && Less(b, c)
    ensures Less(a, c)
  {
    if a != "" && a[0] == b[0] && b[0] == c[0] {
      LessTransitive(a[1..], b[1..], c[1..]);
    }
  }

  lemma {:induction false} LessTotal(a: string, b: string)
    ensures a == b || Less(a, b) || Less(b, a)
    ensures !(Less(a, b) && Less(b, a)) && !Less(a, a)
  {
    if a != "" && b != "" && a[0] == b[0] {
      LessTotal(a[1..], b[1..]);
      assert a == [a[0]] + a[1..] && b == [b[0]] + b[1..];
    }
    if a != "" {
      LessTotal(a[1..], a[1..]);
    }
  }

  ghost predicate Sorted(s: seq<string>) {
    forall i, j | 0 <= i < j < |s| :: Less(s[i], s[j])
  }

  /** `preview` lists, in order, the `limit` smallest paths of `files`, or all when there are fewer. */
  ghost predicate Smallest(preview: seq<string>, files: set<string>, limit: nat) {
    Sorted(preview) && |preview| <= limit &&
    (forall p | p in preview :: p in files) &&
    (forall f | f in files && f !in preview :: |preview| == limit && forall p | p in preview :: Less(p, f))
  }

  /** A preview is determined by its set of files and the limit. */
  lemma {:induction false} SmallestUnique(a: seq<string>, b: seq<string>, files: set<string>, limit: nat)
    requires Smallest(a, files, limit) && Smallest(b, files, limit)
    ensures a == b
  {
    if |a| <= |b| {
      SmallestPrefix(a, b, files, limit, |a|);
    } else {
      SmallestPrefix(b, a, files, limit, |b|);
    }
    if |a| < |b| {
      assert b[|a|] in b && b[|a|] !in a by {
        if b[|a|] in a {
          var i :| 0 <= i < |a| && a[i] == b[|a|];
          LessTotal(b[i], b[|a|]);
        }
      }
    } else if |b| < |a| {
      assert a[|b|] in a && a[|b|] !in b by {
        if a[|b|] in b {
          var i :| 0 <= i < |b| && b[i] == a[|b|];
          LessTotal(a[i], a[|b|]);
        }
      }
    }
  }

  lemma {:induction false} SmallestPrefix(a: seq<string>, b: seq<string>, files: set<string>, limit: nat, n: nat)
    requires Smallest(a, files, limit) && Smallest(b, files, limit) && n <= |a| <= |b|
    ensures a[..n] == b[..n]
  {
    if n > 0 {
      SmallestPrefix(a, b, files, limit, n - 1);
      AtPosition(a, b, files, limit, n - 1);
      AtPosition(b, a, files, limit, n - 1);
      LessTotal(a[n - 1], b[n - 1]);
      assert a[..n] == a[..n - 1] + [a[n - 1]] && b[..n] == b[..n - 1] + [b[n - 1]];
    }
  }

  /** Two previews that agree before `i` cannot have the second smaller at `i`. */
  lemma AtPosition(a: seq<string>, b: seq<string>, files: set<string>, limit: nat, i: nat)
    requires Smallest(a, files, limit) && Smallest(b, files, limit) && i < |a| && i < |b| && a[..i] == b[..i]
    ensures !Less(b[i], a[i])
  {
    if Less(b[i], a[i]) {
      if b[i] in a {
        var j :| 0 <= j < |a| && a[j] == b[i];
        if j < i {
          assert a[..i][j] == b[..i][j];
          LessTotal(b[j], b[i]);
        } else {
          LessTotal(a[i], b[i]);
        }
      } else {
        assert Less(a[i], b[i]);
        LessTotal(a[i], b[i]);
      }
    }
  }

  /** The least index at which `path` could stand in a sorted list. */
  method SearchStrings(s: seq<string>, path: string) returns (i: nat)
    requires Sorted(s)
    ensures i <= |s| && (forall k | 0 <= k < i :: Less(s[k], path)) && forall k | i <= k < |s| :: !Less(s[k], path)
  {
    var lo, up := 0, |s|;
    while lo < up
      invariant lo <= up <= |s|
      invariant forall k | 0 <= k < lo :: Less(s[k], path)
      invariant forall k | up <= k < |s| :: !Less(s[k], path)
    {
      var mid := (lo + up) / 2;
      if !Less(s[mid], path) {
        forall k | mid <= k < |s| ensures !Less(s[k], path) {
          if k > mid && Less(s[k], path) {
            LessTransitive(s[mid], s[k], path);
          }
        }
        up := mid;
      } else {
        forall k | 0 <= k < mid ensures Less(s[k], path) {
          LessTransitive(s[k], s[mid], path);
        }
        lo := mid + 1;
      }
    }
    return lo;
  }

  method InsertCheckpointFilePreview(preview: seq<string>, path: string, limit: nat, ghost files: set<string>)
    returns (r: seq<string>)
    requires Smallest(preview, files, limit)
    ensures Smallest(r, if path == "" then files else files + {path}, limit)
  {
    if limit == 0 || path == "" {
      return preview;
    }
    var idx := SearchStrings(preview, path);
    if idx < |preview| && preview[idx] == path {
      assert files + {path} == files;
      return preview;
    }
    SearchedNotFound(preview, path, idx);
    PathAfter(preview, path, idx);
    if |preview| < limit {
      r := preview[..idx] + [path] + preview[idx..];
      InsertedSmallest(preview, path, idx, files, limit);
      return;
    }
    if idx >= limit {
      return preview;
    }
    r := preview[..idx] + [path] + preview[idx..limit - 1];
    ReplacedSmallest(preview, path, idx, files, limit);
  }

  lemma SearchedNotFound(preview: seq<string>, path: string, idx: nat)
    requires Sorted(preview) && idx <= |preview| && (idx < |preview| ==> preview[idx] != path)
    requires (forall k | 0 <= k < idx :: Less(preview[k], path)) && forall k | idx <= k < |preview| :: !Less(preview[k], path)
    ensures path !in preview
  {
    LessTotal(path, path);
    forall k | 0 <= k < |preview| ensures preview[k] != path {
      if k > idx {
        assert Less(preview[idx], preview[k]);
      }
    }
  }

  lemma PathAfter(preview: seq<string>, path: string, idx: nat)
    requires path !in preview && idx <= |preview| && forall k | idx <= k < |preview| :: !Less(preview[k], path)
    ensures forall k | idx <= k < |preview| :: Less(path, preview[k])
  {
    forall k | idx <= k < |preview| ensures Less(path, preview[k]) {
      LessTotal(path, preview[k]);
    }
  }

  lemma InsertedSorted(preview: seq<string>, path: string, idx: nat)
    requires Sorted(preview) && idx <= |preview|
    requires forall k | 0 <= k < idx :: Less(preview[k], path)
    requires forall k | idx <= k < |preview| :: Less(path, preview[k])
    ensures var r := preview[..idx] + [path] + preview[idx..];
            Sorted(r) && forall p :: p in r <==> p in preview || p == path
  {
    var r := preview[..idx] + [path] + preview[idx..];
    forall p | p in preview ensures p in r {
      var k :| 0 <= k < |preview| && preview[k] == p;
      assert r[if k < idx then k else k + 1] == p;
    }
    assert r[idx] == path;
  }

  lemma InsertedSmallest(preview: seq<string>, path: string, idx: nat, files: set<string>, limit: nat)
    requires Smallest(preview, files, limit) && |preview| < limit && idx <= |preview|
    requires forall k | 0 <= k < idx :: Less(preview[k], path)
    requires forall k | idx <= k < |preview| :: Less(path, preview[k])
    ensures Smallest(preview[..idx] + [path] + preview[idx..], files + {path}, limit)
  {
    InsertedSorted(preview, path, idx);
  }

  lemma ReplacedSmallest(preview: seq<string>, path: string, idx: nat, files: set<string>, limit: nat)
    requires Smallest(preview, files, limit) && |preview| == limit && idx < limit
    requires forall k | 0 <= k < idx :: Less(preview[k], path)
    requires forall k | idx <= k < |preview| :: Less(path, preview[k])
    ensures Smallest(preview[..idx] + [path] + preview[idx..limit - 1], files + {path}, limit)
  {
    InsertedSorted(preview, path, idx);
    var all := preview[..idx] + [path] + preview[idx..];
    var r := preview[..idx] + [path] + preview[idx..limit - 1];
    var last := preview[limit - 1];
    assert all == r + [last];
    forall f | f in files + {path} && f !in r ensures forall p | p in r :: Less(p, f) {
      forall p | p in r ensures Less(p, f) {
        var k :| 0 <= k < |r| && r[k] == p;
        assert all[k] == p && all[|r|] == last;
        if f != last {
          assert f !in all;
          assert f !in preview && last in preview;
          LessTransitive(p, last, f);
        }
      }
    }
  }

  // ---- The rows ---------------------------------------------------------------------------------

  /** A recorded checkpoint. */
  datatype Checkpoint = Checkpoint(turn: int, paths: seq<string>, canUndoFiles: bool)

  datatype CheckpointRow = CheckpointRow(turn: int, files: seq<string>, fileCount: nat, filesTruncated: bool, canCode: bool)

  /** The files of the turns from the i-th on. */
  function FilesFrom(metas: seq<Checkpoint>, i: nat): set<string>
    requires i <= |metas|
    decreases |metas| - i
  {
    if i == |metas| then {} else FilesFrom(metas, i + 1) + set p | p in metas[i].paths
  }

  /** The files of a row are those of its own and every later turn. */
  lemma {:induction false} FilesFromIsUnion(metas: seq<Checkpoint>, i: nat, f: string)
    requires i <= |metas|
    ensures f in FilesFrom(metas, i) <==> exists j :: i <= j < |metas| && f in metas[j].paths
    decreases |metas| - i
  {
    if i < |metas| {
      FilesFromIsUnion(metas, i + 1, f);
    }
  }

  ghost predicate SomeFilesFrom(metas: seq<Checkpoint>, i: nat) {
    exists j | i <= j < |metas| :: metas[j].paths != []
  }

  ghost predicate AllUndoableFrom(metas: seq<Checkpoint>, i: nat) {
    forall j | i <= j < |metas| && metas[j].paths != [] :: metas[j].canUndoFiles
  }

  ghost predicate CanCodeFrom(metas: seq<Checkpoint>, i: nat) {
    SomeFilesFrom(metas, i) && AllUndoableFrom(metas, i)
  }

  /** What the row of turn i says about a rewind to it. */
  ghost predicate RowOf(metas: seq<Checkpoint>, i: nat, row: CheckpointRow)
    requires i < |metas|
  {
    row.turn == metas[i].turn &&
    row.fileCount == |FilesFrom(metas, i)| &&
    Smallest(row.files, FilesFrom(metas, i) - {""}, CHECKPOINT_FILE_PREVIEW_LIMIT) &&
    row.filesTruncated == (|row.files| < row.fileCount) &&
    row.canCode == CanCodeFrom(metas, i)
  }

  /** Adds the files of one turn to the union and its preview. */
  method AddFiles(paths: seq<string>, files: set<string>, preview: seq<string>)
    returns (files': set<string>, preview': seq<string>)
    requires Smallest(preview, files - {""}, CHECKPOINT_FILE_PREVIEW_LIMIT)
    ensures files' == files + set p | p in paths
    ensures Smallest(preview', files' - {""}, CHECKPOINT_FILE_PREVIEW_LIMIT)
  {
    files', preview' := files, preview;
    for k := 0 to |paths|
      invariant files' == files + set p | p in paths[..k]
      invariant Smallest(preview', files' - {""}, CHECKPOINT_FILE_PREVIEW_LIMIT)
    {
      var f := paths[k];
      assert paths[..k + 1] == paths[..k] + [f];
      if f in files' {
        continue;
      }
      preview' := InsertCheckpointFilePreview(preview', f, CHECKPOINT_FILE_PREVIEW_LIMIT, files' - {""});
      assert (files' + {f}) - {""} == if f == "" then files' - {""} else (files' - {""}) + {f};
      files' := files' + {f};
    }
    assert paths[..|paths|] == paths;
  }

  /** The row of a checkpoint before the later turns are folded in. */
  function OwnRow(m: Checkpoint): CheckpointRow {
    CheckpointRow(m.turn, m.paths, 0, false, m.paths != [] && m.canUndoFiles)
  }

  lemma FoldTurn(metas: seq<Checkpoint>, i: nat)
    requires i < |metas|
    ensures SomeFilesFrom(metas, i) <==> metas[i].paths != [] || SomeFilesFrom(metas, i + 1)
    ensures AllUndoableFrom(metas, i) <==> (metas[i].paths != [] ==> metas[i].canUndoFiles) && AllUndoableFrom(metas, i + 1)
    ensures FilesFrom(metas, i) == FilesFrom(metas, i + 1) + set p | p in metas[i].paths
  {
  }

  /** Fills the rows oldest first, then folds the later turns in from the newest back. */
  method CheckpointsForTab(metas: seq<Checkpoint>) returns (out: array<CheckpointRow>)
    ensures fresh(out) && out.Length == |metas|
    ensures forall i | 0 <= i < |metas| :: RowOf(metas, i, out[i])
  {
    hide RowOf, Smallest, FilesFrom, SomeFilesFrom, AllUndoableFrom;
    out := new CheckpointRow[|metas|](i requires 0 <= i < |metas| => OwnRow(metas[i]));
    var hasCodeAfter, canCodeAfter := false, true;
    var fileSet, preview := {}, [];
    var i := out.Length;
    NoFiles(metas);
    while i > 0
      invariant 0 <= i <= |metas| && fileSet == FilesFrom(metas, i)
      invariant Smallest(preview, fileSet - {""}, CHECKPOINT_FILE_PREVIEW_LIMIT)
      invariant hasCodeAfter == SomeFilesFrom(metas, i) && canCodeAfter == AllUndoableFrom(metas, i)
      invariant forall j | 0 <= j < i :: out[j] == OwnRow(metas[j])
      invariant forall j | i <= j < |metas| :: RowOf(metas, j, out[j])
    {
      i := i - 1;
      FoldTurn(metas, i);
      if |out[i].files| > 0 {
        hasCodeAfter := true;
        if !metas[i].canUndoFiles {
          canCodeAfter := false;
        }
      }
      fileSet, preview := AddFiles(out[i].files, fileSet, preview);
      var row := CheckpointRow(out[i].turn, preview, |fileSet|, |fileSet| > |preview|, hasCodeAfter && canCodeAfter);
      RowAssembled(metas, i, row);
      out[i] := row;
    }
  }

  lemma NoFiles(metas: seq<Checkpoint>)
    ensures !SomeFilesFrom(metas, |metas|) && AllUndoableFrom(metas, |metas|) && FilesFrom(metas, |metas|) == {} && Smallest([], {} - {""}, CHECKPOINT_FILE_PREVIEW_LIMIT)
  {
  }

  lemma RowAssembled(metas: seq<Checkpoint>, i: nat, row: CheckpointRow)
    requires i < |metas| && row.turn == metas[i].turn && row.fileCount == |FilesFrom(metas, i)|
    requires Smallest(row.files, FilesFrom(metas, i) - {""}, CHECKPOINT_FILE_PREVIEW_LIMIT)
    requires row.filesTruncated == (|row.files| < row.fileCount)
    requires row.canCode == CanCodeFrom(metas, i)
    ensures RowOf(metas, i, row)
  {
    hide Smallest, CanCodeFrom;
  }

  /** A rewind further back never affects fewer files, and can undo code only if every later rewind that
      affects any file can. */
  lemma EarlierRewindsReachFurther(metas: seq<Checkpoint>, i: nat, j: nat)
    requires i <= j <= |metas|
    ensures FilesFrom(metas, j) <= FilesFrom(metas, i)
    ensures CanCodeFrom(metas, i) && SomeFilesFrom(metas, j) ==> CanCodeFrom(metas, j)
  {
    forall f | f in FilesFrom(metas, j) ensures f in FilesFrom(metas, i) {
      FilesFromIsUnion(metas, j, f);
      FilesFromIsUnion(metas, i, f);
    }
  }
}
