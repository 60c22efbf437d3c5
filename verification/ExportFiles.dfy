/** Multi-file export: stage every payload, publish each without overwriting, roll back on failure.

The file system is a table from names to inodes; a hard link gives an inode a second name. Writing,
linking, opening, creating and copying may fail at will; inspecting and removing succeed.
*/
module ExportFiles {

  datatype Option<+T> = None | Some(value: T)

  const EXPORT_TEMP_CREATE_ATTEMPTS := 100
  const TEMP_MARK := "/.semantix-export-"

  /** Names with their inodes, inodes with their contents, and the next unused inode. */
  datatype Disk = Disk(names: map<string, nat>, contents: map<nat, string>, next: nat) {
    ghost predicate Valid() {
      forall p | p in names :: names[p] in contents && names[p] < next
    }

    /** What is readable under each name. */
    ghost function View(): map<string, string>
      requires Valid()
    {
      map p | p in names :: contents[names[p]]
    }

    function Content(p: string): string
      requires p in names && names[p] in contents
    {
      contents[names[p]]
    }
  }

  class FileSystem {
    var names: map<string, nat>
    var contents: map<nat, string>
    var next: nat
    /** How often an operation failed of itself, or a random name was already taken. */
    ghost var mishaps: nat

    ghost function State(): Disk
      reads this
    {
      Disk(names, contents, next)
    }

    ghost predicate Valid()
      reads this
    {
      State().Valid()
    }

    constructor ()
      ensures Valid() && names == map[]
    {
      names, contents, next, mishaps := map[], map[], 0, 0;
    }

    /** Creates an empty file under a new name, or fails. */
    method CreateExclusive(path: string) returns (inode: Option<nat>)
      requires Valid()
      modifies this
      ensures Valid()
      ensures inode.None? ==> names == old(names) && contents == old(contents) && next == old(next)
      ensures mishaps >= old(mishaps) && (inode.None? && path !in old(names) ==> mishaps > old(mishaps))
      ensures inode.Some? ==>
                path !in old(names) && inode.value == old(next) && next == old(next) + 1 &&
                names == old(names)[path := inode.value] && contents == old(contents)[inode.value := ""]
    {
      if path in names {
        return None;
      }
      if * {
        mishaps := mishaps + 1;
        return None;
      }
      names := names[path := next];
      contents := contents[next := ""];
      inode := Some(next);
      next := next + 1;
    }

    /** Writes a whole payload; a failure may leave anything in the file. */
    method Write(inode: nat, data: string) returns (ok: bool)
      requires Valid() && inode in contents
      modifies this`contents, this`mishaps
      ensures Valid() && (ok ==> contents == old(contents)[inode := data])
      ensures mishaps >= old(mishaps) && (!ok ==> mishaps > old(mishaps))
      ensures inode in contents && contents == old(contents)[inode := contents[inode]]
    {
      if * {
        var partial: string := *;
        contents, mishaps := contents[inode := partial], mishaps + 1;
        return false;
      }
      contents := contents[inode := data];
      return true;
    }

    /** Gives the inode of `from` a second, new name, or fails. */
    method Link(from: string, to: string) returns (ok: bool)
      requires Valid() && from in names
      modifies this`names, this`mishaps
      ensures Valid()
      ensures mishaps >= old(mishaps) && (!ok && to !in old(names) ==> mishaps > old(mishaps))
      ensures ok ==> to !in old(names) && names == old(names)[to := old(names)[from]]
      ensures !ok ==> names == old(names)
    {
      if to in names {
        return false;
      }
      if * {
        mishaps := mishaps + 1;
        return false;
      }
      names := names[to := names[from]];
      return true;
    }

    method Open(path: string) returns (ok: bool)
      requires path in names
      modifies this`mishaps
      ensures mishaps >= old(mishaps) && (!ok ==> mishaps > old(mishaps))
    {
      ok := *;
      if !ok {
        mishaps := mishaps + 1;
      }
    }

    method Remove(path: string)
      requires Valid()
      modifies this`names
      ensures Valid() && names == old(names) - {path}
    {
      names := names - {path};
    }

    /** Removes a name only if it still is the file this call created. */
    method RemoveIfSame(path: string, created: nat)
      requires Valid()
      modifies this`names
      ensures Valid()
      ensures names == if path in old(names) && old(names)[path] == created then old(names) - {path} else old(names)
    {
      if path in names && names[path] == created {
        Remove(path);
      }
    }
  }

  datatype Staged = Staged(target: string, temp: string)

  datatype Committed = Committed(path: string, inode: nat)

  // ---- What the steps do to the disk ------------------------------------------------------------

  /** No name changed; files that existed kept their contents. */
  ghost predicate Quiet(d: Disk, d': Disk) {
    d'.Valid() && d'.next >= d.next && d'.names == d.names && Kept(d, d')
  }

  ghost predicate Kept(d: Disk, d': Disk) {
    forall n | n in d.contents && n < d.next :: n in d'.contents && d'.contents[n] == d.contents[n]
  }

  /** One new name, for a new inode or for that of a file `like`. */
  ghost predicate Adds(d: Disk, d': Disk, path: string, inode: nat, like: Option<nat>) {
    d'.Valid() && d'.next >= d.next && path !in d.names && d'.names == d.names[path := inode] && Kept(d, d') &&
    (inode >= d.next || like == Some(inode))
  }

  /** `d` is `d0` plus the names `extra`, which stand for files made since. */
  ghost predicate Extends(d: Disk, d0: Disk, extra: map<string, nat>) {
    d.Valid() && d0.Valid() && d.next >= d0.next && d.names == d0.names + extra && d0.names.Keys !! extra.Keys && Kept(d0, d) &&
    forall p | p in extra :: extra[p] >= d0.next
  }

  lemma ExtendsQuiet(d0: Disk, d: Disk, d': Disk, extra: map<string, nat>)
    requires Extends(d, d0, extra) && Quiet(d, d')
    ensures Extends(d', d0, extra)
  {
  }

  lemma ExtendsAdds(d0: Disk, d: Disk, d': Disk, extra: map<string, nat>, path: string, inode: nat, like: Option<nat>)
    requires Extends(d, d0, extra) && Adds(d, d', path, inode, like) && (like.Some? ==> like.value >= d0.next)
    ensures Extends(d', d0, extra[path := inode]) && path !in extra && path !in d0.names
  {
  }

  /** Removing names of our own leaves the rest of them. */
  lemma ExtendsLess(d0: Disk, d: Disk, d': Disk, extra: map<string, nat>, gone: set<string>)
    requires Extends(d, d0, extra) && gone <= extra.Keys
    requires d' == d.(names := d.names - gone)
    ensures Extends(d', d0, extra - gone)
  {
  }

  ghost predicate IsTempName(path: string) {
    exists dir: string, suffix: string :: path == dir + TEMP_MARK + suffix
  }

  /** A new, empty, private file next to a target. */
  method CreateExportTempFile(fs: FileSystem, dir: string) returns (r: Option<string>)
    requires fs.Valid()
    modifies fs
    ensures r.None? ==> Quiet(old(fs.State()), fs.State())
    ensures r.Some? ==> r.value in fs.names && Adds(old(fs.State()), fs.State(), r.value, fs.names[r.value], None)
    ensures fs.mishaps >= old(fs.mishaps) && (if r.None? then fs.mishaps > old(fs.mishaps) else IsTempName(r.value))
  {
    for attempt := 0 to EXPORT_TEMP_CREATE_ATTEMPTS
      invariant fs.Valid() && fs.State() == old(fs.State())
      invariant fs.mishaps >= old(fs.mishaps) + attempt
    {
      var suffix: string :| true;
      var path := dir + TEMP_MARK + suffix;
      var taken := path in fs.names;
      var inode := fs.CreateExclusive(path);
      if inode.None? {
        if taken {
          fs.mishaps := fs.mishaps + 1;
          continue;
        }
        return None;
      }
      var narrowed: bool := *;
      if !narrowed {
        fs.mishaps := fs.mishaps + 1;
        fs.Remove(path);
        assert fs.names == old(fs.names);
        return None;
      }
      assert IsTempName(path);
      return Some(path);
    }
    return None;
  }

  /** Stages one payload; a temp file that could not be filled still counts as staged. */
  method StageOne(fs: FileSystem, target: string, payload: string) returns (written: bool, temp: Option<string>)
    requires fs.Valid()
    modifies fs
    ensures temp.None? ==> !written && Quiet(old(fs.State()), fs.State())
    ensures temp.Some? ==> temp.value in fs.names && Adds(old(fs.State()), fs.State(), temp.value, fs.names[temp.value], None)
    ensures written ==> fs.names[temp.value] in fs.contents && fs.contents[fs.names[temp.value]] == payload
    ensures fs.mishaps >= old(fs.mishaps) && (!written ==> fs.mishaps > old(fs.mishaps)) && (temp.Some? ==> IsTempName(temp.value))
  {
    temp := CreateExportTempFile(fs, Dir(target));
    if temp.None? {
      return false, None;
    }
    written := fs.Write(fs.names[temp.value], payload);
  }

  /** Publishes a staged file under its target name, by link or by exclusive copy. */
  method CommitStagedExportFile(fs: FileSystem, temp: string, target: string) returns (r: Option<nat>)
    requires fs.Valid() && temp in fs.names
    modifies fs
    ensures r.None? ==> Quiet(old(fs.State()), fs.State())
    ensures r.Some? ==> Adds(old(fs.State()), fs.State(), target, r.value, Some(old(fs.names)[temp]))
    ensures r.Some? ==> r.value in fs.contents && fs.contents[r.value] == old(fs.State()).Content(temp)
    ensures fs.mishaps >= old(fs.mishaps)
    ensures r.None? ==> fs.mishaps > old(fs.mishaps) || target in old(fs.names)
  {
    var staged := fs.names[temp];
    var linked := fs.Link(temp, target);
    if linked {
      return Some(staged);
    }
    var readable := fs.Open(temp);
    if !readable {
      return None;
    }
    var created := fs.CreateExclusive(target);
    if created.None? {
      return None;
    }
    var copied := fs.Write(created.value, fs.contents[staged]);
    var synced: bool := *;
    if !copied || !synced {
      fs.mishaps := fs.mishaps + 1;
      fs.RemoveIfSame(target, created.value);
      assert fs.names == old(fs.names);
      return None;
    }
    return created;
  }

  /** The directory a staged file goes to. */
  function Dir(path: string): string {
    if path == "" || path[|path| - 1] == '/' then path else Dir(path[..|path| - 1])
  }

  /** The directory of a path is what comes before its last component. */
  lemma {:induction false} DirTold(path: string)
    ensures Dir(path) <= path && (Dir(path) == "" || path[|Dir(path)| - 1] == '/')
    ensures forall i | |Dir(path)| <= i < |path| :: path[i] != '/'
  {
    if !(path == "" || path[|path| - 1] == '/') {
      DirTold(path[..|path| - 1]);
    }
  }

  // ---- Staging ----------------------------------------------------------------------------------

  /** The temp names are those of `staged`, in no other order than they were made. */
  function TempNames(staged: seq<Staged>): set<string> {
    set s | s in staged :: s.temp
  }

  /** The first staged files hold their payloads, under their own names. */
  ghost predicate HoldsPayloads(d: Disk, temps: map<string, nat>, staged: seq<Staged>, payloads: seq<Option<string>>)
    requires |staged| <= |payloads|
  {
    forall i | 0 <= i < |staged| ::
      staged[i].temp in temps && temps[staged[i].temp] in d.contents && temps[staged[i].temp] < d.next &&
      payloads[i] == Some(d.contents[temps[staged[i].temp]])
  }

  ghost predicate StagedFor(staged: seq<Staged>, targets: seq<string>) {
    |staged| <= |targets| && forall i | 0 <= i < |staged| :: staged[i].target == targets[i]
  }

  lemma StageStep(d0: Disk, d: Disk, d': Disk, temps: map<string, nat>, staged: seq<Staged>, payloads: seq<Option<string>>,
                  target: string, temp: string, inode: nat)
    requires Extends(d, d0, temps) && temps.Keys == TempNames(staged) && |staged| < |payloads|
    requires HoldsPayloads(d, temps, staged, payloads) && Adds(d, d', temp, inode, None)
    ensures var temps', staged' := temps[temp := inode], staged + [Staged(target, temp)];
            Extends(d', d0, temps') && temps'.Keys == TempNames(staged') &&
            (inode in d'.contents && payloads[|staged|] == Some(d'.contents[inode]) ==> HoldsPayloads(d', temps', staged', payloads))
  {
    hide Extends, HoldsPayloads;
    ExtendsAdds(d0, d, d', temps, temp, inode, None);
    MoreTempNames(staged, target, temp);
    if inode in d'.contents && payloads[|staged|] == Some(d'.contents[inode]) {
      assert d'.names[temp] == inode;
      OneMoreStaged(d, d', temps, staged, payloads, target, temp, inode);
    }
  }

  lemma MoreTempNames(staged: seq<Staged>, target: string, temp: string)
    ensures TempNames(staged + [Staged(target, temp)]) == TempNames(staged) + {temp}
  {
    var staged' := staged + [Staged(target, temp)];
    forall p ensures p in TempNames(staged') <==> p in TempNames(staged) || p == temp {
      assert Staged(target, temp) in staged';
    }
  }

  lemma OneMoreStaged(d: Disk, d': Disk, temps: map<string, nat>, staged: seq<Staged>, payloads: seq<Option<string>>,
                      target: string, temp: string, inode: nat)
    requires |staged| < |payloads| && HoldsPayloads(d, temps, staged, payloads) && temp !in temps && Kept(d, d') && d'.next >= d.next
    requires inode in d'.contents && inode < d'.next && payloads[|staged|] == Some(d'.contents[inode])
    ensures HoldsPayloads(d', temps[temp := inode], staged + [Staged(target, temp)], payloads)
  {
  }

  /** Stages every payload in a temp file of its own. Whatever happens, only temp files are added. */
  method StageAll(fs: FileSystem, targets: seq<string>, payloads: seq<Option<string>>)
    returns (ok: bool, staged: seq<Staged>, ghost temps: map<string, nat>)
    requires fs.Valid() && |targets| == |payloads|
    modifies fs
    ensures Extends(fs.State(), old(fs.State()), temps) && temps.Keys == TempNames(staged) && StagedFor(staged, targets)
    ensures ok ==> |staged| == |targets| && HoldsPayloads(fs.State(), temps, staged, payloads)
    ensures fs.mishaps >= old(fs.mishaps) && (!ok ==> fs.mishaps > old(fs.mishaps) || None in payloads)
    ensures forall p | p in temps :: IsTempName(p)
  {
    hide Extends, HoldsPayloads, Adds, Quiet, TempNames, IsTempName;
    staged, temps := [], map[];
    NothingStaged(fs.State(), payloads);
    for i := 0 to |targets|
      invariant Extends(fs.State(), old(fs.State()), temps) && fs.Valid() && temps.Keys == TempNames(staged)
      invariant |staged| == i && StagedFor(staged, targets) && HoldsPayloads(fs.State(), temps, staged, payloads)
      invariant fs.mishaps >= old(fs.mishaps) && forall p | p in temps :: IsTempName(p)
    {
      if payloads[i].None? {
        return false, staged, temps;
      }
      ghost var d := fs.State();
      var written, temp := StageOne(fs, targets[i], payloads[i].value);
      if temp.None? {
        ExtendsQuiet(old(fs.State()), d, fs.State(), temps);
        return false, staged, temps;
      }
      StageStep(old(fs.State()), d, fs.State(), temps, staged, payloads, targets[i], temp.value, fs.names[temp.value]);
      temps := temps[temp.value := fs.names[temp.value]];
      staged := staged + [Staged(targets[i], temp.value)];
      if !written {
        return false, staged, temps;
      }
      ExtendsValid(fs.State(), old(fs.State()), temps);
    }
    return true, staged, temps;
  }

  lemma NothingStaged(d: Disk, payloads: seq<Option<string>>)
    requires d.Valid()
    ensures Extends(d, d, map[]) && HoldsPayloads(d, map[], [], payloads) && TempNames([]) == {}
  {
    assert d.names + map[] == d.names;
  }

  lemma ExtendsValid(d: Disk, d0: Disk, extra: map<string, nat>)
    requires Extends(d, d0, extra)
    ensures d.Valid() && d0.Valid()
  {
  }

  // ---- Publishing -------------------------------------------------------------------------------

  /** Removes, in order, the names this call created and still owns. */
  method RollbackCommitted(fs: FileSystem, files: seq<Committed>)
    requires fs.Valid()
    modifies fs`names
    ensures fs.Valid()
    ensures fs.names == old(fs.names) - Owned(old(fs.names), files)
  {
    for i := 0 to |files|
      invariant fs.Valid() && fs.names == old(fs.names) - Owned(old(fs.names), files[..i])
    {
      assert files[..i + 1] == files[..i] + [files[i]];
      fs.RemoveIfSame(files[i].path, files[i].inode);
    }
    assert files[..|files|] == files;
  }

  /** The names of `files` that still stand for the files created under them. */
  function Owned(names: map<string, nat>, files: seq<Committed>): set<string> {
    set c | c in files && c.path in names && names[c.path] == c.inode :: c.path
  }

  method RemoveTemps(fs: FileSystem, staged: seq<Staged>)
    requires fs.Valid()
    modifies fs`names
    ensures fs.Valid() && fs.names == old(fs.names) - TempNames(staged)
  {
    for i := 0 to |staged|
      invariant fs.Valid() && fs.names == old(fs.names) - TempNames(staged[..i])
    {
      assert staged[..i + 1] == staged[..i] + [staged[i]];
      fs.Remove(staged[i].temp);
    }
    assert staged[..|staged|] == staged;
  }

  /** The published names: the targets so far, each with an inode that holds its payload. */
  ghost predicate Published(d: Disk, published: map<string, nat>, committed: seq<Committed>, targets: seq<string>, payloads: seq<Option<string>>)
    requires |committed| <= |targets| == |payloads|
  {
    (forall j | 0 <= j < |committed| ::
       committed[j].path == targets[j] && targets[j] in published && published[targets[j]] == committed[j].inode &&
       committed[j].inode in d.contents && committed[j].inode < d.next && payloads[j] == Some(d.contents[committed[j].inode])) &&
    (forall p | p in published :: exists j :: 0 <= j < |committed| && committed[j].path == p)
  }

  /** A disk that only grew still holds what was staged and published on it. */
  lemma GrowthKeeps(d: Disk, d': Disk, temps: map<string, nat>, published: map<string, nat>, staged: seq<Staged>,
                    committed: seq<Committed>, targets: seq<string>, payloads: seq<Option<string>>)
    requires |committed| <= |staged| == |targets| == |payloads| && Kept(d, d') && d'.next >= d.next
    requires HoldsPayloads(d, temps, staged, payloads) && Published(d, published, committed, targets, payloads)
    ensures HoldsPayloads(d', temps, staged, payloads) && Published(d', published, committed, targets, payloads)
  {
  }

  lemma OneMorePublished(d: Disk, published: map<string, nat>, committed: seq<Committed>, targets: seq<string>,
                         payloads: seq<Option<string>>, inode: nat)
    requires |committed| < |targets| == |payloads| && Published(d, published, committed, targets, payloads)
    requires targets[|committed|] !in published && inode in d.contents && inode < d.next
    requires payloads[|committed|] == Some(d.contents[inode])
    ensures var t := targets[|committed|];
            Published(d, published[t := inode], committed + [Committed(t, inode)], targets, payloads)
  {
    var i := |committed|;
    var committed' := committed + [Committed(targets[i], inode)];
    assert committed'[i].path == targets[i];
    forall p | p in published ensures exists j :: 0 <= j < |committed'| && committed'[j].path == p {
      var j :| 0 <= j < |committed| && committed[j].path == p;
      assert committed'[j].path == p;
    }
  }

  lemma PublishStep(d0: Disk, d: Disk, d': Disk, temps: map<string, nat>, published: map<string, nat>, staged: seq<Staged>,
                    committed: seq<Committed>, targets: seq<string>, payloads: seq<Option<string>>, inode: nat)
    requires |committed| < |staged| == |targets| == |payloads|
    requires Extends(d, d0, temps + published) && HoldsPayloads(d, temps, staged, payloads)
    requires Published(d, published, committed, targets, payloads)
    requires var i := |committed|;
             staged[i].temp in d.names && d.names[staged[i].temp] == temps[staged[i].temp] >= d0.next && d.names[staged[i].temp] in d.contents &&
             Adds(d, d', targets[i], inode, Some(d.names[staged[i].temp])) &&
             inode in d'.contents && d'.contents[inode] == d.Content(staged[i].temp)
    ensures var published', committed' := published[targets[|committed|] := inode], committed + [Committed(targets[|committed|], inode)];
            Extends(d', d0, temps + published') && HoldsPayloads(d', temps, staged, payloads) &&
            Published(d', published', committed', targets, payloads) && targets[|committed|] !in temps
  {
    hide Extends, Published;
    var i := |committed|;
    var t := targets[i];
    ExtendsAdds(d0, d, d', temps + published, t, inode, Some(d.names[staged[i].temp]));
    assert (temps + published)[t := inode] == temps + published[t := inode];
    assert d'.names[t] == inode;
    GrowthKeeps(d, d', temps, published, staged, committed, targets, payloads);
    OneMorePublished(d', published, committed, targets, payloads, inode);
  }

  lemma OwnsAllPublished(d: Disk, d0: Disk, temps: map<string, nat>, published: map<string, nat>, committed: seq<Committed>,
                         targets: seq<string>, payloads: seq<Option<string>>)
    requires |committed| <= |targets| == |payloads|
    requires Extends(d, d0, temps + published) && Published(d, published, committed, targets, payloads)
    ensures Owned(d.names, committed) == published.Keys
  {
  }

  /** Where a staged file is found. */
  lemma TempInPlace(d: Disk, d0: Disk, temps: map<string, nat>, published: map<string, nat>, staged: seq<Staged>, payloads: seq<Option<string>>, i: nat)
    requires |staged| <= |payloads| && i < |staged| && temps.Keys !! published.Keys
    requires Extends(d, d0, temps + published) && HoldsPayloads(d, temps, staged, payloads)
    ensures staged[i].temp in d.names && d.names[staged[i].temp] == temps[staged[i].temp] >= d0.next
    ensures d.names[staged[i].temp] in d.contents
  {
  }

  /** Publishes the staged files one by one; a failure takes back what was published. */
  method CommitAll(fs: FileSystem, staged: seq<Staged>, targets: seq<string>, payloads: seq<Option<string>>,
                   ghost d0: Disk, ghost temps: map<string, nat>)
    returns (ok: bool, ghost published: map<string, nat>, ghost committed: seq<Committed>)
    requires |staged| == |targets| == |payloads| && StagedFor(staged, targets)
    requires Extends(fs.State(), d0, temps) && HoldsPayloads(fs.State(), temps, staged, payloads)
    modifies fs
    ensures Extends(fs.State(), d0, temps + published) && temps.Keys !! published.Keys
    ensures !ok ==> published == map[]
    ensures ok ==> |committed| == |targets| && Published(fs.State(), published, committed, targets, payloads) && Distinct(targets)
    ensures fs.mishaps >= old(fs.mishaps)
    ensures !ok ==> fs.mishaps > old(fs.mishaps) || !Distinct(targets) || exists t | t in targets :: t in d0.names || t in temps
  {
    hide Extends, HoldsPayloads, Adds, Quiet, Published, Owned, Distinct, Names, Dir;
    NoneYet(targets);
    published := map[];
    var made: seq<Committed> := [];
    committed := [];
    assert temps + published == temps;
    NothingPublished(fs.State(), targets, payloads);
    for i := 0 to |staged|
      invariant |made| == i && committed == made
      invariant Extends(fs.State(), d0, temps + published) && temps.Keys !! published.Keys
      invariant HoldsPayloads(fs.State(), temps, staged, payloads) && Published(fs.State(), published, made, targets, payloads)
      invariant fs.mishaps >= old(fs.mishaps) && published.Keys == Names(targets[..i]) && Distinct(targets[..i])
    {
      ghost var d := fs.State();
      ExtendsValid(d, d0, temps + published);
      TempInPlace(d, d0, temps, published, staged, payloads, i);
      var inode := CommitStagedExportFile(fs, staged[i].temp, staged[i].target);
      if inode.None? {
        if targets[i] in d.names {
          WhyTaken(d, d0, temps, published, targets, i);
        }
        ExtendsQuiet(d0, d, fs.State(), temps + published);
        ghost var d1 := fs.State();
        ExtendsValid(d1, d0, temps + published);
        PublishedQuiet(d, d1, published, made, targets, payloads);
        OwnsAllPublished(d1, d0, temps, published, made, targets, payloads);
        RollbackCommitted(fs, made);
        ExtendsLess(d0, d1, fs.State(), temps + published, published.Keys);
        assert (temps + published) - published.Keys == temps + map[];
        return false, map[], made;
      }
      PublishStep(d0, d, fs.State(), temps, published, staged, made, targets, payloads, inode.value);
      AddsNewTarget(d, fs.State(), d0, temps, published, targets, i, inode.value, Some(d.names[staged[i].temp]));
      published := published[targets[i] := inode.value];
      made := made + [Committed(staged[i].target, inode.value)];
      committed := made;
    }
    assert targets[..|targets|] == targets;
    return true, published, committed;
  }

  function Names(paths: seq<string>): set<string> {
    set p | p in paths
  }

  ghost predicate Distinct(paths: seq<string>) {
    forall i, j | 0 <= i < j < |paths| :: paths[i] != paths[j]
  }

  lemma NoneYet(targets: seq<string>)
    ensures targets[..0] == [] && Distinct(targets[..0]) && Names(targets[..0]) == {}
  {
  }

  /** A target that is taken when its turn comes was there before, or is a temp name, or occurs twice. */
  lemma WhyTaken(d: Disk, d0: Disk, temps: map<string, nat>, published: map<string, nat>, targets: seq<string>, i: nat)
    requires Extends(d, d0, temps + published) && i < |targets| && published.Keys == Names(targets[..i])
    requires targets[i] in d.names
    ensures !Distinct(targets) || targets[i] in d0.names || targets[i] in temps
  {
    if targets[i] in published {
      assert targets[i] in targets[..i];
    }
  }

  lemma AddsNewTarget(d: Disk, d': Disk, d0: Disk, temps: map<string, nat>, published: map<string, nat>, targets: seq<string>, i: nat,
                      inode: nat, like: Option<nat>)
    requires Extends(d, d0, temps + published) && i < |targets| && published.Keys == Names(targets[..i])
    requires Adds(d, d', targets[i], inode, like) && Distinct(targets[..i])
    ensures Distinct(targets[..i + 1]) && published[targets[i] := inode].Keys == Names(targets[..i + 1])
  {
    assert targets[..i + 1] == targets[..i] + [targets[i]];
    assert targets[i] !in published;
    assert targets[i] !in targets[..i];
  }

  lemma NothingPublished(d: Disk, targets: seq<string>, payloads: seq<Option<string>>)
    requires |targets| == |payloads|
    ensures Published(d, map[], [], targets, payloads)
  {
  }

  lemma PublishedQuiet(d: Disk, d': Disk, published: map<string, nat>, committed: seq<Committed>, targets: seq<string>, payloads: seq<Option<string>>)
    requires |committed| <= |targets| == |payloads| && Published(d, published, committed, targets, payloads) && Quiet(d, d')
    ensures Published(d', published, committed, targets, payloads)
  {
  }

  // ---- The whole export -------------------------------------------------------------------------

  /** Every target reads as its payload and no other name differs from `before`. */
  ghost predicate AllPublished(before: map<string, string>, after: map<string, string>, targets: seq<string>, payloads: seq<Option<string>>) {
    |targets| == |payloads| &&
    (forall i | 0 <= i < |targets| :: targets[i] !in before && targets[i] in after && payloads[i] == Some(after[targets[i]])) &&
    (forall p | p !in targets :: (p in after <==> p in before) && (p in before ==> after[p] == before[p]))
  }

  /** The requests an export can fulfil. */
  ghost predicate Acceptable(names: map<string, nat>, targets: seq<string>, payloads: seq<Option<string>>) {
    0 < |targets| == |payloads| && Distinct(targets) && None !in payloads && forall t | t in targets :: t !in names
  }

  /** All or nothing: on success every target is a new name that holds its payload and no other name
      changed; on failure every name reads as before. Either way every old name keeps its own file. It
      fails only when it must: something went wrong on the disk, or the request cannot be fulfilled. */
  method SaveExclusiveExportPayloads(fs: FileSystem, targets: seq<string>, payloads: seq<Option<string>>) returns (ok: bool)
    requires fs.Valid()
    modifies fs
    ensures fs.Valid()
    ensures forall p | p in old(fs.names) :: p in fs.names && fs.names[p] == old(fs.names)[p]
    ensures !ok ==> fs.names == old(fs.names) && fs.State().View() == old(fs.State()).View()
    ensures ok ==> AllPublished(old(fs.State()).View(), fs.State().View(), targets, payloads)
    ensures ok ==> Acceptable(old(fs.names), targets, payloads)
    ensures !ok ==> fs.mishaps > old(fs.mishaps) || !Acceptable(old(fs.names), targets, payloads) || exists t | t in targets :: IsTempName(t)
  {
    hide Extends, HoldsPayloads, Published, TempNames, AllPublished, Distinct, IsTempName;
    if |targets| == 0 || |targets| != |payloads| {
      return false;
    }
    for i := 0 to |targets|
      invariant forall k | 0 <= k < i :: targets[k] !in fs.names
    {
      if targets[i] in fs.names {
        return false;
      }
    }
    ghost var d0 := fs.State();
    var staged;
    ghost var temps;
    ok, staged, temps := StageAll(fs, targets, payloads);
    ghost var published: map<string, nat>, committed: seq<Committed> := map[], [];
    assert temps + published == temps;
    if ok {
      ok, published, committed := CommitAll(fs, staged, targets, payloads, d0, temps);
    }
    ghost var d := fs.State();
    ExtendsValid(d, d0, temps + published);
    RemoveTemps(fs, staged);
    ExtendsLess(d0, d, fs.State(), temps + published, temps.Keys);
    assert (temps + published) - temps.Keys == published;
    Unchanged(fs.State(), d0, published);
    if ok {
      PublishedView(fs.State(), d0, published, committed, targets, payloads, d);
    }
  }

  lemma Unchanged(d: Disk, d0: Disk, published: map<string, nat>)
    requires Extends(d, d0, published)
    ensures d.Valid() && d0.Valid()
    ensures forall p | p in d0.names :: p in d.names && d.names[p] == d0.names[p]
    ensures published == map[] ==> d.names == d0.names && d.View() == d0.View()
  {
    assert d0.names + map[] == d0.names;
  }

  lemma PublishedView(d: Disk, d0: Disk, published: map<string, nat>, committed: seq<Committed>, targets: seq<string>,
                      payloads: seq<Option<string>>, before: Disk)
    requires |committed| == |targets| == |payloads|
    requires Extends(d, d0, published) && Published(before, published, committed, targets, payloads) && before.contents == d.contents
    ensures d.Valid() && d0.Valid() && AllPublished(d0.View(), d.View(), targets, payloads)
  {
    forall p | p in published ensures p in targets {
      var j :| 0 <= j < |committed| && committed[j].path == p;
      assert targets[j] == p;
    }
  }
}
