/** The heartbeat config file: shared by processes and editors, changed only by compare-and-write.

Methods that read the file, compute and write it back let `Others` run in between: it stands for any
number of other engines and editors and may leave anything in the file (see `Surroundings`). The lock-guarded comparison and
write of `WriteTasks` is one step. A digest stands for the file's exact bytes.
*/
module HeartbeatConfig {

  datatype Option<+T> = None | Some(value: T)

  /** What a user defines about a task. */
  datatype Definition = Definition(title: string, prompt: string, interval: string, enabled: bool, scope: string,
    workspaceRoot: string, newConversationEachRun: bool, approvalMode: string, timeWindowStart: string, timeWindowEnd: string,
    notifyChannels: bool)

  /** A task: its definition, and the run state the engine owns (times in milliseconds). */
  datatype Task = Task(id: string, def: Definition, topicID: string, lastRunAt: int, createdAt: int)

  datatype Config = Config(revision: nat, tasks: seq<Task>)

  const REVISION_LIMIT: nat := 0x1_0000_0000_0000_0000

  /** The JSON decoder and encoder; what is written reads back as itself. */
  datatype Codec = Codec(parse: string -> Option<Config>, encode: Config -> string) {
    ghost predicate RoundTrips() {
      forall c: Config :: parse(encode(c)) == Some(c)
    }
  }

  datatype Snapshot = Snapshot(cfg: Config, digest: string, present: bool)

  const MISSING: Snapshot := Snapshot(Config(0, []), "", false)

  /** What reading the file gives; `None` for bytes that do not parse. */
  function SnapshotOf(codec: Codec, raw: Option<string>): Option<Snapshot> {
    if raw.None? then Some(MISSING)
    else
      var cfg := codec.parse(raw.value);
      if cfg.None? then None else Some(Snapshot(cfg.value, raw.value, true))
  }

  predicate SameConfig(a: Snapshot, b: Snapshot) {
    a.present == b.present && a.digest == b.digest && a.cfg.revision == b.cfg.revision
  }

  /** Two snapshots of one file format that compare equal are the same snapshot. */
  lemma SameConfigIsSameContent(codec: Codec, a: Option<string>, b: Option<string>)
    requires SnapshotOf(codec, a).Some? && SnapshotOf(codec, b).Some?
    ensures SameConfig(SnapshotOf(codec, a).value, SnapshotOf(codec, b).value) <==> a == b
  {
  }

  class ConfigFile {
    var raw: Option<string>

    constructor ()
      ensures raw == None
    {
      raw := None;
    }
  }

  /** What happens around a call: what everybody else leaves in the file at the k-th opportunity, and whether
      the lock and the write succeed in the k-th attempt. Any such functions are possible. */
  datatype Surroundings = Surroundings(others: (nat, Option<string>) -> Option<string>, locks: nat -> bool, saves: nat -> bool) {
    /** Nobody interferes and nothing breaks. */
    ghost predicate Calm() {
      (forall k: nat, raw :: others(k, raw) == raw) && (forall k: nat :: locks(k) && saves(k))
    }
  }

  /** What the file holds after others had their turn before the write of the first `n` attempts. */
  function FileAt(around: Surroundings, raw: Option<string>, n: nat): Option<string> {
    if n == 0 then raw else around.others(2 * n, FileAt(around, raw, n - 1))
  }

  method Others(file: ConfigFile, around: Surroundings, k: nat)
    modifies file
    ensures file.raw == around.others(k, old(file.raw))
  {
    file.raw := around.others(k, file.raw);
  }

  // ---- Merging run state -----------------------------------------------------------------------

  /** Run state is monotone: a completion older than what is recorded changes nothing but blanks. */
  function Merged(t: Task, updates: map<string, Task>): Task {
    if t.id !in updates then t
    else
      var u := updates[t.id];
      var newer := u.lastRunAt > t.lastRunAt;
      Task(t.id, t.def,
           if u.topicID != "" && (t.topicID == "" || newer) then u.topicID else t.topicID,
           if newer then u.lastRunAt else t.lastRunAt,
           if t.createdAt == 0 && u.createdAt != 0 then u.createdAt else t.createdAt)
  }

  function MergedAll(tasks: seq<Task>, updates: map<string, Task>): (r: seq<Task>)
    ensures |r| == |tasks|
  {
    seq(|tasks|, i requires 0 <= i < |tasks| => Merged(tasks[i], updates))
  }

  /** The list after any number of merges. */
  function AfterMerges(tasks: seq<Task>, merges: seq<map<string, Task>>): (r: seq<Task>)
    ensures |r| == |tasks|
  {
    if merges == [] then tasks
    else MergedAll(AfterMerges(tasks, merges[..|merges| - 1]), merges[|merges| - 1])
  }

  /** The k-th merge brings a completion of the task that started after the recorded run and all merged before. */
  predicate BringsNewer(t: Task, merges: seq<map<string, Task>>, k: nat)
    requires k < |merges|
  {
    t.id in merges[k] && merges[k][t.id].lastRunAt > t.lastRunAt &&
    forall j | 0 <= j < k && t.id in merges[j] :: merges[k][t.id].lastRunAt > merges[j][t.id].lastRunAt
  }

  predicate Names(t: Task, merges: seq<map<string, Task>>, k: nat)
    requires k < |merges|
  {
    t.id in merges[k] && merges[k][t.id].topicID != ""
  }

  /** The k-th merge names a topic, and is newer than all before or the first to name one where none is recorded. */
  predicate BringsTopic(t: Task, merges: seq<map<string, Task>>, k: nat)
    requires k < |merges|
  {
    Names(t, merges, k) && (BringsNewer(t, merges, k) || (t.topicID == "" && forall j | 0 <= j < k :: !Names(t, merges, j)))
  }

  predicate BringsCreation(t: Task, merges: seq<map<string, Task>>, k: nat)
    requires k < |merges|
  {
    t.id in merges[k] && merges[k][t.id].createdAt != 0
  }

  /** The greatest of the recorded run time and those brought. */
  ghost predicate NewestRun(t: Task, merges: seq<map<string, Task>>, time: int) {
    time >= t.lastRunAt &&
    (forall k | 0 <= k < |merges| && t.id in merges[k] :: time >= merges[k][t.id].lastRunAt) &&
    (time == t.lastRunAt || exists k | 0 <= k < |merges| :: t.id in merges[k] && time == merges[k][t.id].lastRunAt)
  }

  /** The topic brought last; the recorded one if none was. */
  ghost predicate LastTopic(t: Task, merges: seq<map<string, Task>>, topic: string) {
    ((forall k | 0 <= k < |merges| :: !BringsTopic(t, merges, k)) ==> topic == t.topicID) &&
    forall k | 0 <= k < |merges| && BringsTopic(t, merges, k) && (forall j | k < j < |merges| :: !BringsTopic(t, merges, j)) ::
      topic == merges[k][t.id].topicID
  }

  /** The recorded creation time; the first one brought if none is recorded. */
  ghost predicate FirstCreation(t: Task, merges: seq<map<string, Task>>, time: int) {
    (t.createdAt != 0 || (forall k | 0 <= k < |merges| :: !BringsCreation(t, merges, k)) ==> time == t.createdAt) &&
    forall k | 0 <= k < |merges| && t.createdAt == 0 && BringsCreation(t, merges, k) &&
               (forall j | 0 <= j < k :: !BringsCreation(t, merges, j)) ::
      time == merges[k][t.id].createdAt
  }

  /** What merges, one after the other, leave of a task. */
  ghost predicate Merges(t: Task, merges: seq<map<string, Task>>, after: Task) {
    after.id == t.id && after.def == t.def &&
    NewestRun(t, merges, after.lastRunAt) && LastTopic(t, merges, after.topicID) && FirstCreation(t, merges, after.createdAt)
  }

  method MergeHeartbeatRunUpdates(tasks: array<Task>, updates: map<string, Task>)
    modifies tasks
    ensures tasks[..] == MergedAll(old(tasks[..]), updates)
    ensures forall i | 0 <= i < tasks.Length :: Merges(old(tasks[i]), [updates], tasks[i])
  {
    ghost var was := tasks[..];
    MergesTell(was, [updates]);
    hide Merges;
    for i := 0 to tasks.Length
      invariant forall k | 0 <= k < i :: tasks[k] == Merged(old(tasks[k]), updates)
      invariant forall k | i <= k < tasks.Length :: tasks[k] == old(tasks[k])
    {
      if tasks[i].id !in updates {
        continue;
      }
      var update := updates[tasks[i].id];
      var newerRun := update.lastRunAt > tasks[i].lastRunAt;
      if update.topicID != "" && (tasks[i].topicID == "" || newerRun) {
        tasks[i] := tasks[i].(topicID := update.topicID);
      }
      if newerRun {
        tasks[i] := tasks[i].(lastRunAt := update.lastRunAt);
      }
      if tasks[i].createdAt == 0 && update.createdAt != 0 {
        tasks[i] := tasks[i].(createdAt := update.createdAt);
      }
    }
    assert [updates][..0] == [];
    assert tasks[..] == AfterMerges(was, [updates]);
  }

  /** Any number of merges, one after the other, leave of each task just that. */
  lemma MergesTell(tasks: seq<Task>, merges: seq<map<string, Task>>)
    ensures forall i | 0 <= i < |tasks| :: Merges(tasks[i], merges, AfterMerges(tasks, merges)[i])
  {
    hide Merges, AfterMerges;
    forall i | 0 <= i < |tasks| ensures Merges(tasks[i], merges, AfterMerges(tasks, merges)[i]) {
      MergesTellOf(tasks, merges, i);
    }
  }

  ghost predicate TopicBlank(t: Task, merges: seq<map<string, Task>>) {
    t.topicID == "" && forall k | 0 <= k < |merges| :: !Names(t, merges, k)
  }

  ghost predicate CreationBlank(t: Task, merges: seq<map<string, Task>>) {
    t.createdAt == 0 && forall k | 0 <= k < |merges| :: !BringsCreation(t, merges, k)
  }

  lemma {:induction false} MergesTellOf(tasks: seq<Task>, merges: seq<map<string, Task>>, i: nat)
    requires i < |tasks|
    ensures var after := AfterMerges(tasks, merges)[i];
            Merges(tasks[i], merges, after) && (after.topicID == "" <==> TopicBlank(tasks[i], merges)) &&
            (after.createdAt == 0 <==> CreationBlank(tasks[i], merges))
  {
    if merges != [] {
      var n := |merges| - 1;
      hide NewestRun, LastTopic, FirstCreation, TopicBlank, CreationBlank;
      MergesTellOf(tasks, merges[..n], i);
      var t, before := tasks[i], AfterMerges(tasks, merges[..n])[i];
      assert merges == merges[..n] + [merges[n]];
      MergeRunTime(t, merges[..n], merges[n], before);
      MergeTopic(t, merges[..n], merges[n], before);
      MergeCreation(t, merges[..n], merges[n], before);
    }
  }

  lemma MergeRunTime(t: Task, merges: seq<map<string, Task>>, u: map<string, Task>, before: Task)
    requires before.id == t.id && NewestRun(t, merges, before.lastRunAt)
    ensures NewestRun(t, merges + [u], Merged(before, u).lastRunAt)
  {
    var more := merges + [u];
    assert more[|merges|] == u && forall k | 0 <= k < |merges| :: more[k] == merges[k];
  }

  lemma SameBefore(t: Task, merges: seq<map<string, Task>>, u: map<string, Task>, k: nat)
    requires k < |merges|
    ensures BringsTopic(t, merges + [u], k) <==> BringsTopic(t, merges, k)
    ensures Names(t, merges + [u], k) <==> Names(t, merges, k)
    ensures BringsCreation(t, merges + [u], k) <==> BringsCreation(t, merges, k)
    ensures (merges + [u])[k] == merges[k]
  {
    var more := merges + [u];
    assert forall j | 0 <= j <= k :: more[j] == merges[j];
    assert forall j | 0 <= j < k :: Names(t, more, j) <==> Names(t, merges, j);
    assert BringsNewer(t, more, k) <==> BringsNewer(t, merges, k) by {
      assert forall j | 0 <= j < k && t.id in merges[j] :: more[j] == merges[j];
      assert forall j | 0 <= j < k && t.id in more[j] :: more[j] == merges[j];
    }
  }

  lemma MergeTopic(t: Task, merges: seq<map<string, Task>>, u: map<string, Task>, before: Task)
    requires before.id == t.id && NewestRun(t, merges, before.lastRunAt) && LastTopic(t, merges, before.topicID)
    requires before.topicID == "" <==> TopicBlank(t, merges)
    ensures LastTopic(t, merges + [u], Merged(before, u).topicID)
    ensures Merged(before, u).topicID == "" <==> TopicBlank(t, merges + [u])
  {
    var more, n := merges + [u], |merges|;
    assert more[n] == u;
    forall k: nat | k < n
      ensures (BringsTopic(t, more, k) <==> BringsTopic(t, merges, k)) && (Names(t, more, k) <==> Names(t, merges, k)) && more[k] == merges[k]
    {
      SameBefore(t, merges, u, k);
    }
    assert BringsTopic(t, more, n) <==> t.id in u && u[t.id].topicID != "" && (before.topicID == "" || u[t.id].lastRunAt > before.lastRunAt) by {
      if t.id in u {
        assert BringsNewer(t, more, n) <==> u[t.id].lastRunAt > before.lastRunAt;
      }
    }
    hide BringsTopic, NewestRun, BringsNewer;
  }

  lemma MergeCreation(t: Task, merges: seq<map<string, Task>>, u: map<string, Task>, before: Task)
    requires before.id == t.id && FirstCreation(t, merges, before.createdAt)
    requires before.createdAt == 0 <==> CreationBlank(t, merges)
    ensures FirstCreation(t, merges + [u], Merged(before, u).createdAt)
    ensures Merged(before, u).createdAt == 0 <==> CreationBlank(t, merges + [u])
  {
    var more, n := merges + [u], |merges|;
    assert more[n] == u;
    forall k: nat | k < n ensures (BringsCreation(t, more, k) <==> BringsCreation(t, merges, k)) && more[k] == merges[k] {
      SameBefore(t, merges, u, k);
    }
    hide BringsCreation;
    assert BringsCreation(t, more, n) <==> t.id in u && u[t.id].createdAt != 0 by {
      CreationOfLast(t, more);
    }
    assert (forall k: nat | k < n :: !BringsCreation(t, more, k)) <==> (forall k: nat | k < n :: !BringsCreation(t, merges, k));
  }

  lemma CreationOfLast(t: Task, merges: seq<map<string, Task>>)
    requires merges != []
    ensures BringsCreation(t, merges, |merges| - 1) <==> t.id in merges[|merges| - 1] && merges[|merges| - 1][t.id].createdAt != 0
  {
  }

  /** The same tasks with the same definitions; no run time lowered, no topic or creation time lost. */
  ghost predicate RunStateOnly(before: seq<Task>, after: seq<Task>) {
    |after| == |before| &&
    forall i | 0 <= i < |before| ::
      after[i].id == before[i].id && after[i].def == before[i].def && after[i].lastRunAt >= before[i].lastRunAt &&
      (before[i].topicID != "" ==> after[i].topicID != "") &&
      (before[i].createdAt != 0 ==> after[i].createdAt == before[i].createdAt)
  }

  /** A merge writes run state only, and keeps the topic of a run that is not older than the update's. */
  lemma MergeWritesRunState(tasks: seq<Task>, updates: map<string, Task>)
    ensures RunStateOnly(tasks, MergedAll(tasks, updates))
    ensures forall i | 0 <= i < |tasks| && tasks[i].id in updates ::
              (updates[tasks[i].id].lastRunAt <= tasks[i].lastRunAt && tasks[i].topicID != "" ==>
                 MergedAll(tasks, updates)[i].topicID == tasks[i].topicID) &&
              MergedAll(tasks, updates)[i].lastRunAt ==
                (if updates[tasks[i].id].lastRunAt > tasks[i].lastRunAt then updates[tasks[i].id].lastRunAt else tasks[i].lastRunAt)
  {
  }

  /** Merging the same completions again changes nothing; the order of completions does not decide run times. */
  lemma MergeIsIdempotent(tasks: seq<Task>, updates: map<string, Task>)
    ensures MergedAll(MergedAll(tasks, updates), updates) == MergedAll(tasks, updates)
  {
  }

  // ---- The engine --------------------------------------------------------------------------------

  datatype Pending = Pending(topicID: string, submitted: bool)

  /** A write of this engine: the bytes it replaced and the bytes it left. */
  datatype Write = Write(before: Option<string>, after: string)

  datatype MergeOutcome = NothingToMerge | Unreadable | FileDeleted | WriteFailed | Merged | LostRaces

  datatype WriteResult = Written | Conflict | Failed

  function NextRevision(current: Snapshot): nat {
    if current.present then (current.cfg.revision + 1) % REVISION_LIMIT else 1
  }

  /** `w` replaced a file that read as `expected` by `tasks` under the next revision. */
  ghost predicate Replaces(codec: Codec, w: Write, expected: Snapshot, tasks: seq<Task>) {
    SnapshotOf(codec, w.before) == Some(expected) && w.after == codec.encode(Config(NextRevision(expected), tasks))
  }

  /** What an engine holds: its list, and the file it believes that list to be (none: no file). */
  datatype View = View(tasks: seq<Task>, digest: Option<string>)

  function ViewOf(tasks: seq<Task>, s: Snapshot): View {
    View(tasks, if s.present then Some(s.digest) else None)
  }

  /** The view of an initialized engine after it has looked at the file again. */
  function Adopted(codec: Codec, v: View, raw: Option<string>): View {
    var s := SnapshotOf(codec, raw);
    if s.None? then v
    else if !s.value.present then (if v.digest.Some? then View([], None) else v)
    else if v.digest == Some(s.value.digest) then v
    else ViewOf(s.value.cfg.tasks, s.value)
  }

  /** The list an engine holds is the one in the file it believes in. */
  predicate InStep(codec: Codec, v: View) {
    v.digest.Some? ==> Some(v.tasks) == (var c := codec.parse(v.digest.value); if c.Some? then Some(c.value.tasks) else None)
  }

  lemma WrittenReadsBack(codec: Codec, w: Write, expected: Snapshot, tasks: seq<Task>)
    requires codec.RoundTrips() && Replaces(codec, w, expected, tasks)
    ensures SnapshotOf(codec, Some(w.after)).Some? && TasksOf(codec, Some(w.after)) == tasks
  {
  }

  /** The list a merge starts from: that of the file; only an engine that never saw one brings its own. */
  function ListToMerge(expected: Snapshot, initialized: bool, own: seq<Task>): seq<Task> {
    if expected.present || initialized then expected.cfg.tasks else own
  }

  /** What an engine has recorded of the file. */
  datatype Mark = Mark(revision: nat, digest: string, present: bool)

  function MarkOf(s: Snapshot): Mark {
    Mark(s.cfg.revision, s.digest, s.present)
  }

  /** What an engine knows of the config: its list, what it last recorded of the file (none before it has looked), and
      whether it has seen the file removed. */
  datatype Memory = Memory(tasks: seq<Task>, recorded: Option<Mark>, deleted: bool)

  /** What a call is to write. `base` is the content from which the caller of a list edit took its list; the code is not
      told of it. A panel edit names its content by revision and tag. */
  datatype Plan =
    | MergeRuns(updates: map<string, Task>)
    | EditList(list: seq<Task>, base: Option<string>)
    | EditPanel(revision: nat, etag: string, list: seq<Task>)

  predicate SeesDeletion(g: Memory) {
    g.deleted || (g.recorded.Some? && g.recorded.value.present)
  }

  /** The list an engine goes on to write when it has read `s`; `None` when it refuses or has nothing to write. */
  function Plans(g: Memory, plan: Plan, s: Snapshot): Option<seq<Task>> {
    match plan
    case MergeRuns(updates) =>
      if |updates| == 0 || (!s.present && SeesDeletion(g)) then None
      else Some(MergedAll(ListToMerge(s, g.recorded.Some?, g.tasks), updates))
    case EditList(list, _) => if g.recorded.Some? && g.recorded.value != MarkOf(s) then None else Some(list)
    case EditPanel(revision, etag, list) => if s.cfg.revision != revision || s.digest != etag then None else Some(list)
  }

  function Records(g: Memory, s: Snapshot): Memory {
    g.(recorded := Some(MarkOf(s)), deleted := g.deleted && !s.present)
  }

  /** What an engine knows once it has seen the file removed. */
  function Emptied(g: Memory): Memory {
    Memory([], Some(MarkOf(MISSING)), true)
  }

  /** Reading the file and taking over what it says; an unreadable one changes nothing. */
  function Looked(codec: Codec, g: Memory, raw: Option<string>): Memory {
    var now := SnapshotOf(codec, raw);
    if now.None? then g else Records(g, now.value).(tasks := now.value.cfg.tasks)
  }

  /** Adopting a change made by others; a file that is the one recorded, or was never there, changes nothing. */
  function Adopts(codec: Codec, g: Memory, raw: Option<string>): Memory {
    var now := SnapshotOf(codec, raw);
    if now.None? then g
    else if !now.value.present then (if g.recorded.Some? && g.recorded.value.present then Emptied(g) else g)
    else if g.recorded.Some? && g.recorded.value.present && g.recorded.value.digest == now.value.digest then g
    else Looked(codec, g, raw)
  }

  /** Looking at the file again after writing `list` for `plan`: a panel edit takes over what is there, others keep what
      they wrote. */
  function Reloaded(codec: Codec, g: Memory, plan: Plan, list: seq<Task>, raw: Option<string>): Memory {
    if plan.EditPanel? || SnapshotOf(codec, raw).None? then Looked(codec, g, raw)
    else Records(g, SnapshotOf(codec, raw).value).(tasks := list)
  }

  class HeartbeatEngine {
    const codec: Codec
    var tasks: seq<Task>
    var cfgRevision: nat
    var cfgDigest: string
    var cfgKnown: bool
    var cfgInitialized: bool
    var cfgDeleted: bool
    var pendingTopics: map<string, Pending>

    constructor (codec: Codec)
      ensures this.codec == codec && !cfgInitialized && !cfgKnown && !cfgDeleted && tasks == [] && pendingTopics == map[]
    {
      this.codec := codec;
      tasks, cfgRevision, cfgDigest, pendingTopics := [], 0, "", map[];
      cfgKnown, cfgInitialized, cfgDeleted := false, false, false;
    }

    /** A known file has been looked at. */
    predicate Valid()
      reads this
    {
      cfgKnown ==> cfgInitialized
    }

    method ReadConfigSnapshot(file: ConfigFile) returns (s: Option<Snapshot>)
      ensures s == SnapshotOf(codec, file.raw)
    {
      return SnapshotOf(codec, file.raw);
    }

    predicate Recorded(s: Snapshot)
      reads this
    {
      cfgRevision == s.cfg.revision && cfgDigest == s.digest && cfgKnown == s.present
    }

    function Knows(): Memory
      reads this
    {
      Memory(tasks, if cfgInitialized then Some(Mark(cfgRevision, cfgDigest, cfgKnown)) else None, cfgDeleted)
    }

    function TheView(): View
      reads this
    {
      View(tasks, if cfgKnown then Some(cfgDigest) else None)
    }

    method RecordConfigSnapshot(s: Snapshot)
      modifies this`cfgRevision, this`cfgDigest, this`cfgKnown, this`cfgInitialized, this`cfgDeleted
      ensures Recorded(s) && cfgInitialized && cfgDeleted == (old(cfgDeleted) && !s.present)
    {
      cfgRevision, cfgDigest, cfgKnown, cfgInitialized := s.cfg.revision, s.digest, s.present, true;
      if s.present {
        cfgDeleted := false;
      }
    }

    /** Drops pending topics of tasks that no longer open a conversation per run. */
    method PrunePendingTopics(list: seq<Task>)
      modifies this`pendingTopics
      ensures pendingTopics == Kept(old(pendingTopics), list)
      ensures forall id :: id in pendingTopics <==>
                id in old(pendingTopics) && exists i | 0 <= i < |list| :: list[i].id == id && list[i].def.newConversationEachRun
      ensures forall id | id in pendingTopics :: pendingTopics[id] == old(pendingTopics)[id]
    {
      if |pendingTopics| == 0 {
        return;
      }
      pendingTopics := Kept(pendingTopics, list);
    }

    /** What the engine starts with: what it finds in the file, if that can be read. */
    method Start(file: ConfigFile)
      requires Valid()
      modifies this`tasks, this`cfgRevision, this`cfgDigest, this`cfgKnown, this`cfgInitialized, this`cfgDeleted
      ensures Valid() && Knows() == Looked(codec, old(Knows()), file.raw)
      ensures SnapshotOf(codec, file.raw).Some? ==> tasks == TasksOf(codec, file.raw) && Recorded(SnapshotOf(codec, file.raw).value) && cfgInitialized
    {
      var s := ReadConfigSnapshot(file);
      if s.Some? {
        RecordConfigSnapshot(s.value);
        tasks := s.value.cfg.tasks;
      }
    }

    /** Takes over what the file says, changed or not. */
    method ReloadConfig(file: ConfigFile)
      requires Valid()
      modifies this
      ensures Valid() && Knows() == Looked(codec, old(Knows()), file.raw)
      ensures SnapshotOf(codec, file.raw).Some? ==> tasks == TasksOf(codec, file.raw) && Recorded(SnapshotOf(codec, file.raw).value) && cfgInitialized
      ensures pendingTopics == if SnapshotOf(codec, file.raw).Some? then Kept(old(pendingTopics), tasks) else old(pendingTopics)
    {
      var s := ReadConfigSnapshot(file);
      if s.None? {
        return;
      }
      RecordConfigSnapshot(s.value);
      tasks := s.value.cfg.tasks;
      PrunePendingTopics(tasks);
    }

    /** Adopts a file another writer changed; a deleted file empties the engine. */
    method AdoptExternalEdits(file: ConfigFile)
      requires Valid()
      modifies this
      ensures Valid() && TheView() == Adopted(codec, old(TheView()), file.raw)
      ensures pendingTopics == if TheView() == old(TheView()) then old(pendingTopics) else Kept(old(pendingTopics), tasks)
      ensures old(InStep(codec, TheView())) ==> InStep(codec, TheView())
      ensures Knows() == Adopts(codec, old(Knows()), file.raw)
      // Unreadable, as recorded, or never there: nothing changes. Removed: nothing is left. Otherwise it is taken over.
      ensures (SnapshotOf(codec, file.raw).None? || (file.raw.Some? && old(cfgKnown) && old(cfgDigest) == file.raw.value) ||
               (file.raw.None? && !old(cfgKnown))) ==> Knows() == old(Knows()) && pendingTopics == old(pendingTopics)
      ensures file.raw.None? && old(cfgKnown) ==> tasks == [] && pendingTopics == map[] && cfgDeleted && !cfgKnown
      ensures SnapshotOf(codec, file.raw).Some? && file.raw.Some? && !(old(cfgKnown) && old(cfgDigest) == file.raw.value) ==>
                tasks == TasksOf(codec, file.raw) && Recorded(SnapshotOf(codec, file.raw).value) && cfgInitialized && !cfgDeleted
    {
      var s := ReadConfigSnapshot(file);
      if s.None? {
        return;
      }
      if !s.value.present {
        if cfgInitialized && cfgKnown {
          tasks, pendingTopics, cfgDeleted := [], map[], true;
          RecordConfigSnapshot(s.value);
        }
        return;
      }
      if cfgKnown && s.value.digest == cfgDigest {
        return;
      }
      RecordConfigSnapshot(s.value);
      tasks := s.value.cfg.tasks;
      PrunePendingTopics(tasks);
    }

    /** The lock-guarded compare-and-write. */
    method WriteTasks(file: ConfigFile, list: seq<Task>, expected: Snapshot, compare: bool, locks: bool, saves: bool)
      returns (r: WriteResult)
      modifies file
      ensures r == var current := SnapshotOf(codec, old(file.raw));
                   if !locks || current.None? then Failed
                   else if compare && !SameConfig(current.value, expected) then Conflict
                   else if !saves then Failed else Written
      ensures r.Written? ==>
                file.raw.Some? && SnapshotOf(codec, old(file.raw)).Some? &&
                file.raw.value == codec.encode(Config(NextRevision(SnapshotOf(codec, old(file.raw)).value), list)) &&
                (compare ==> SameConfig(SnapshotOf(codec, old(file.raw)).value, expected))
      ensures !r.Written? ==> file.raw == old(file.raw)
    {
      if !locks {
        return Failed;
      }
      var current := ReadConfigSnapshot(file);
      if current.None? {
        return Failed;
      }
      if compare && !SameConfig(current.value, expected) {
        return Conflict;
      }
      if !saves {
        return Failed;
      }
      file.raw := Some(codec.encode(Config(NextRevision(current.value), list)));
      return Written;
    }

    /** Writes the merge of a list into the file, if that still is the file the list was read from. */
    method WriteMerged(file: ConfigFile, list: seq<Task>, updates: map<string, Task>, expected: Snapshot, around: Surroundings, attempt: nat)
      returns (r: WriteResult, merged: seq<Task>, ghost w: Write)
      requires SnapshotOf(codec, file.raw) == Some(expected)
      modifies file
      ensures merged == MergedAll(list, updates)
      ensures r.Written? ==>
                w.before == around.others(2 * attempt, old(file.raw)) == old(file.raw) && file.raw == Some(w.after) &&
                Replaces(codec, w, expected, merged)
      ensures !r.Written? ==> file.raw == around.others(2 * attempt, old(file.raw))
      ensures r.Conflict? ==> file.raw != old(file.raw)
      ensures r.Failed? ==> SnapshotOf(codec, file.raw).None? || !around.locks(attempt) || !around.saves(attempt)
      ensures around.others(2 * attempt, old(file.raw)) == old(file.raw) && around.locks(attempt) && around.saves(attempt) ==> r.Written?
    {
      ghost var seen := file.raw;
      var work := new Task[|list|](i requires 0 <= i < |list| => list[i]);
      assert work[..] == list;
      MergeHeartbeatRunUpdates(work, updates);
      merged := work[..];
      Others(file, around, 2 * attempt);
      ghost var before := file.raw;
      r := WriteTasks(file, merged, expected, true, around.locks(attempt), around.saves(attempt));
      if r.Written? {
        SameConfigIsSameContent(codec, before, seen);
        w := Write(before, file.raw.value);
      } else {
        w := Write(None, "");
      }
    }

    /** Looks at the file again after a write; the engine keeps the list it wrote. */
    method ReloadAfterWrite(file: ConfigFile, list: seq<Task>, around: Surroundings, k: nat) returns (latest: Option<Snapshot>)
      modifies this, file
      ensures file.raw == around.others(k, old(file.raw)) && latest == SnapshotOf(codec, file.raw)
      ensures latest.Some? ==> tasks == list && Recorded(latest.value) && TheView() == ViewOf(list, latest.value) && cfgInitialized
      ensures latest.None? ==> cfgKnown == old(cfgKnown) && cfgInitialized == old(cfgInitialized)
      ensures latest.None? ==> Knows() == old(Knows())
      ensures latest.Some? ==> Knows() == Records(old(Knows()), latest.value).(tasks := list)
    {
      Others(file, around, k);
      latest := ReadConfigSnapshot(file);
      if latest.Some? {
        RecordConfigSnapshot(latest.value);
        tasks := list;
        PrunePendingTopics(list);
      }
    }

    /** What one written merge promises: it replaced what the file held at that moment, which is what it had read;
        the engine keeps the list it wrote and records the file as it then finds it, so that it is in step with
        the file exactly if others left that list there. */
    ghost predicate MergedInto(w: Write, own: seq<Task>, initialized: bool, updates: map<string, Task>, read: Option<string>,
                               left: Option<string>, reload: Option<Option<string>>)
      reads this
    {
      w.before == read && SnapshotOf(codec, read).Some? &&
      (read.Some? || initialized ==> Replaces(codec, w, SnapshotOf(codec, read).value, MergedAll(TasksOf(codec, read), updates))) &&
      (read.None? && !initialized ==> Replaces(codec, w, SnapshotOf(codec, read).value, MergedAll(own, updates))) &&
      SnapshotOf(codec, Some(w.after)).Some? && (reload.None? ==> SnapshotOf(codec, left).None?) &&
      (reload.Some? ==>
        reload.value == left && SnapshotOf(codec, left).Some? &&
        TheView() == ViewOf(TasksOf(codec, Some(w.after)), SnapshotOf(codec, left).value) &&
        (InStep(codec, TheView()) <==> left.None? || TasksOf(codec, left) == TasksOf(codec, Some(w.after))))
    }

    /** A call of the engine has written what its plan made of the content it read, and has then looked at the file again. */
    predicate Follows(w: Write, was: Memory, plan: Plan, left: Option<string>)
      reads this
    {
      SnapshotOf(codec, w.before).Some? &&
      var list := Plans(was, plan, SnapshotOf(codec, w.before).value);
      list.Some? && w.after == codec.encode(Config(NextRevision(SnapshotOf(codec, w.before).value), list.value)) &&
      Knows() == Reloaded(codec, was, plan, list.value, left)
    }

    /** One attempt: `None` when the file changed before the write, and another attempt is due. */
    method MergeAttempt(file: ConfigFile, updates: map<string, Task>, around: Surroundings, attempt: nat)
      returns (outcome: Option<MergeOutcome>, ghost w: Write, ghost reload: Option<Option<string>>)
      requires codec.RoundTrips() && |updates| > 0 && Valid()
      modifies this, file
      ensures Valid()
      ensures outcome.None? ==> Knows() == old(Knows())
      ensures outcome.None? ==>
                file.raw == around.others(2 * attempt, old(file.raw)) != old(file.raw) &&
                tasks == old(tasks) && cfgKnown == old(cfgKnown) && cfgInitialized == old(cfgInitialized) && cfgDeleted == old(cfgDeleted)
      ensures outcome == Some(FileDeleted) <==> old(file.raw).None? && old(cfgDeleted || cfgKnown)
      ensures outcome.Some? && !outcome.value.Merged? ==>
                Knows() == if outcome.value.FileDeleted? then Emptied(old(Knows())) else old(Knows())
      ensures outcome == Some(Merged) ==> Follows(w, old(Knows()), MergeRuns(updates), file.raw)
      ensures outcome.Some? ==>
                match outcome.value
                case Unreadable => file.raw == old(file.raw) && SnapshotOf(codec, file.raw).None?
                case FileDeleted =>
                  file.raw == old(file.raw) && tasks == [] && pendingTopics == map[] && cfgDeleted
                case WriteFailed =>
                  file.raw == around.others(2 * attempt, old(file.raw)) &&
                  (SnapshotOf(codec, file.raw).None? || !around.locks(attempt) || !around.saves(attempt))
                case Merged =>
                  file.raw == around.others(2 * attempt + 1, Some(w.after)) && around.others(2 * attempt, old(file.raw)) == old(file.raw) &&
                  MergedInto(w, old(tasks), old(cfgInitialized), updates, old(file.raw), file.raw, reload)
                case _ => false
    {
      w, reload := Write(None, ""), None;
      var expected := ReadConfigSnapshot(file);
      if expected.None? {
        return Some(Unreadable), w, reload;
      }
      var list := expected.value.cfg.tasks;
      if !expected.value.present {
        if cfgDeleted || (cfgInitialized && cfgKnown) {
          tasks, pendingTopics, cfgDeleted := [], map[], true;
          RecordConfigSnapshot(expected.value);
          return Some(FileDeleted), w, reload;
        }
        if !cfgInitialized {
          list := tasks;
        }
      }
      var r, merged;
      r, merged, w := WriteMerged(file, list, updates, expected.value, around, attempt);
      if r.Conflict? {
        return None, w, reload;
      }
      if r.Failed? {
        return Some(WriteFailed), w, reload;
      }
      WrittenReadsBack(codec, w, expected.value, merged);
      var latest := ReloadAfterWrite(file, merged, around, 2 * attempt + 1);
      if latest.Some? {
        reload := Some(file.raw);
        if file.raw.Some? {
          MergeLeavesEngineInStep(codec, merged, file.raw);
        }
      }
      return Some(Merged), w, reload;
    }

    /** Merges finished runs into the file, on whatever it holds by then; up to three attempts. */
    method MergeRunUpdates(file: ConfigFile, updates: map<string, Task>, around: Surroundings)
      returns (outcome: MergeOutcome, ghost w: Write, ghost reload: Option<Option<string>>, ghost attempts: nat)
      requires codec.RoundTrips() && Valid()
      modifies this, file
      ensures Valid()
      ensures !outcome.Merged? ==> Knows() == if outcome.FileDeleted? then Emptied(old(Knows())) else old(Knows())
      ensures outcome.Merged? ==> Follows(w, old(Knows()), MergeRuns(updates), file.raw)
      ensures attempts <= 3 && (outcome.NothingToMerge? <==> |updates| == 0)
      // It overwrites at most once: with the merge into what the file held at that moment.
      ensures outcome.Merged? ==>
                attempts > 0 && FileAt(around, old(file.raw), attempts) == FileAt(around, old(file.raw), attempts - 1) &&
                file.raw == around.others(2 * attempts + 1, Some(w.after)) &&
                MergedInto(w, old(tasks), old(cfgInitialized), updates, FileAt(around, old(file.raw), attempts), file.raw, reload)
      ensures !outcome.Merged? ==> file.raw == FileAt(around, old(file.raw), attempts)
      ensures outcome.Unreadable? ==> SnapshotOf(codec, file.raw).None?
      ensures outcome.FileDeleted? ==>
                file.raw.None? && old(cfgDeleted || cfgKnown) && tasks == [] && pendingTopics == map[] && cfgDeleted
      ensures |updates| > 0 && SnapshotOf(codec, old(file.raw)).Some? ==>
                if old(file.raw).None? && old(cfgDeleted || cfgKnown) then outcome == FileDeleted
                else around.others(2, old(file.raw)) == old(file.raw) && around.locks(1) && around.saves(1) ==> outcome.Merged? && attempts == 1
    {
      w, reload, attempts := Write(None, ""), None, 0;
      if |updates| == 0 {
        return NothingToMerge, w, reload, attempts;
      }
      hide MergedInto, Follows;
      var attempt := 0;
      while attempt < 3
        invariant attempts == attempt && file.raw == FileAt(around, old(file.raw), attempt)
        invariant tasks == old(tasks) && cfgKnown == old(cfgKnown) && cfgInitialized == old(cfgInitialized) && cfgDeleted == old(cfgDeleted)
        invariant attempt > 0 ==> around.others(2, old(file.raw)) != old(file.raw)
        invariant attempt > 0 && old(file.raw).None? ==> !old(cfgDeleted || cfgKnown)
        invariant Knows() == old(Knows())
      {
        attempt := attempt + 1;
        var done;
        done, w, reload := MergeAttempt(file, updates, around, attempt);
        if done.Some? {
          attempts := if done.value.Unreadable? || done.value.FileDeleted? then attempt - 1 else attempt;
          return done.value, w, reload, attempts;
        }
        attempts := attempt;
      }
      return LostRaces, w, reload, attempts;
    }

    /** A list edit: refused unless the file is the one this engine last recorded. */
    method ReplaceTasks(file: ConfigFile, list: seq<Task>, around: Surroundings) returns (ok: bool, ghost writes: seq<Write>)
      requires codec.RoundTrips() && Valid()
      modifies this, file
      ensures Valid()
      ensures ok ==> tasks == list && SnapshotOf(codec, file.raw).Some? && Recorded(SnapshotOf(codec, file.raw).value)
      ensures around.Calm() ==>
                var was := SnapshotOf(codec, old(file.raw));
                ok == (was.Some? && (old(cfgInitialized) ==> old(Recorded(was.value))))
      ensures |writes| <= 1 && (ok ==> |writes| == 1)
      // What it wrote over is what the file held at that moment, and is what it had read.
      ensures |writes| == 1 ==>
                writes[0].before == around.others(0, old(file.raw)) == old(file.raw) && file.raw == around.others(1, Some(writes[0].after))
      ensures writes == [] ==> file.raw == old(file.raw) || file.raw == around.others(0, old(file.raw))
      ensures forall w | w in writes :: SnapshotOf(codec, w.before).Some? &&
                var was := SnapshotOf(codec, w.before).value;
                Replaces(codec, w, was, list) && (old(cfgInitialized) ==> old(Recorded(was)))
      ensures if writes == [] then Knows() == old(Knows()) else Follows(writes[0], old(Knows()), EditList(list, None), file.raw)
    {
      writes := [];
      var expected := ReadConfigSnapshot(file);
      if expected.None? {
        return false, writes;
      }
      ghost var seen := file.raw;
      if cfgInitialized && !Recorded(expected.value) {
        return false, writes;
      }
      Others(file, around, 0);
      ghost var before := file.raw;
      var r := WriteTasks(file, list, expected.value, true, around.locks(0), around.saves(0));
      if !r.Written? {
        return false, writes;
      }
      SameConfigIsSameContent(codec, before, seen);
      writes := [Write(before, file.raw.value)];
      var latest := ReloadAfterWrite(file, list, around, 1);
      return latest.Some?, writes;
    }

    /** A panel edit: refused unless revision and tag still name the exact file the user edited. */
    method ReplaceConfig(file: ConfigFile, revision: nat, etag: string, list: seq<Task>, around: Surroundings)
      returns (ok: bool, ghost writes: seq<Write>)
      requires codec.RoundTrips() && Valid()
      modifies this, file
      ensures Valid()
      ensures ok ==> SnapshotOf(codec, file.raw).Some? && TheView() == ViewOf(TasksOf(codec, file.raw), SnapshotOf(codec, file.raw).value)
      ensures around.Calm() ==>
                var was := SnapshotOf(codec, old(file.raw));
                ok == (was.Some? && was.value.cfg.revision == revision && was.value.digest == etag)
      ensures |writes| <= 1 && (ok ==> |writes| == 1)
      // What it wrote over is what the file held at that moment, and is what it had read.
      ensures |writes| == 1 ==>
                writes[0].before == around.others(0, old(file.raw)) == old(file.raw) && file.raw == around.others(1, Some(writes[0].after))
      ensures writes == [] ==> file.raw == old(file.raw) || file.raw == around.others(0, old(file.raw))
      ensures forall w | w in writes :: SnapshotOf(codec, w.before).Some? &&
                var was := SnapshotOf(codec, w.before).value;
                Replaces(codec, w, was, list) && was.cfg.revision == revision && was.digest == etag
      ensures if writes == [] then Knows() == old(Knows()) else Follows(writes[0], old(Knows()), EditPanel(revision, etag, list), file.raw)
    {
      writes := [];
      var expected := ReadConfigSnapshot(file);
      if expected.None? {
        return false, writes;
      }
      ghost var seen := file.raw;
      if expected.value.cfg.revision != revision || expected.value.digest != etag {
        return false, writes;
      }
      Others(file, around, 0);
      ghost var before := file.raw;
      var r := WriteTasks(file, list, expected.value, true, around.locks(0), around.saves(0));
      if !r.Written? {
        return false, writes;
      }
      SameConfigIsSameContent(codec, before, seen);
      writes := [Write(before, file.raw.value)];
      Others(file, around, 1);
      var latest := ReadConfigSnapshot(file);
      if latest.None? {
        return false, writes;
      }
      RecordConfigSnapshot(latest.value);
      tasks := latest.value.cfg.tasks;
      PrunePendingTopics(tasks);
      return true, writes;
    }
  }

  /** The pending topics that survive the adoption of a list. */
  function Kept(pending: map<string, Pending>, list: seq<Task>): map<string, Pending> {
    map id | id in pending && KeepsPending(list, id) :: pending[id]
  }

  predicate KeepsPending(list: seq<Task>, id: string) {
    exists i | 0 <= i < |list| :: list[i].def.newConversationEachRun && list[i].id == id
  }

  // ---- What the file goes through ------------------------------------------------------------------

  /** The tasks a file holds; none when it is missing or unreadable. */
  function TasksOf(codec: Codec, raw: Option<string>): seq<Task> {
    var s := SnapshotOf(codec, raw);
    if s.Some? then s.value.cfg.tasks else []
  }

  function RevisionOf(codec: Codec, raw: Option<string>): nat {
    var s := SnapshotOf(codec, raw);
    if s.Some? then s.value.cfg.revision else 0
  }

  /** A run-state write by an engine that has seen the file before. */
  ghost predicate RunStateWrite(codec: Codec, w: Write) {
    SnapshotOf(codec, w.before).Some? &&
    exists updates :: Replaces(codec, w, SnapshotOf(codec, w.before).value, MergedAll(SnapshotOf(codec, w.before).value.cfg.tasks, updates))
  }

  /** Consecutive contents of the file, each put there by some engine's run-state write. */
  ghost predicate RunStateHistory(codec: Codec, raws: seq<Option<string>>) {
    forall i | 0 < i < |raws| :: raws[i].Some? && RunStateWrite(codec, Write(raws[i - 1], raws[i].value))
  }

  lemma RunStateWriteKeeps(codec: Codec, w: Write)
    requires codec.RoundTrips() && RunStateWrite(codec, w)
    ensures RunStateOnly(TasksOf(codec, w.before), TasksOf(codec, Some(w.after)))
    ensures RevisionOf(codec, Some(w.after)) == NextRevision(SnapshotOf(codec, w.before).value)
  {
    var was := SnapshotOf(codec, w.before).value;
    var updates :| Replaces(codec, w, was, MergedAll(was.cfg.tasks, updates));
    MergeWritesRunState(was.cfg.tasks, updates);
  }

  /** Each file but the first is what a write left in the place of the one before. */
  ghost predicate Written(codec: Codec, raws: seq<Option<string>>) {
    forall i | 0 < i < |raws| :: raws[i].Some? && IsWrite(codec, Write(raws[i - 1], raws[i].value))
  }

  ghost predicate IsWrite(codec: Codec, w: Write) {
    SnapshotOf(codec, w.before).Some? && exists tasks :: Replaces(codec, w, SnapshotOf(codec, w.before).value, tasks)
  }

  lemma WriteCountsUp(codec: Codec, w: Write)
    requires codec.RoundTrips() && IsWrite(codec, w)
    ensures SnapshotOf(codec, Some(w.after)).Some?
    ensures RevisionOf(codec, Some(w.after)) == if w.before.None? then 1 else (RevisionOf(codec, w.before) + 1) % 0x1_0000_0000_0000_0000
  {
    var tasks :| Replaces(codec, w, SnapshotOf(codec, w.before).value, tasks);
  }

  lemma OneMore(a: nat)
    ensures (a % 0x1_0000_0000_0000_0000 + 1) % 0x1_0000_0000_0000_0000 == (a + 1) % 0x1_0000_0000_0000_0000
  {
  }

  /** The first write to a missing file has revision 1, and each write counts one up, to the width of the counter. */
  lemma {:induction false} RevisionsCountUp(codec: Codec, raws: seq<Option<string>>, i: nat, j: nat)
    requires codec.RoundTrips() && Written(codec, raws) && i <= j < |raws|
    ensures i < j ==>
              SnapshotOf(codec, raws[j]).Some? && raws[j].Some? &&
              RevisionOf(codec, raws[j]) == (if raws[i].None? then j - i else RevisionOf(codec, raws[i]) + (j - i)) % 0x1_0000_0000_0000_0000
    decreases j
  {
    if i < j {
      hide IsWrite, RevisionOf, SnapshotOf;
      RevisionsCountUp(codec, raws, i, j - 1);
      WriteCountsUp(codec, Write(raws[j - 1], raws[j].value));
      OneMore(if raws[i].None? then j - 1 - i else RevisionOf(codec, raws[i]) + (j - 1 - i));
    }
  }

  /** However the run-state writes of any number of engines interleave: task definitions stay exactly those
      on disk, no run time is ever lowered, and no recorded topic or creation time is lost. */
  lemma {:induction false} RunStateWritesAreMonotone(codec: Codec, raws: seq<Option<string>>, i: nat, j: nat)
    requires codec.RoundTrips() && RunStateHistory(codec, raws) && i <= j < |raws|
    ensures RunStateOnly(TasksOf(codec, raws[i]), TasksOf(codec, raws[j]))
    decreases j
  {
    hide RunStateWrite;
    if i < j {
      RunStateWritesAreMonotone(codec, raws, i, j - 1);
      RunStateWriteKeeps(codec, Write(raws[j - 1], raws[j].value));
    }
  }

  // ---- The engine's own picture ---------------------------------------------------------------------

  /** After a merge the engine records the file as it then finds it, but keeps the list it wrote itself. It is
      in step with the file exactly if nobody put another list there in between. */
  lemma MergeLeavesEngineInStep(codec: Codec, own: seq<Task>, reload: Option<string>)
    requires SnapshotOf(codec, reload).Some? && reload.Some?
    ensures InStep(codec, ViewOf(own, SnapshotOf(codec, reload).value)) <==> own == TasksOf(codec, reload)
  {
  }

  /** An engine that is out of step stays so until the file changes again, and then catches up. */
  lemma LaterEditsAreAdopted(codec: Codec, own: seq<Task>, reload: Option<string>, later: Option<string>)
    requires SnapshotOf(codec, reload).Some? && SnapshotOf(codec, later).Some? && reload.Some?
    ensures var v := Adopted(codec, ViewOf(own, SnapshotOf(codec, reload).value), later);
            v.tasks == TasksOf(codec, later) <==> later != reload || own == TasksOf(codec, reload)
  {
  }

  /** A run of the merge in which a foreign list lands between the engine's write and its reload: the engine is out
      of step, and does not adopt that list afterwards. */
  method ReloadHidesForeignWrite(codec: Codec, own: seq<Task>, foreign: seq<Task>, updates: map<string, Task>)
    returns (engine: HeartbeatEngine, file: ConfigFile)
    requires codec.RoundTrips() && |updates| > 0 && foreign != MergedAll(own, updates)
    ensures fresh(engine) && fresh(file) && engine.codec == codec
    ensures engine.tasks == MergedAll(own, updates) && TasksOf(codec, file.raw) == foreign
    ensures !InStep(codec, engine.TheView())
  {
    file := new ConfigFile();
    file.raw := Some(codec.encode(Config(1, own)));
    engine := new HeartbeatEngine(codec);
    var edit := Some(codec.encode(Config(3, foreign)));
    var around := Surroundings((k: nat, raw: Option<string>) => if k == 3 then edit else raw, (k: nat) => true, (k: nat) => true);
    ghost var before := file.raw;
    assert SnapshotOf(codec, before).value.cfg == Config(1, own);
    var outcome, w, reload, attempts := engine.MergeRunUpdates(file, updates, around);
    assert outcome.Merged? && attempts == 1;
    assert FileAt(around, before, 1) == before;
    assert file.raw == edit && SnapshotOf(codec, edit).value.cfg == Config(3, foreign);
    assert TasksOf(codec, Some(w.after)) == MergedAll(own, updates) by {
      WrittenReadsBack(codec, w, SnapshotOf(codec, before).value, MergedAll(own, updates));
    }
    engine.AdoptExternalEdits(file);
  }
}
